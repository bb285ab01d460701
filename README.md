# nocode_scraping: verified model of the list, map and string rules

This project models the parts of nocode_scraping that decide what gets crawled and what the configurator shows and sends. It states their behaviour as Dafny contracts and proves them.

- **Seed resolution in the crawler** (`scraping/scraping/spiders/__init__.py`, `test_spider.py`).
  - The Scrapy spider reads the spider document `organizations/test/spiders/test`.
  - It walks the document's `urlsCollections` names in order.
  - It seeds the crawl with the `urlsList` of the **first** collection document that exists.
  - Every URL becomes one `scrapy.Request` with the `parse` callback.
  - It neither concatenates the lists of later collections nor deduplicates URLs: it returns the first existing collection's list, and duplicate URLs give duplicate requests.
- **The collection registry on a spider** (`backend/src/controllers/urls-collections.controller.ts`).
  - `addCollection` upserts a URL collection, then appends its key to `spider.urlsCollections` when the key is absent.
  - `DeleteUrlsCollection` removes the first occurrence of the key and deletes the collection.
  - These are the writers of the list the crawler reads.
  - The Firestore services become a `Database` class with two maps and a log of the writes issued.
- **`mergeSpiderData`** (`frontend/src/interfaces/spider.ts`): upserts a data entry by name. The entry at the last matching index is replaced; with no match, the entry is appended.
- **The product sheet's queries** (`frontend/src/views/ProductSheet/ProductSheet.tsx`): `isSelectorValid`, `validDataCount` and the lookup in `showSideBar`.
- **The two sweepers' previews**: padding (`PadSweeper.tsx`) and replacement of the first occurrence (`ReplaceCharSweeper.tsx`).
- **The evaluation panel** (`ScrapeContent.tsx`):
  - the gate that enables evaluation, and the prioritised tooltip
  - the click handler and the response callback
  - the effect that re-initialises the panel
- **The URL-list form** (`URLsCollection.tsx`): splits the text into lines on LF or CRLF, checks each line with `isURL`, and submits only when every line passes and the name is non-empty.

JavaScript and Python truthiness is written out:
- An empty JavaScript array is truthy, so `![]` is false.
- An empty Python list is falsy.
- An empty JavaScript string is falsy.

The URL validator `isURL` is an uninterpreted function parameter.

## Model

| member | source | states |
|---|---|---|
| FirestoreSpider.FirstExisting | scraping/scraping/spiders/__init__.py:29-33 | the index found is the first name, in stored order, whose collection document exists; `None` exactly when no named collection exists |
| FirestoreSpider.ResolveUrls | scraping/scraping/spiders/__init__.py:22-35 | a missing spider document gives `None`; a list is returned only when the spider document has non-empty `urlsCollections`, and it is the `urlsList` of the first existing collection |
| FirestoreSpider.GetUrls | scraping/scraping/spiders/__init__.py:13-35 | the loop with its early return computes the seed list `ResolveUrls` |
| FirestoreSpider.NextUrl | scraping/scraping/spiders/__init__.py:40-49 | yields exactly the resolved list, in order and unchanged; a `None` list fails with the iteration error before anything is yielded |
| FirestoreSpider.StartRequests | scraping/scraping/spiders/__init__.py:37-38 | the base class offers no requests |
| FirestoreSpider.CollectionPathIsNotSpiderPath | scraping/scraping/spiders/__init__.py:22-31 | a collection document is never the spider document |
| FirestoreSpider.CollectionPathInjective | scraping/scraping/spiders/__init__.py:29-31 | distinct collection names read distinct documents |
| FirestoreSpider.ResolveUrlsCharacterised | scraping/scraping/spiders/__init__.py:22-35 | a list is returned iff the spider document exists, its `urlsCollections` is non-empty, and the first existing collection holds a `urlsList`; that list is the result |
| FirestoreSpider.FirstHitUnique | scraping/scraping/spiders/__init__.py:30-35 | the first existing collection is unique |
| FirestoreSpider.NoSpiderDocument | scraping/scraping/spiders/__init__.py:22-25 | a missing spider document gives `None` |
| FirestoreSpider.NoCollectionNames | scraping/scraping/spiders/__init__.py:27-28 | missing or empty `urlsCollections` gives `None` |
| FirestoreSpider.NoNamedCollectionExists | scraping/scraping/spiders/__init__.py:30-35 | when no named collection exists the result is `None` |
| FirestoreSpider.LaterDocumentsNotRead | scraping/scraping/spiders/__init__.py:30-35 | rewriting any document other than the spider document and the collections up to the first existing one leaves the result unchanged |
| FirestoreSpider.FirstCollectionWithoutList | scraping/scraping/spiders/__init__.py:35 | a first existing collection without `urlsList` gives `None`, whatever later collections hold |
| FirestoreSpider.FirstCollectionOnly | scraping/scraping/spiders/__init__.py:33-35 | with two existing collections A and B, the result is A's list, not A's followed by B's |
| FirestoreSpider.MissingCollectionsSkipped | scraping/scraping/spiders/__init__.py:29-35 | absent names are skipped: `[A, A, B]` with only B present gives B's list |
| TestSpider.RequestsFor | scraping/scraping/spiders/test_spider.py:11-12 | one request per URL, in order, with the URL unchanged and the `parse` callback |
| TestSpider.StartRequests | scraping/scraping/spiders/test_spider.py:9-12 | the requests for the resolved list; a failure of `next_url` propagates with no request |
| TestSpider.DuplicatesKept | scraping/scraping/spiders/test_spider.py:11-12 | a URL listed n times gives n requests |
| TestSpider.RequestUrlsAreSeeds | scraping/scraping/spiders/test_spider.py:12 | every request's URL is a seed URL at the same position, with the `parse` callback |
| UrlsCollectionsController.IndexOf | backend/src/controllers/urls-collections.controller.ts:128-135 | the index of the first occurrence of the key, or -1 exactly when the key is absent |
| UrlsCollectionsController.ContainsKey | backend/src/controllers/urls-collections.controller.ts:82-89 | the `every` scan reports exactly whether the key is listed |
| UrlsCollectionsController.FindKeyIndex | backend/src/controllers/urls-collections.controller.ts:128-135 | the `every` scan finds the first occurrence of the key, or -1 exactly when absent |
| UrlsCollectionsController.Database.AddCollection | backend/src/controllers/urls-collections.controller.ts:43-105 | a blank key, a blank spider name or a missing spider fails with nothing written; otherwise the call succeeds, the collection is upserted and, only if its key is absent, the spider is rewritten with the key appended |
| UrlsCollectionsController.Database.DeleteUrlsCollection | backend/src/controllers/urls-collections.controller.ts:108-155 | a blank or unknown key, a missing spider or a spider without `urlsCollections` fails with nothing written; otherwise the call succeeds, the first occurrence is removed (spider rewritten only if listed) and the collection deleted |
| UrlsCollectionsController.WithKeyRegisters | backend/src/controllers/urls-collections.controller.ts:78-93 | after registering, the key is listed, the old list is a prefix, and exactly one copy is added when absent |
| UrlsCollectionsController.WithKeyKeepsNoDuplicates | backend/src/controllers/urls-collections.controller.ts:82-93 | registering never introduces a duplicate |
| UrlsCollectionsController.WithKeyIdempotent | backend/src/controllers/urls-collections.controller.ts:91-100 | registering a listed key changes nothing |
| UrlsCollectionsController.WithoutFirstRemovesOne | backend/src/controllers/urls-collections.controller.ts:137-139 | removal drops exactly one copy of the key, or changes nothing when absent |
| UrlsCollectionsController.WithoutFirstKeepsOrder | backend/src/controllers/urls-collections.controller.ts:137-139 | all other names keep their order, including later copies of the key |
| UrlsCollectionsController.WithoutFirstRemovesKey | backend/src/controllers/urls-collections.controller.ts:128-139 | on a list without duplicates, the key is absent afterwards |
| UrlsCollectionsController.MultisetCountOne | backend/src/controllers/urls-collections.controller.ts:128-139 | a name listed at one index only occurs once |
| UrlsCollectionsController.AddThenDeleteRestores | backend/src/controllers/urls-collections.controller.ts:91-139 | deleting a freshly registered key restores the spider's list |
| UrlsCollectionsController.UpsertedReplacesOnlyList | backend/src/controllers/urls-collections.controller.ts:56-70 | an existing collection keeps its key, name and spider and takes the request's list; a new one is built from the request |
| SpiderInterfaces.LastIndexOfName | frontend/src/interfaces/spider.ts:146-153 | the index of the last entry with the name, or -1 exactly when no entry has it |
| SpiderInterfaces.MergeSpiderData | frontend/src/interfaces/spider.ts:145-170 | the result is the input spider with its data list merged; every other field is unchanged |
| SpiderInterfaces.MergeAppendsNew | frontend/src/interfaces/spider.ts:149-162 | without a same-name entry, the entry is appended after the old list |
| SpiderInterfaces.MergeReplacesLast | frontend/src/interfaces/spider.ts:149-164 | with matches, the length is kept, the last match is replaced and every other entry is unchanged |
| SpiderInterfaces.MergeContains | frontend/src/interfaces/spider.ts:160-167 | afterwards the entry is listed, as the last one with its name |
| SpiderInterfaces.MergeIdempotent | frontend/src/interfaces/spider.ts:145-170 | merging the same entry twice equals merging it once |
| SpiderInterfaces.MergeIntoUndefined | frontend/src/interfaces/spider.ts:155-162 | an undefined data list becomes `[data]` |
| ProductSheet.IsSelectorValid | frontend/src/views/ProductSheet/ProductSheet.tsx:116-127 | true iff some entry with the name has a VALID selector; the scan is not stopped by the inner `return` |
| ProductSheet.ValidDataCount | frontend/src/views/ProductSheet/ProductSheet.tsx:134-144 | counts the group's entries whose name passes `isSelectorValid`, and at most the group's size |
| ProductSheet.SheetState.ShowSideBar | frontend/src/views/ProductSheet/ProductSheet.tsx:55-78 | without a spider nothing changes; otherwise the side bar opens on the last same-name entry with the element's group, or on the element itself |
| ProductSheet.ValidCountBounded | frontend/src/views/ProductSheet/ProductSheet.tsx:135-143 | the count never exceeds the number of entries in the group |
| ProductSheet.ValidCountAllValid | frontend/src/views/ProductSheet/ProductSheet.tsx:136-142 | when every entry of the group is valid, all are counted |
| ProductSheet.ValidCountIgnoresOtherGroups | frontend/src/views/ProductSheet/ProductSheet.tsx:137 | entries without a group, or in another group, are never counted |
| ProductSheet.NothingWithoutData | frontend/src/views/ProductSheet/ProductSheet.tsx:117-118 | without a spider or data list, no name is valid and the count is 0 |
| ProductSheet.LaterValidEntryFound | frontend/src/views/ProductSheet/ProductSheet.tsx:118-125 | an earlier invalid entry does not hide a later valid one with the same name |
| ProductSheet.SideBarDataMatchesElement | frontend/src/views/ProductSheet/ProductSheet.tsx:59-74 | the opened entry has the element's name and group, and the last match's selector |
| PadSweeper.Pad | frontend/src/components/Data/DataSweeper/PadSweeper.tsx:37-44 | computed iff a padding field and the sample are non-empty; the result is the prefix, the sample and the suffix, in that order, with matching length |
| PadSweeper.Effect | frontend/src/components/Data/DataSweeper/PadSweeper.tsx:36-54 | the calls received so far are kept, at most one is added, and a computed result is what is shown |
| PadSweeper.EffectReportsWhatItShows | frontend/src/components/Data/DataSweeper/PadSweeper.tsx:45-52 | the callback gets the form state and exactly the string shown; a failed guard shows and reports nothing |
| PadSweeper.RecomputedFromSample | frontend/src/components/Data/DataSweeper/PadSweeper.tsx:38 | after two successive edits, the second result pads the original sample by the second form state, whatever the first edit showed |
| PadSweeper.HelloExamples | frontend/src/components/Data/DataSweeper/PadSweeper.test.js:45-123 | "hello" becomes "xhello", "helloy" and "xhelloy" |
| PadSweeper.PrefixThenSuffix | frontend/src/components/Data/DataSweeper/PadSweeper.test.js:125-145 | typing a prefix, then a suffix, reports "xhello", then "xhelloy" |
| PadSweeper.NothingComputed | frontend/src/components/Data/DataSweeper/PadSweeper.tsx:37 | empty fields or an empty sample leave the view unchanged |
| ReplaceCharSweeper.IndexOf | frontend/src/components/Data/DataSweeper/ReplaceCharSweeper.tsx:37 | the first index where the pattern occurs, or `None` exactly when it never occurs |
| ReplaceCharSweeper.ReplaceFirst | frontend/src/components/Data/DataSweeper/ReplaceCharSweeper.tsx:37 | without an occurrence the text is unchanged; otherwise the text before and after the first occurrence is kept, the occurrence becomes the replacement, and the length changes by the difference |
| ReplaceCharSweeper.Replace | frontend/src/components/Data/DataSweeper/ReplaceCharSweeper.tsx:36-37 | computed iff the pattern, the replacement and the sample are all non-empty |
| ReplaceCharSweeper.Effect | frontend/src/components/Data/DataSweeper/ReplaceCharSweeper.tsx:35-47 | the calls received so far are kept, at most one is added, and a computed result is what is shown |
| ReplaceCharSweeper.NotFoundUnchanged | frontend/src/components/Data/DataSweeper/ReplaceCharSweeper.tsx:37 | without an occurrence, the text is unchanged |
| ReplaceCharSweeper.ReplacesFirstOccurrence | frontend/src/components/Data/DataSweeper/ReplaceCharSweeper.tsx:37 | the text before and after the first occurrence is kept, the occurrence becomes the replacement, and the length changes by the difference |
| ReplaceCharSweeper.ReplaceBack | frontend/src/components/Data/DataSweeper/ReplaceCharSweeper.tsx:37 | replacing back restores the text when the replacement first occurs where it was put |
| ReplaceCharSweeper.NoDeletion | frontend/src/components/Data/DataSweeper/ReplaceCharSweeper.tsx:36 | an empty or undefined replacement computes nothing |
| ReplaceCharSweeper.EffectReportsWhatItShows | frontend/src/components/Data/DataSweeper/ReplaceCharSweeper.tsx:38-45 | the callback gets the form state and exactly the string shown |
| ReplaceCharSweeper.OnlyFirstReplaced | frontend/src/components/Data/DataSweeper/ReplaceCharSweeper.tsx:37 | "1,5,0" becomes "1.5,0": the second comma stays |
| ScrapeContent.IsEvaluationEnabled | frontend/src/components/Data/DataScraping/ScrapeContent.tsx:134-146 | open iff a selector exists, the spider has `sampleURLs`, the selector is VALID, and, with `isPopup` and a popup selector, the popup is VALID |
| ScrapeContent.EvaluationHelperMessage | frontend/src/components/Data/DataScraping/ScrapeContent.tsx:148-163 | the sample-URL message exactly when the sample URL is missing or not a URL; a disabled message shows the path of an INVALID selector, or of an INVALID popup when `isPopup` is set; "enabled" only when neither is INVALID |
| ScrapeContent.PanelState.ChangeSampleUrl | frontend/src/components/Data/DataScraping/ScrapeContent.tsx:56-59 | a new sample URL clears the evaluation |
| ScrapeContent.PanelState.ScrapeClick | frontend/src/components/Data/DataScraping/ScrapeContent.tsx:71-90 | clears the evaluation and the error and starts loading; a request is sent iff local data, a selector path and a sample URL exist, with the popup forwarded only when `isPopup` is set |
| ScrapeContent.PanelState.OnResponse | frontend/src/components/Data/DataScraping/ScrapeContent.tsx:91-128 | the response becomes the evaluation and is reported; SUCCESS copies the selector and `clickBefore[0]` into the local data; ERROR flags a backend error; loading stops |
| ScrapeContent.PanelState.Effect | frontend/src/components/Data/DataScraping/ScrapeContent.tsx:165-194 | a new data name resets the panel and takes the first sample URL; the gate is recomputed, and a closed gate clears the evaluation; the tooltip reads the render's sample URL |
| ScrapeContent.NoSelectorNoEvaluation | frontend/src/components/Data/DataScraping/ScrapeContent.tsx:135-137 | without a selector the gate is closed |
| ScrapeContent.PopupIgnoredUnlessChecked | frontend/src/components/Data/DataScraping/ScrapeContent.tsx:142-144 | without `isPopup` or without a popup selector, the popup's status is ignored |
| ScrapeContent.HelperMessagePriority | frontend/src/components/Data/DataScraping/ScrapeContent.tsx:153-162 | bad sample URL first, then an INVALID selector, then an INVALID popup; "enabled" iff none applies |
| ScrapeContent.InvalidSelectorNeverEnabled | frontend/src/components/Data/DataScraping/ScrapeContent.tsx:156-158 | an INVALID selector never gets the "enabled" tooltip |
| ScrapeContent.OpenGateHasEnabledMessage | frontend/src/components/Data/DataScraping/ScrapeContent.tsx:134-162 | an open gate with a valid sample URL always shows the "enabled" tooltip |
| ScrapeContent.NoClickBeforeNoPopup | frontend/src/components/Data/DataScraping/ScrapeContent.tsx:107-111 | no `clickBefore`, or an empty one, leaves no popup selector |
| URLsCollectionForm.SplitLines | frontend/src/components/Spider/URLsCollection.tsx:77 | at least one line, and no line contains a line feed |
| URLsCollectionForm.SplitAfterLine | frontend/src/components/Spider/URLsCollection.tsx:77 | a line followed by LF or CRLF is split off whole |
| URLsCollectionForm.SplitSingleLine | frontend/src/components/Spider/URLsCollection.tsx:77 | a text without line breaks is one line |
| URLsCollectionForm.SplitJoin | frontend/src/components/Spider/URLsCollection.tsx:77 | splitting undoes joining with LF or with CRLF: the lines come back in order |
| URLsCollectionForm.JoinSplit | frontend/src/components/Spider/URLsCollection.tsx:77 | joining the lines of a text without CR with LF gives back the text |
| URLsCollectionForm.LineCount | frontend/src/components/Spider/URLsCollection.tsx:77 | there is one line more than there are line feeds |
| URLsCollectionForm.TrailingNewline | frontend/src/components/Spider/URLsCollection.tsx:77-85 | a trailing newline adds an empty last line, which is checked too |
| URLsCollectionForm.URLsListForm.OnCheck | frontend/src/components/Spider/URLsCollection.tsx:76-107 | nothing happens without a field value; the status becomes error iff some line fails `isURL` and is never reset; the lines are submitted, in order, iff all pass and the name is non-empty; every submission has a name and only URLs |
| URLsCollectionForm.SameListEitherLineEnding | frontend/src/components/Spider/URLsCollection.tsx:77-96 | the same lines typed with LF or CRLF are submitted as the same list |

## Left out

- Firestore access, the credentials file and the `print` calls of the crawler (`scraping/scraping/spiders/__init__.py:16-21`, 26, 34, 38). The store is a map from document path to record.
- `parse` is a stub that prints; only its use as the requests' callback is modelled.
- Crawl scheduling, fetching, deduplication, retry and concurrency: Scrapy does these, and the crawler's own code has none of them.
- The key `new URLsCollection(dto)` derives from the request: the class is not part of this model, so the key is a parameter of `AddCollection`.
- `UrlsCollectionsController.Database.AddCollection`, `UrlsCollectionsController.Database.DeleteUrlsCollection`: the `Spider` constructor in `backend/src/models/core.ts:180-197` copies no `urlsCollections`, and that file does not define the `URLsCollection` class the controller imports. It is evidently a different revision from the controller's. The model follows the controller, whose clone keeps the list.
- The controller's `GET` endpoint, logging and the `User` placeholder are not modelled: they only read or print.
- Asynchrony: the awaited store calls run in sequence; a failing write is not modelled.
- `ReplaceCharSweeper.ReplaceFirst`: the replacement is taken literally. JavaScript's expansion of `$&`, `$1` and similar sequences is not modelled.
- `isURL` (the validator package) is an uninterpreted parameter.
- React rendering, translations, notifications (`displayMessage`), sockets and the backend call itself. A request is a returned value, a response is a method argument.
- `ScrapeContent.PanelState.OnResponse`: in the component, `localData` can be the same object as the `data` prop, so the assignment to its fields also changes the caller's data. The model holds a value and does not capture that aliasing.
- `ScrapeContent.PanelState.OnResponse`: `onScraped` is optional in the component; the model records every response as if it were given.
- `ScrapeContent.PanelState.Effect`: the effect runs only when its dependency list changes; the model describes one run.
- When `ScrapeClick` sends no request (for instance when the spider's `sampleURLs` is an empty array, which opens the gate but gives no sample URL), loading stays set, as in the component.
- The other data fields (`type`, `language`, `sweepers`) and the other sweepers are not read by the modelled code.
