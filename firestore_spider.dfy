/**
 * The seed resolver of the Scrapy crawler (`FirestoreSpider` in
 * scraping/scraping/spiders/__init__.py).
 *
 * The spider reads the document `organizations/test/spiders/test`, takes its
 * `urlsCollections` list of collection names and walks it in order, looking
 * each name up under `organizations/test/urlscollections/`. The `urlsList`
 * of the FIRST collection document that exists is the seed list: later
 * collections are never read and lists are never concatenated. Every miss
 * ends in Python's `None`.
 *
 * The Firestore client is replaced by a map from document path to record.
 */
module FirestoreSpider {
  import opened Wrappers

  /** A stored document, reduced to the two fields the crawler reads. */
  datatype Record = Record(urlsCollections: Option<seq<string>>, urlsList: Option<seq<string>>)

  /** The document store: a path that is not a key is a document that does not exist. */
  type Store = map<string, Record>

  const SpiderPath: string := "organizations/test/spiders/test"
  const CollectionsPrefix: string := "organizations/test/urlscollections/"

  /** The path `_urls_coll_coll.document(name)` reads. */
  function CollectionPath(name: string): string {
    CollectionsPrefix + name
  }

  /** True when the collection document named `name` exists. */
  predicate Exists(store: Store, name: string) {
    CollectionPath(name) in store
  }

  /** Index of the first name of `names` whose collection document exists. */
  function FirstExisting(store: Store, names: seq<string>): (r: Option<nat>)
    ensures r.Some? ==> r.value < |names| && Exists(store, names[r.value])
    ensures r.Some? ==> forall j :: 0 <= j < r.value ==> !Exists(store, names[j])
    ensures r.None? <==> forall j :: 0 <= j < |names| ==> !Exists(store, names[j])
  {
    if |names| == 0 then None
    else if Exists(store, names[0]) then Some(0)
    else
      match FirstExisting(store, names[1..])
      case None => None
      case Some(i) => Some(i + 1)
  }

  /** The seed list `_get_urls` returns, `None` standing for Python's `None`. */
  function ResolveUrls(store: Store): (r: Option<seq<string>>)
    ensures SpiderPath !in store ==> r.None?
    ensures r.Some? ==>
      && SpiderPath in store
      && NonEmpty(store[SpiderPath].urlsCollections)
      && exists i :: FirstHit(store, store[SpiderPath].urlsCollections.value, i)
                     && store[CollectionPath(store[SpiderPath].urlsCollections.value[i])].urlsList == r
  {
    if SpiderPath !in store then None
    else
      var names := store[SpiderPath].urlsCollections;
      if !NonEmpty(names) then None
      else
        match FirstExisting(store, names.value)
        case None => None
        case Some(i) =>
          assert FirstHit(store, names.value, i);
          store[CollectionPath(names.value[i])].urlsList
  }

  /** `_get_urls`: a loop over the collection names with an early return. */
  method GetUrls(store: Store) returns (r: Option<seq<string>>)
    ensures r == ResolveUrls(store)
  {
    if SpiderPath !in store {
      return None;
    }
    var names := store[SpiderPath].urlsCollections;
    if !NonEmpty(names) {
      return None;
    }
    var i := 0;
    while i < |names.value|
      invariant 0 <= i <= |names.value|
      invariant forall j :: 0 <= j < i ==> !Exists(store, names.value[j])
    {
      var path := CollectionPath(names.value[i]);
      if path in store {
        return store[path].urlsList;
      }
      i := i + 1;
    }
    return None;
  }

  /** What goes wrong in the crawler: iterating over `None` raises a TypeError. */
  datatype CrawlError = NoneNotIterable

  /**
   * `next_url`: the generator that yields every element of `_get_urls()`.
   * The yielded elements are collected in order; a `None` list fails on the
   * first iteration, before anything is yielded.
   */
  method NextUrl(store: Store) returns (r: Result<seq<string>, CrawlError>)
    ensures ResolveUrls(store).None? ==> r == Failure(NoneNotIterable)
    ensures ResolveUrls(store).Some? ==> r == Success(ResolveUrls(store).value)
  {
    var listOfUrls := GetUrls(store);
    if listOfUrls.None? {
      return Failure(NoneNotIterable);
    }
    var yielded: seq<string> := [];
    var i := 0;
    while i < |listOfUrls.value|
      invariant 0 <= i <= |listOfUrls.value|
      invariant yielded == listOfUrls.value[..i]
    {
      yielded := yielded + [listOfUrls.value[i]];
      i := i + 1;
    }
    assert listOfUrls.value[..i] == listOfUrls.value;
    return Success(yielded);
  }

  /** The callbacks a request can carry; `parse` is the only one the spiders use. */
  datatype Callback = Parse

  /** A `scrapy.Request`, reduced to its URL and its callback. */
  datatype Request = Request(url: string, callback: Callback)

  /**
   * The base class's `start_requests`: it only prints and returns `None`,
   * so it offers no request iterable at all.
   */
  method StartRequests(store: Store) returns (r: Option<seq<Request>>)
    ensures r.None?
  {
    r := None;
  }

  // ---------------------------------------------------------------------
  // Properties of the resolution
  // ---------------------------------------------------------------------

  /** Every collection path is longer than the spider path, so they never coincide. */
  lemma CollectionPathIsNotSpiderPath(name: string)
    ensures CollectionPath(name) != SpiderPath
  {
    assert |CollectionPath(name)| >= |CollectionsPrefix| > |SpiderPath|;
  }

  /** Distinct collection names give distinct document paths. */
  lemma CollectionPathInjective(a: string, b: string)
    requires a != b
    ensures CollectionPath(a) != CollectionPath(b)
  {
    var n := |CollectionsPrefix|;
    assert a == CollectionPath(a)[n..];
    assert b == CollectionPath(b)[n..];
  }

  /**
   * The complete characterisation of `_get_urls`: it returns a list exactly
   * when the spider document exists with a non-empty `urlsCollections`, some
   * named collection exists, and the first one that exists holds `urlsList`;
   * the list returned is that `urlsList`.
   */
  lemma {:induction false} ResolveUrlsCharacterised(store: Store, urls: seq<string>)
    ensures ResolveUrls(store) == Some(urls) <==>
      && SpiderPath in store
      && NonEmpty(store[SpiderPath].urlsCollections)
      && exists i :: FirstHit(store, store[SpiderPath].urlsCollections.value, i)
                     && store[CollectionPath(store[SpiderPath].urlsCollections.value[i])].urlsList == Some(urls)
  {
    if SpiderPath in store && NonEmpty(store[SpiderPath].urlsCollections) {
      var names := store[SpiderPath].urlsCollections.value;
      match FirstExisting(store, names)
      case None =>
      case Some(k) =>
        assert FirstHit(store, names, k);
        forall i | FirstHit(store, names, i) ensures i == k {
          FirstHitUnique(store, names, i, k);
        }
    }
  }

  /** `i` is the position of the first existing collection among `names`. */
  ghost predicate FirstHit(store: Store, names: seq<string>, i: int) {
    0 <= i < |names| && Exists(store, names[i]) &&
    forall j :: 0 <= j < i ==> !Exists(store, names[j])
  }

  /** There is at most one first existing collection. */
  lemma FirstHitUnique(store: Store, names: seq<string>, i: int, k: int)
    requires FirstHit(store, names, i) && FirstHit(store, names, k)
    ensures i == k
  {
  }

  /** A missing spider document resolves to `None`. */
  lemma NoSpiderDocument(store: Store)
    requires SpiderPath !in store
    ensures ResolveUrls(store).None?
  {
  }

  /** A spider document without names, or with an empty list of names, resolves to `None`. */
  lemma NoCollectionNames(store: Store)
    requires SpiderPath in store
    requires store[SpiderPath].urlsCollections.None? || store[SpiderPath].urlsCollections.value == []
    ensures ResolveUrls(store).None?
  {
  }

  /** When none of the named collections exists, the result is `None`. */
  lemma NoNamedCollectionExists(store: Store)
    requires SpiderPath in store
    requires store[SpiderPath].urlsCollections.Some?
    requires forall n :: n in store[SpiderPath].urlsCollections.value ==> !Exists(store, n)
    ensures ResolveUrls(store).None?
  {
  }

  /**
   * Only the spider document and the collections up to and including the
   * first existing one are read: rewriting any other document, in
   * particular a later collection, leaves the result unchanged.
   */
  lemma {:induction false} LaterDocumentsNotRead(store: Store, path: string, rec: Record)
    requires SpiderPath in store && NonEmpty(store[SpiderPath].urlsCollections)
    requires path != SpiderPath
    requires var names := store[SpiderPath].urlsCollections.value;
             var k := FirstExisting(store, names);
             k.Some? && forall j :: 0 <= j <= k.value ==> path != CollectionPath(names[j])
    ensures ResolveUrls(store[path := rec]) == ResolveUrls(store)
  {
    var names := store[SpiderPath].urlsCollections.value;
    var store' := store[path := rec];
    var k := FirstExisting(store, names).value;
    assert store'[SpiderPath] == store[SpiderPath];
    assert FirstHit(store', names, k);
    FirstHitUnique(store', names, k, FirstExisting(store', names).value);
  }

  /**
   * A first existing collection without `urlsList` gives `None`, even when a
   * later collection holds URLs.
   */
  lemma FirstCollectionWithoutList(store: Store, names: seq<string>, k: nat)
    requires SpiderPath in store && store[SpiderPath].urlsCollections == Some(names)
    requires FirstHit(store, names, k)
    requires store[CollectionPath(names[k])].urlsList.None?
    ensures ResolveUrls(store).None?
  {
    FirstHitUnique(store, names, k, FirstExisting(store, names).value);
  }

  /** Two existing collections [A, B]: only A's list is returned, not A's followed by B's. */
  lemma FirstCollectionOnly(a: string, b: string, u: seq<string>, v: seq<string>)
    requires a != b && |v| > 0
    ensures var store := map[SpiderPath := Record(Some([a, b]), None),
                             CollectionPath(a) := Record(None, Some(u)),
                             CollectionPath(b) := Record(None, Some(v))];
            ResolveUrls(store) == Some(u) && ResolveUrls(store) != Some(u + v)
  {
    CollectionPathIsNotSpiderPath(a);
    CollectionPathIsNotSpiderPath(b);
    CollectionPathInjective(a, b);
    assert |u + v| > |u|;
  }

  /**
   * Names whose document is absent are skipped: with names [A, A, B] where
   * only B exists, the result is B's list.
   */
  lemma MissingCollectionsSkipped(a: string, b: string, v: seq<string>)
    requires a != b
    ensures var store := map[SpiderPath := Record(Some([a, a, b]), None),
                             CollectionPath(b) := Record(None, Some(v))];
            ResolveUrls(store) == Some(v)
  {
    CollectionPathIsNotSpiderPath(b);
    CollectionPathInjective(a, b);
    var store := map[SpiderPath := Record(Some([a, a, b]), None),
                     CollectionPath(b) := Record(None, Some(v))];
    assert [a, a, b][1..] == [a, b] && [a, b][1..] == [b];
    assert FirstExisting(store, [b]) == Some(0);
    assert FirstExisting(store, [a, b]) == Some(1);
  }
}
