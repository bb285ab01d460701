/**
 * The selector-evaluation panel of a data entry
 * (frontend/src/components/Data/DataScraping/ScrapeContent.tsx).
 *
 * Two pure rules decide the panel: the gate `_isEvaluationEnabled` enables
 * the evaluate button, and `_evaluationHelperMessage` picks the tooltip by a
 * fixed priority. The component state changes in three places: the click
 * handler `scrapeContent` (which sends the request), the backend's response
 * callback (which copies the validated selectors into the local data), and
 * the `useEffect` that re-initialises the panel and recomputes both rules.
 *
 * `isURL` (the validator package) is left uninterpreted: a parameter.
 */
module ScrapeContent {
  import opened Wrappers
  import opened SpiderInterfaces

  /** `data.isPopup` is truthy. */
  predicate PopupEnabled(data: Data) {
    data.isPopup == Some(true)
  }

  /** `_isEvaluationEnabled(spider, data)`. */
  function IsEvaluationEnabled(spider: Spider, data: Data): (enabled: bool)
    ensures enabled <==>
      && data.selector.Some?
      && spider.sampleURLs.Some?
      && data.selector.value.status == Some(Valid)
      && (PopupEnabled(data) && data.popupSelector.Some? ==> data.popupSelector.value.status == Some(Valid))
  {
    if data.selector.None? then false
    else
      var condition := spider.sampleURLs.Some? && data.selector.value.status == Some(Valid);
      if PopupEnabled(data) && data.popupSelector.Some? then
        condition && data.popupSelector.value.status == Some(Valid)
      else
        condition
  }

  /** The tooltip `_evaluationHelperMessage` chooses; `Disabled` carries the path it shows. */
  datatype HelperMessage = IncorrectSampleUrl | Disabled(path: Option<string>) | Enabled

  /** The sample URL is defined and passes `isURL`. */
  predicate SampleUrlOk(sampleUrl: Option<string>, isUrl: string -> bool) {
    sampleUrl.Some? && isUrl(sampleUrl.value)
  }

  /** `s?.status === SelectorStatus.INVALID` */
  predicate IsInvalid(s: Option<DataSelector>) {
    s.Some? && s.value.status == Some(Invalid)
  }

  /** `_evaluationHelperMessage(selector, popupSelector, isPopup)`. */
  function EvaluationHelperMessage(
    sampleUrl: Option<string>, isUrl: string -> bool,
    selector: Option<DataSelector>, popupSelector: Option<DataSelector>, isPopup: Option<bool>): (m: HelperMessage)
    ensures !SampleUrlOk(sampleUrl, isUrl) <==> m == IncorrectSampleUrl
    ensures m.Disabled? ==>
      || (IsInvalid(selector) && m.path == selector.value.path)
      || (isPopup == Some(true) && IsInvalid(popupSelector) && m.path == popupSelector.value.path)
    ensures m == Enabled ==> !IsInvalid(selector) && !(isPopup == Some(true) && IsInvalid(popupSelector))
  {
    if !SampleUrlOk(sampleUrl, isUrl) then IncorrectSampleUrl
    else if IsInvalid(selector) then Disabled(selector.value.path)
    else if isPopup == Some(true) && IsInvalid(popupSelector) then Disabled(popupSelector.value.path)
    else Enabled
  }

  datatype ScrapingStatus = Success | NoContent | InvalidSelector | Error | ElementNotFound

  /** A `ScrapingResponse` or `ScrapingError`, reduced to what the panel reads. */
  datatype ScrapingResult = ScrapingResult(
    status: ScrapingStatus,
    selector: DataSelector,
    clickBefore: Option<seq<Option<DataSelector>>>,
    message: Option<string>)

  /** The `getContent` call the click sends to the backend. */
  datatype ContentRequest = ContentRequest(selector: DataSelector, url: string, popupSelector: Option<DataSelector>)

  /** `data.isPopup ? data.popupSelector : undefined` */
  function ForwardedPopup(data: Data): Option<DataSelector> {
    if PopupEnabled(data) then data.popupSelector else None
  }

  /** `response.clickBefore[0]`, undefined without `clickBefore` or when it is empty. */
  function FirstClickBefore(clickBefore: Option<seq<Option<DataSelector>>>): Option<DataSelector> {
    if clickBefore.Some? && |clickBefore.value| > 0 then clickBefore.value[0] else None
  }

  /** The state hooks of the component, and the responses passed to `onScraped`. */
  class PanelState {
    var localData: Option<Data>
    var dataName: string
    var sampleUrl: Option<string>
    var evaluation: Option<ScrapingResult>
    var helperMessage: Option<HelperMessage>
    var isEvaluationEnabled: bool
    var isBackendError: bool
    var isLoading: bool
    var scraped: seq<ScrapingResult>

    constructor ()
      ensures localData.None? && dataName == "" && sampleUrl.None? && evaluation.None?
      ensures helperMessage.None? && !isEvaluationEnabled && !isBackendError && !isLoading && scraped == []
    {
      localData, dataName, sampleUrl, evaluation := None, "", None, None;
      helperMessage, isEvaluationEnabled, isBackendError, isLoading := None, false, false, false;
      scraped := [];
    }

    /** `changeSampleUrl`: a new sample URL clears the evaluation. */
    method ChangeSampleUrl(url: string)
      modifies this
      ensures sampleUrl == Some(url) && evaluation.None?
      ensures localData == old(localData) && isLoading == old(isLoading) && isBackendError == old(isBackendError)
      ensures isEvaluationEnabled == old(isEvaluationEnabled) && helperMessage == old(helperMessage)
      ensures dataName == old(dataName) && scraped == old(scraped)
    {
      sampleUrl := Some(url);
      evaluation := None;
    }

    /**
     * `scrapeContent`: clear the evaluation and the backend error, start
     * loading, and send the request only when the local data, the selector
     * path and the sample URL are all defined. The popup selector is
     * forwarded only when `isPopup` is set.
     */
    method ScrapeClick(data: Data) returns (request: Option<ContentRequest>)
      modifies this
      ensures evaluation.None? && isLoading && !isBackendError
      ensures localData == old(localData) && sampleUrl == old(sampleUrl) && dataName == old(dataName)
      ensures isEvaluationEnabled == old(isEvaluationEnabled) && helperMessage == old(helperMessage)
      ensures scraped == old(scraped)
      ensures request.Some? <==>
        localData.Some? && data.selector.Some? && data.selector.value.path.Some? && sampleUrl.Some?
      ensures request.Some? ==>
        request.value == ContentRequest(data.selector.value, sampleUrl.value, ForwardedPopup(data))
    {
      evaluation := None;
      isLoading := true;
      isBackendError := false;
      if localData.Some? && data.selector.Some? && data.selector.value.path.Some? && sampleUrl.Some? {
        var cookiePopupSelector := if PopupEnabled(data) then data.popupSelector else None;
        request := Some(ContentRequest(data.selector.value, sampleUrl.value, cookiePopupSelector));
      } else {
        request := None;
      }
    }

    /**
     * The response callback. Every response becomes the evaluation and is
     * passed to `onScraped`. A SUCCESS copies the returned selector and the
     * first `clickBefore` selector into the local data; an ERROR flags a
     * backend error; the other statuses change neither.
     */
    method OnResponse(response: ScrapingResult)
      requires localData.Some?
      modifies this
      ensures evaluation == Some(response) && scraped == old(scraped) + [response] && !isLoading
      ensures response.status == ScrapingStatus.Success ==>
        localData == Some(old(localData).value.(selector := Some(response.selector),
                                               popupSelector := FirstClickBefore(response.clickBefore)))
      ensures response.status != ScrapingStatus.Success ==> localData == old(localData)
      ensures isBackendError == (old(isBackendError) || response.status == Error)
      ensures sampleUrl == old(sampleUrl) && dataName == old(dataName)
      ensures isEvaluationEnabled == old(isEvaluationEnabled) && helperMessage == old(helperMessage)
    {
      evaluation := Some(response);
      scraped := scraped + [response];
      if response.status == ScrapingStatus.Success {
        var updated := localData.value.(selector := Some(response.selector));
        if response.clickBefore.Some? {
          var first := if |response.clickBefore.value| > 0 then response.clickBefore.value[0] else None;
          updated := updated.(popupSelector := first);
        } else {
          updated := updated.(popupSelector := None);
        }
        localData := Some(updated);
      } else if response.status == Error {
        isBackendError := true;
      }
      isLoading := false;
    }

    /**
     * The `useEffect`: re-initialise the panel when the data changes name,
     * then recompute the gate (clearing the evaluation when it is closed)
     * and the tooltip. The tooltip reads the sample URL of the render the
     * effect belongs to, so a URL set by this same run is not seen yet.
     */
    method Effect(spider: Spider, data: Data, isUrl: string -> bool)
      modifies this
      ensures isEvaluationEnabled == IsEvaluationEnabled(spider, data)
      ensures !isEvaluationEnabled ==> evaluation.None?
      ensures helperMessage == Some(EvaluationHelperMessage(old(sampleUrl), isUrl, data.selector, data.popupSelector, data.isPopup))
      ensures old(localData).None? || data.name != old(dataName) ==>
        && localData == Some(data) && dataName == data.name && evaluation.None?
        && sampleUrl == (if spider.sampleURLs.None? then old(sampleUrl)
                         else if |spider.sampleURLs.value| > 0 then Some(spider.sampleURLs.value[0]) else None)
      ensures old(localData).Some? && data.name == old(dataName) ==>
        && localData == old(localData) && dataName == old(dataName) && sampleUrl == old(sampleUrl)
        && evaluation == (if isEvaluationEnabled then old(evaluation) else None)
      ensures isLoading == old(isLoading) && isBackendError == old(isBackendError) && scraped == old(scraped)
    {
      var renderSampleUrl := sampleUrl;
      if localData.None? || data.name != dataName {
        dataName := data.name;
        localData := Some(data);
        evaluation := None;
        if spider.sampleURLs.Some? {
          sampleUrl := if |spider.sampleURLs.value| > 0 then Some(spider.sampleURLs.value[0]) else None;
        }
      }
      var enabled := IsEvaluationEnabled(spider, data);
      if !enabled {
        evaluation := None;
      }
      isEvaluationEnabled := enabled;
      helperMessage := Some(EvaluationHelperMessage(renderSampleUrl, isUrl, data.selector, data.popupSelector, data.isPopup));
    }
  }

  // ---------------------------------------------------------------------
  // Properties of the two rules
  // ---------------------------------------------------------------------

  /** Without a selector the gate is closed. */
  lemma NoSelectorNoEvaluation(spider: Spider, data: Data)
    requires data.selector.None?
    ensures !IsEvaluationEnabled(spider, data)
  {
  }

  /**
   * With `isPopup` set but no popup selector, the popup is ignored; with
   * `isPopup` unset, the popup's status is ignored whatever it is.
   */
  lemma PopupIgnoredUnlessChecked(spider: Spider, data: Data, popup: Option<DataSelector>)
    requires !PopupEnabled(data) || data.popupSelector.None?
    ensures IsEvaluationEnabled(spider, data) ==
      (data.selector.Some? && spider.sampleURLs.Some? && data.selector.value.status == Some(Valid))
  {
  }

  /** The tooltip's priority: the sample URL first, then the selector, then the popup. */
  lemma HelperMessagePriority(
    sampleUrl: Option<string>, isUrl: string -> bool,
    selector: Option<DataSelector>, popupSelector: Option<DataSelector>, isPopup: Option<bool>)
    ensures var m := EvaluationHelperMessage(sampleUrl, isUrl, selector, popupSelector, isPopup);
      && (!SampleUrlOk(sampleUrl, isUrl) ==> m == IncorrectSampleUrl)
      && (SampleUrlOk(sampleUrl, isUrl) && IsInvalid(selector) ==> m == Disabled(selector.value.path))
      && ((SampleUrlOk(sampleUrl, isUrl) && !IsInvalid(selector) && isPopup == Some(true) && IsInvalid(popupSelector))
          ==> m == Disabled(popupSelector.value.path))
      && (m == Enabled <==>
            SampleUrlOk(sampleUrl, isUrl) && !IsInvalid(selector) && !(isPopup == Some(true) && IsInvalid(popupSelector)))
  {
  }

  /** An INVALID selector never gets the "enabled" tooltip. */
  lemma InvalidSelectorNeverEnabled(
    sampleUrl: Option<string>, isUrl: string -> bool,
    selector: Option<DataSelector>, popupSelector: Option<DataSelector>, isPopup: Option<bool>)
    requires IsInvalid(selector)
    ensures EvaluationHelperMessage(sampleUrl, isUrl, selector, popupSelector, isPopup) != Enabled
  {
  }

  /**
   * The two rules agree when the sample URL is good: an open gate always
   * comes with the "enabled" tooltip.
   */
  lemma OpenGateHasEnabledMessage(spider: Spider, data: Data, sampleUrl: Option<string>, isUrl: string -> bool)
    requires IsEvaluationEnabled(spider, data) && SampleUrlOk(sampleUrl, isUrl)
    ensures EvaluationHelperMessage(sampleUrl, isUrl, data.selector, data.popupSelector, data.isPopup) == Enabled
  {
  }

  /** A SUCCESS without `clickBefore`, or with an empty one, leaves no popup selector. */
  lemma NoClickBeforeNoPopup(clickBefore: Option<seq<Option<DataSelector>>>)
    requires clickBefore.None? || clickBefore.value == []
    ensures FirstClickBefore(clickBefore).None?
  {
  }
}
