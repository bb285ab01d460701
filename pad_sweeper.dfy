/**
 * The padding sweeper's preview computation
 * (frontend/src/components/Data/DataSweeper/PadSweeper.tsx).
 *
 * Whenever the sample text or one of the two form fields changes, the effect
 * recomputes the padded text from the ORIGINAL sample, shows it and reports
 * it, with the form state, to `onConfigured`. Nothing happens while both
 * fields are empty or the sample is empty.
 */
module PadSweeper {
  import opened Wrappers

  /** `PadFormState`: the two watched form fields. */
  datatype PadFormState = PadFormState(appendValue: Option<string>, prependValue: Option<string>)

  /** The text a field contributes: its value when truthy, nothing otherwise. */
  function Part(s: Option<string>): string {
    if NonEmpty(s) then s.value else ""
  }

  /** The `finalString` the effect computes, or `None` when its guard fails. */
  function Pad(testdata: Option<string>, form: PadFormState): (r: Option<string>)
    ensures r.Some? <==> (NonEmpty(form.appendValue) || NonEmpty(form.prependValue)) && NonEmpty(testdata)
    ensures r.Some? ==> |r.value| == |Part(form.prependValue)| + |testdata.value| + |Part(form.appendValue)|
    ensures r.Some? ==> r.value[..|Part(form.prependValue)|] == Part(form.prependValue)
    ensures r.Some? ==> r.value[|r.value| - |Part(form.appendValue)|..] == Part(form.appendValue)
    ensures r.Some? ==>
      r.value[|Part(form.prependValue)|..|Part(form.prependValue)| + |testdata.value|] == testdata.value
  {
    if (NonEmpty(form.appendValue) || NonEmpty(form.prependValue)) && NonEmpty(testdata) then
      var start := testdata.value;
      var prefixed := if NonEmpty(form.prependValue) then form.prependValue.value + start else start;
      var finalString := if NonEmpty(form.appendValue) then prefixed + form.appendValue.value else prefixed;
      assert finalString == Part(form.prependValue) + testdata.value + Part(form.appendValue);
      Some(finalString)
    else
      None
  }

  /** One call of `onConfigured(state, value)`. */
  datatype Configured = Configured(state: PadFormState, value: string)

  /** What the component shows (`contentAfter`) and the calls `onConfigured` has received. */
  datatype PadView = PadView(contentAfter: Option<string>, calls: seq<Configured>)

  /** One run of the effect: `setContentAfter(finalString)`, then `onConfigured`. */
  function Effect(view: PadView, testdata: Option<string>, form: PadFormState): (after: PadView)
    ensures |view.calls| <= |after.calls| <= |view.calls| + 1
    ensures after.calls[..|view.calls|] == view.calls
    ensures Pad(testdata, form).Some? ==> after.contentAfter == Pad(testdata, form)
  {
    match Pad(testdata, form)
    case None => view
    case Some(finalString) => PadView(Some(finalString), view.calls + [Configured(form, finalString)])
  }

  // ---------------------------------------------------------------------
  // Properties of the effect
  // ---------------------------------------------------------------------

  /**
   * The callback receives the form state and exactly the string shown;
   * when the guard fails nothing is shown anew and no callback fires.
   */
  lemma EffectReportsWhatItShows(view: PadView, testdata: Option<string>, form: PadFormState)
    ensures Pad(testdata, form).None? ==> Effect(view, testdata, form) == view
    ensures Pad(testdata, form).Some? ==>
      var after := Effect(view, testdata, form);
      && |after.calls| == |view.calls| + 1
      && after.calls[..|view.calls|] == view.calls
      && after.contentAfter == Some(after.calls[|view.calls|].value)
      && after.calls[|view.calls|].state == form
  {
    if Pad(testdata, form).Some? {
      var after := Effect(view, testdata, form);
      assert after.calls[..|view.calls|] == view.calls;
    }
  }

  /**
   * Every recomputation starts from the sample text, not from the previous
   * result: after two successive edits, the second result is the padding of
   * the sample by the second form state, whatever the first edit showed.
   */
  lemma RecomputedFromSample(view: PadView, testdata: Option<string>, first: PadFormState, second: PadFormState)
    requires Pad(testdata, second).Some?
    ensures Effect(Effect(view, testdata, first), testdata, second).contentAfter
            == Some(Part(second.prependValue) + testdata.value + Part(second.appendValue))
  {
    var r := Pad(testdata, second).value;
    assert r == r[..|Part(second.prependValue)|]
              + r[|Part(second.prependValue)|..|Part(second.prependValue)| + |testdata.value|]
              + r[|r| - |Part(second.appendValue)|..];
  }

  /** The three single-edit cases on the sample "hello". */
  lemma HelloExamples()
    ensures Pad(Some("hello"), PadFormState(None, Some("x"))) == Some("xhello")
    ensures Pad(Some("hello"), PadFormState(Some("y"), None)) == Some("helloy")
    ensures Pad(Some("hello"), PadFormState(Some("y"), Some("x"))) == Some("xhelloy")
  {
    assert "x" + "hello" == "xhello";
    assert "hello" + "y" == "helloy";
    assert "x" + "hello" + "y" == "xhelloy";
  }

  /**
   * Typing "x" as prefix, then "y" as suffix: the first call reports
   * "xhello", the second "xhelloy" (not "xxhelloy").
   */
  lemma PrefixThenSuffix()
    ensures var first := Effect(PadView(None, []), Some("hello"), PadFormState(None, Some("x")));
            var second := Effect(first, Some("hello"), PadFormState(Some("y"), Some("x")));
            && second.calls == [Configured(PadFormState(None, Some("x")), "xhello"),
                                Configured(PadFormState(Some("y"), Some("x")), "xhelloy")]
            && second.contentAfter == Some("xhelloy")
  {
    HelloExamples();
  }

  /** With both fields empty or undefined, or an empty sample, nothing is computed. */
  lemma NothingComputed(testdata: Option<string>, form: PadFormState)
    requires (!NonEmpty(form.appendValue) && !NonEmpty(form.prependValue)) || !NonEmpty(testdata)
    ensures forall view :: Effect(view, testdata, form) == view
  {
  }
}
