/**
 * The replace sweeper's preview computation
 * (frontend/src/components/Data/DataSweeper/ReplaceCharSweeper.tsx).
 *
 * The effect computes `testdata.replace(replacedValue, replacedByValue)`:
 * with a string pattern, JavaScript's `String.prototype.replace` replaces
 * only the FIRST occurrence (ECMAScript 2022, section 22.1.3.18). The
 * replacement is taken literally here; JavaScript's expansion of `$`
 * sequences in it is not modelled.
 */
module ReplaceCharSweeper {
  import opened Wrappers

  /** `ReplaceFormState`: the two watched form fields. */
  datatype ReplaceFormState = ReplaceFormState(replacedValue: Option<string>, replacedByValue: Option<string>)

  /** `pat` occurs in `s` starting at index `i`. */
  predicate OccursAt(s: string, pat: string, i: int) {
    0 <= i && i + |pat| <= |s| && s[i..i + |pat|] == pat
  }

  /** `s.indexOf(pat)`: the first index where `pat` occurs, `None` for -1. */
  function IndexOf(s: string, pat: string): (r: Option<nat>)
    ensures r.Some? ==> OccursAt(s, pat, r.value)
    ensures r.Some? ==> forall j :: 0 <= j < r.value ==> !OccursAt(s, pat, j)
    ensures r.None? ==> forall j :: !OccursAt(s, pat, j)
    decreases |s|
  {
    if |pat| > |s| then None
    else if s[..|pat|] == pat then Some(0)
    else
      assert !OccursAt(s, pat, 0);
      match IndexOf(s[1..], pat)
      case None =>
        assert forall j :: 0 < j ==> !OccursAt(s, pat, j) by {
          forall j | 0 < j ensures !OccursAt(s, pat, j) {
            OccursShift(s, pat, j);
          }
        }
        None
      case Some(i) =>
        OccursShift(s, pat, i + 1);
        assert forall j :: 0 < j <= i ==> !OccursAt(s, pat, j) by {
          forall j | 0 < j <= i ensures !OccursAt(s, pat, j) {
            OccursShift(s, pat, j);
          }
        }
        Some(i + 1)
  }

  /** An occurrence at `j > 0` is an occurrence at `j - 1` in the tail. */
  lemma OccursShift(s: string, pat: string, j: int)
    requires 0 < j && |s| > 0
    ensures OccursAt(s, pat, j) <==> OccursAt(s[1..], pat, j - 1)
  {
    if j + |pat| <= |s| {
      assert s[1..][j - 1..j - 1 + |pat|] == s[j..j + |pat|];
    }
  }

  /** `s.replace(pat, rep)` for a string pattern. */
  function ReplaceFirst(s: string, pat: string, rep: string): (r: string)
    ensures IndexOf(s, pat).None? ==> r == s
    ensures IndexOf(s, pat).Some? ==>
      var i := IndexOf(s, pat).value;
      && |r| == |s| - |pat| + |rep|
      && r[..i] == s[..i]
      && r[i..i + |rep|] == rep
      && r[i + |rep|..] == s[i + |pat|..]
  {
    match IndexOf(s, pat)
    case None => s
    case Some(i) => s[..i] + rep + s[i + |pat|..]
  }

  /** The `finalString` the effect computes, or `None` when its guard fails. */
  function Replace(testdata: Option<string>, form: ReplaceFormState): (r: Option<string>)
    ensures r.Some? <==> NonEmpty(form.replacedValue) && NonEmpty(form.replacedByValue) && NonEmpty(testdata)
  {
    if NonEmpty(form.replacedValue) && NonEmpty(form.replacedByValue) && NonEmpty(testdata) then
      Some(ReplaceFirst(testdata.value, form.replacedValue.value, form.replacedByValue.value))
    else
      None
  }

  /** One call of `onConfigured(state, value)`. */
  datatype Configured = Configured(state: ReplaceFormState, value: string)

  /** What the component shows (`contentAfter`) and the calls `onConfigured` has received. */
  datatype ReplaceView = ReplaceView(contentAfter: Option<string>, calls: seq<Configured>)

  /** One run of the effect: `setContentAfter(finalString)`, then `onConfigured`. */
  function Effect(view: ReplaceView, testdata: Option<string>, form: ReplaceFormState): (after: ReplaceView)
    ensures |view.calls| <= |after.calls| <= |view.calls| + 1
    ensures after.calls[..|view.calls|] == view.calls
    ensures Replace(testdata, form).Some? ==> after.contentAfter == Replace(testdata, form)
  {
    match Replace(testdata, form)
    case None => view
    case Some(finalString) => ReplaceView(Some(finalString), view.calls + [Configured(form, finalString)])
  }

  // ---------------------------------------------------------------------
  // Properties of the replacement
  // ---------------------------------------------------------------------

  /** Without an occurrence of the pattern the text is returned unchanged. */
  lemma NotFoundUnchanged(s: string, pat: string, rep: string)
    requires forall j :: !OccursAt(s, pat, j)
    ensures ReplaceFirst(s, pat, rep) == s
  {
  }

  /**
   * With a first occurrence at `i`, the text before it and after it is kept,
   * the occurrence becomes `rep`, and the length changes by |rep| - |pat|.
   */
  lemma {:induction false} ReplacesFirstOccurrence(s: string, pat: string, rep: string, i: nat)
    requires OccursAt(s, pat, i) && forall j :: 0 <= j < i ==> !OccursAt(s, pat, j)
    ensures var r := ReplaceFirst(s, pat, rep);
      && |r| == |s| - |pat| + |rep|
      && r[..i] == s[..i]
      && r[i..i + |rep|] == rep
      && r[i + |rep|..] == s[i + |pat|..]
  {
    var k := IndexOf(s, pat);
    assert k == Some(i);
    var r := s[..i] + rep + s[i + |pat|..];
    assert r[..i] == s[..i];
    assert r[i..i + |rep|] == rep;
    assert r[i + |rep|..] == s[i + |pat|..];
  }

  /**
   * Replacing back restores the text when `rep` first occurs where it was
   * put: replace is undone by the opposite replace.
   */
  lemma {:induction false} ReplaceBack(s: string, pat: string, rep: string, i: nat)
    requires IndexOf(s, pat) == Some(i)
    requires IndexOf(ReplaceFirst(s, pat, rep), rep) == Some(i)
    ensures ReplaceFirst(ReplaceFirst(s, pat, rep), rep, pat) == s
  {
    var r := ReplaceFirst(s, pat, rep);
    ReplacesFirstOccurrence(s, pat, rep, i);
    assert r[..i] + pat + r[i + |rep|..] == s[..i] + pat + s[i + |pat|..];
    assert s == s[..i] + s[i..i + |pat|] + s[i + |pat|..];
  }

  /** An empty replacement computes nothing, so the sweeper cannot delete text. */
  lemma NoDeletion(testdata: Option<string>, pat: Option<string>)
    ensures Replace(testdata, ReplaceFormState(pat, Some(""))).None?
    ensures Replace(testdata, ReplaceFormState(pat, None)).None?
  {
  }

  /** The callback receives the form state and exactly the string shown. */
  lemma EffectReportsWhatItShows(view: ReplaceView, testdata: Option<string>, form: ReplaceFormState)
    ensures Replace(testdata, form).None? ==> Effect(view, testdata, form) == view
    ensures Replace(testdata, form).Some? ==>
      var after := Effect(view, testdata, form);
      && |after.calls| == |view.calls| + 1
      && after.calls[..|view.calls|] == view.calls
      && after.contentAfter == Some(after.calls[|view.calls|].value)
      && after.calls[|view.calls|].state == form
  {
    if Replace(testdata, form).Some? {
      var after := Effect(view, testdata, form);
      assert after.calls[..|view.calls|] == view.calls;
    }
  }

  /** Only the first of two occurrences is replaced: "1,5,0" becomes "1.5,0". */
  lemma OnlyFirstReplaced()
    ensures ReplaceFirst("1,5,0", ",", ".") == "1.5,0"
  {
    assert OccursAt("1,5,0", ",", 1);
    assert "1,5,0"[0..1] == "1";
    ReplacesFirstOccurrence("1,5,0", ",", ".", 1);
    assert "1,5,0"[..1] + "." + "1,5,0"[2..] == "1.5,0";
  }
}
