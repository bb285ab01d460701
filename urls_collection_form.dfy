/**
 * The "add URLs collection" form (`URLsListForm`,
 * frontend/src/components/Spider/URLsCollection.tsx).
 *
 * On submit, `onCheck` splits the text area into lines with the regular
 * expression `/\r?\n/`, checks every line with `isURL` (stopping at the first
 * failure, which turns the field's status to "error"), and sends the
 * collection to the backend only when every line is a URL and the name is
 * non-empty. `isURL` is the validator package's function, left
 * uninterpreted: it is a constant of the form.
 */
module URLsCollectionForm {
  import opened Wrappers
  import opened SpiderInterfaces

  // ---------------------------------------------------------------------
  // `split(/\r?\n/)`
  // ---------------------------------------------------------------------

  /**
   * The lines of `s`: a line ends at "\n" or at "\r\n"; a "\r" not followed
   * by "\n" stays in its line. The empty text is one empty line.
   */
  function SplitLines(s: string): (lines: seq<string>)
    ensures |lines| >= 1
    ensures forall i :: 0 <= i < |lines| ==> '\n' !in lines[i]
    decreases |s|
  {
    if s == [] then [""]
    else if s[0] == '\n' then [""] + SplitLines(s[1..])
    else if |s| >= 2 && s[0] == '\r' && s[1] == '\n' then [""] + SplitLines(s[2..])
    else
      var rest := SplitLines(s[1..]);
      [[s[0]] + rest[0]] + rest[1..]
  }

  /** The lines joined back with `sep` between consecutive lines. */
  function Join(lines: seq<string>, sep: string): string
    requires |lines| >= 1
  {
    if |lines| == 1 then lines[0] else lines[0] + sep + Join(lines[1..], sep)
  }

  /** A line that holds no line break. */
  predicate NoBreak(line: string) {
    '\n' !in line && '\r' !in line
  }

  /** A line without breaks followed by a separator is split off whole. */
  lemma {:induction false} SplitAfterLine(line: string, sep: string, rest: string)
    requires NoBreak(line) && (sep == "\n" || sep == "\r\n")
    ensures SplitLines(line + sep + rest) == [line] + SplitLines(rest)
    decreases |line|
  {
    var s := line + sep + rest;
    if line == [] {
      if sep == "\n" {
        assert s[1..] == rest;
      } else {
        assert s[2..] == rest;
      }
    } else {
      assert s[0] == line[0] && s[1..] == line[1..] + sep + rest;
      SplitAfterLine(line[1..], sep, rest);
      assert [line[0]] + line[1..] == line;
    }
  }

  /** A text without breaks is one line. */
  lemma {:induction false} SplitSingleLine(line: string)
    requires NoBreak(line)
    ensures SplitLines(line) == [line]
    decreases |line|
  {
    if line != [] {
      SplitSingleLine(line[1..]);
      assert [line[0]] + line[1..] == line;
    }
  }

  /** Splitting undoes joining, with either separator the regular expression accepts. */
  lemma {:induction false} SplitJoin(lines: seq<string>, sep: string)
    requires |lines| >= 1 && (sep == "\n" || sep == "\r\n")
    requires forall i :: 0 <= i < |lines| ==> NoBreak(lines[i])
    ensures SplitLines(Join(lines, sep)) == lines
  {
    if |lines| == 1 {
      SplitSingleLine(lines[0]);
    } else {
      SplitAfterLine(lines[0], sep, Join(lines[1..], sep));
      SplitJoin(lines[1..], sep);
      assert [lines[0]] + lines[1..] == lines;
    }
  }

  /** Joining with "\n" undoes splitting a text that holds no "\r". */
  lemma {:induction false} JoinSplit(s: string)
    requires '\r' !in s
    ensures Join(SplitLines(s), "\n") == s
    decreases |s|
  {
    if s == [] {
    } else if s[0] == '\n' {
      JoinSplit(s[1..]);
      var lines := SplitLines(s);
      assert lines[1..] == SplitLines(s[1..]);
      assert s == "\n" + s[1..];
    } else {
      JoinSplit(s[1..]);
      var rest := SplitLines(s[1..]);
      var lines := SplitLines(s);
      assert lines == [[s[0]] + rest[0]] + rest[1..];
      if |rest| > 1 {
        assert lines[1..] == rest[1..];
      }
      assert s == [s[0]] + s[1..];
    }
  }

  /** There is one line more than there are "\n" characters. */
  lemma {:induction false} LineCount(s: string)
    ensures |SplitLines(s)| == multiset(s)['\n'] + 1
    decreases |s|
  {
    if s != [] {
      assert s == [s[0]] + s[1..];
      if s[0] == '\n' {
        LineCount(s[1..]);
      } else if |s| >= 2 && s[0] == '\r' && s[1] == '\n' {
        LineCount(s[2..]);
        assert s[1..] == [s[1]] + s[2..];
      } else {
        LineCount(s[1..]);
      }
    }
  }

  /** A trailing newline adds an empty last line, which is checked like any other. */
  lemma TrailingNewline(line: string)
    requires NoBreak(line)
    ensures SplitLines(line + "\n") == [line, ""]
  {
    SplitAfterLine(line, "\n", "");
    assert line + "\n" + "" == line + "\n";
  }

  // ---------------------------------------------------------------------
  // The form
  // ---------------------------------------------------------------------

  /** The `validateStatus` values of the URL field; `onCheck` only ever sets "error". */
  datatype ListStatus = StatusSuccess | StatusWarning | StatusError

  /** The `{ name, urlsList }` object sent with `createUrlsCollection`. */
  datatype CollectionDto = CollectionDto(name: string, urlsList: seq<string>)

  /** One call of `createUrlsCollection(localSpider, dto)`. */
  datatype Submission = Submission(spider: Spider, dto: CollectionDto)

  /** Every line passes `isUrl`. */
  predicate AllUrls(lines: seq<string>, isUrl: string -> bool) {
    forall i :: 0 <= i < |lines| ==> isUrl(lines[i])
  }

  class URLsListForm {
    const isUrl: string -> bool
    var listStatus: Option<ListStatus>
    var submissions: seq<Submission>

    /** Every collection sent has a non-empty name and only URLs. */
    ghost predicate Valid()
      reads this
    {
      forall i :: 0 <= i < |submissions| ==>
        |submissions[i].dto.name| > 0 && AllUrls(submissions[i].dto.urlsList, isUrl)
    }

    constructor (isUrl: string -> bool)
      ensures this.isUrl == isUrl && listStatus.None? && submissions == [] && Valid()
    {
      this.isUrl := isUrl;
      listStatus := None;
      submissions := [];
    }

    /**
     * `onCheck`. `urlsField` and `collectionName` are the form's field
     * values, undefined while the field was never filled. The "error"
     * status is set by the first line that is not a URL and is never reset.
     */
    method OnCheck(urlsField: Option<string>, collectionName: Option<string>, localSpider: Spider)
      requires Valid()
      modifies this
      ensures Valid()
      ensures urlsField.None? ==> listStatus == old(listStatus) && submissions == old(submissions)
      ensures urlsField.Some? ==>
        var lines := SplitLines(urlsField.value);
        && listStatus == (if AllUrls(lines, isUrl) then old(listStatus) else Some(StatusError))
        && submissions == old(submissions) +
             (if AllUrls(lines, isUrl) && NonEmpty(collectionName)
              then [Submission(localSpider, CollectionDto(collectionName.value, lines))] else [])
    {
      if urlsField.Some? {
        var urlsList := SplitLines(urlsField.value);
        // `urlsList.every(...)`
        var formValid := true;
        var i := 0;
        while i < |urlsList| && formValid
          invariant 0 <= i <= |urlsList|
          invariant formValid <==> AllUrls(urlsList[..i], isUrl)
          invariant formValid ==> listStatus == old(listStatus)
          invariant !formValid ==> listStatus == Some(StatusError)
          invariant submissions == old(submissions)
        {
          if !isUrl(urlsList[i]) {
            listStatus := Some(StatusError);
            formValid := false;
          }
          assert urlsList[..i + 1] == urlsList[..i] + [urlsList[i]];
          i := i + 1;
        }
        assert formValid ==> urlsList[..i] == urlsList;
        assert !formValid ==> !AllUrls(urlsList, isUrl) by {
          if !formValid {
            var j :| 0 <= j < i && !isUrl(urlsList[..i][j]);
            assert urlsList[j] == urlsList[..i][j];
          }
        }
        if !NonEmpty(collectionName) {
          formValid := false;
        }
        if formValid {
          var dto := CollectionDto(collectionName.value, urlsList);
          submissions := submissions + [Submission(localSpider, dto)];
        }
      }
    }
  }

  /** A single URL per line, typed on Windows or not, is sent as the same list. */
  lemma SameListEitherLineEnding(lines: seq<string>)
    requires |lines| >= 1 && forall i :: 0 <= i < |lines| ==> NoBreak(lines[i])
    ensures SplitLines(Join(lines, "\n")) == SplitLines(Join(lines, "\r\n")) == lines
  {
    SplitJoin(lines, "\n");
    SplitJoin(lines, "\r\n");
  }
}
