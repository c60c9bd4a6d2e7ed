/**
 * `extract_text_from_pages` of `main.py`: the text of a range of PDF pages,
 * each followed by a line feed, with blank runs collapsed, runs of three or
 * more line feeds cut to two, and the ends stripped.
 *
 * A document is the sequence of its page texts (what `page.get_text()`
 * returns); indexing follows Python, so page `-1` is the last page.
 */
module PageText {
  import opened Common
  import opened Text
  import opened Regex
  import opened Pages

  /** `[ \t]+` becomes one space, `\n{3,}` becomes two line feeds, then `strip()`. */
  function Normalize(text: string): string {
    Strip(Sub(NewlineRun, Sub(BlankRun, text, " "), "\n\n"))
  }

  /**
   * `extract_text_from_pages`: the page loop, then the normalisation. The
   * callers never pass a start below `-len(doc)`, where Python would raise.
   */
  method ExtractTextFromPages(doc: seq<string>, start: int, end: int) returns (text: string)
    requires -|doc| <= start
    ensures text == Normalize(RawText(doc, start, end))
  {
    var raw := ConcatPages(doc, start, end);
    text := Normalize(raw);
  }

  // ---------------------------------------------------------------------------
  // Properties
  // ---------------------------------------------------------------------------

  /** No two characters of `[ \t]` are adjacent. */
  predicate BlanksCollapsed(s: string) {
    forall k :: 0 <= k < |s| - 1 && IsBlank(s[k]) ==> !IsBlank(s[k + 1])
  }

  /** No three line feeds follow each other. */
  predicate NewlinesCollapsed(s: string) {
    forall k :: 0 <= k < |s| - 2 && s[k] == '\n' && s[k + 1] == '\n' ==> s[k + 2] != '\n'
  }

  /**
   * The normalised text has no tab, no two adjacent blanks, no three line
   * feeds in a row, and no whitespace at either end.
   */
  lemma NormalizeClean(text: string)
    ensures '\t' !in Normalize(text)
    ensures BlanksCollapsed(Normalize(text))
    ensures NewlinesCollapsed(Normalize(text))
    ensures Stripped(Normalize(text))
  {
    var a := Sub(BlankRun, text, " ");
    SubRemoves(BlankRun, text, " ", 0, '\t');
    BlankRunCollapses(text, 0);
    var b := Sub(NewlineRun, a, "\n\n");
    SubKeepsOut(NewlineRun, a, "\n\n", 0, '\t');
    NewlineRunCollapses(a, 0);
    NewlineRunKeepsBlanks(a, 0);
    StripSpec(b);
    assert forall c :: c in Strip(b) ==> c in b;
    CollapsedSlice(b, StripStart(b), StripEnd(b));
  }

  /** `re.sub(r'[ \t]+', ' ', ...)` from `i`: blanks are collapsed, and the output starts with a blank only where the input does. */
  lemma {:induction false} BlankRunCollapses(s: string, i: nat)
    requires i <= |s|
    ensures var out := SubFrom(BlankRun, s, " ", i);
      && BlanksCollapsed(out)
      && (|out| > 0 ==> i < |s| && (IsBlank(out[0]) ==> IsBlank(s[i])))
    decreases |s| - i
  {
    if i < |s| {
      if IsBlank(s[i]) {
        var e := BlanksEnd(s, i);
        assert MatchedAt(BlankRun, s, i) == Some(Match(i, e, []));
        BlankRunCollapses(s, e);
        var rest := SubFrom(BlankRun, s, " ", e);
        assert SubFrom(BlankRun, s, " ", i) == " " + rest;
        assert |rest| > 0 ==> !IsBlank(rest[0]);
      } else {
        assert MatchedAt(BlankRun, s, i) == None;
        BlankRunCollapses(s, i + 1);
        var rest := SubFrom(BlankRun, s, " ", i + 1);
        assert SubFrom(BlankRun, s, " ", i) == [s[i]] + rest;
      }
    }
  }

  /** `re.sub(r'\n{3,}', '\n\n', ...)` from `i` starts with `a[i]`, and with two line feeds only where `a` does. */
  lemma NewlineRunHead(a: string, i: nat)
    requires i <= |a|
    ensures var out := SubFrom(NewlineRun, a, "\n\n", i);
      && (i < |a| ==> |out| > 0 && out[0] == a[i])
      && (|out| >= 2 && out[0] == '\n' && out[1] == '\n' ==> NewlinesEnd(a, i) >= i + 2)
  {
    if i < |a| {
      var e := NewlinesEnd(a, i);
      if e >= i + 3 {
        assert MatchedAt(NewlineRun, a, i) == Some(Match(i, e, []));
      } else {
        assert MatchedAt(NewlineRun, a, i) == None;
        var rest := SubFrom(NewlineRun, a, "\n\n", i + 1);
        assert SubFrom(NewlineRun, a, "\n\n", i) == [a[i]] + rest;
        if i + 1 < |a| {
          if NewlinesEnd(a, i + 1) >= i + 4 {
            assert MatchedAt(NewlineRun, a, i + 1).Some?;
          } else {
            assert MatchedAt(NewlineRun, a, i + 1) == None;
          }
          assert rest[0] == a[i + 1];
        }
      }
    }
  }

  /** `re.sub(r'\n{3,}', '\n\n', ...)` from `i` leaves no three line feeds in a row. */
  lemma {:induction false} NewlineRunCollapses(a: string, i: nat)
    requires i <= |a|
    ensures NewlinesCollapsed(SubFrom(NewlineRun, a, "\n\n", i))
    decreases |a| - i
  {
    if i < |a| {
      var e := NewlinesEnd(a, i);
      if e >= i + 3 {
        assert MatchedAt(NewlineRun, a, i) == Some(Match(i, e, []));
        NewlineRunCollapses(a, e);
        NewlineRunHead(a, e);
        assert SubFrom(NewlineRun, a, "\n\n", i) == "\n\n" + SubFrom(NewlineRun, a, "\n\n", e);
      } else {
        assert MatchedAt(NewlineRun, a, i) == None;
        NewlineRunCollapses(a, i + 1);
        NewlineRunHead(a, i + 1);
        assert SubFrom(NewlineRun, a, "\n\n", i) == [a[i]] + SubFrom(NewlineRun, a, "\n\n", i + 1);
        if a[i] == '\n' {
          assert NewlinesEnd(a, i) == NewlinesEnd(a, i + 1);
        }
      }
    }
  }

  /** `re.sub(r'\n{3,}', '\n\n', ...)` from `i` keeps blanks collapsed. */
  lemma {:induction false} NewlineRunKeepsBlanks(a: string, i: nat)
    requires i <= |a|
    requires BlanksCollapsed(a)
    ensures BlanksCollapsed(SubFrom(NewlineRun, a, "\n\n", i))
    decreases |a| - i
  {
    if i < |a| {
      var e := NewlinesEnd(a, i);
      if e >= i + 3 {
        assert MatchedAt(NewlineRun, a, i) == Some(Match(i, e, []));
        NewlineRunKeepsBlanks(a, e);
        assert SubFrom(NewlineRun, a, "\n\n", i) == "\n\n" + SubFrom(NewlineRun, a, "\n\n", e);
      } else {
        assert MatchedAt(NewlineRun, a, i) == None;
        NewlineRunKeepsBlanks(a, i + 1);
        NewlineRunHead(a, i + 1);
        assert SubFrom(NewlineRun, a, "\n\n", i) == [a[i]] + SubFrom(NewlineRun, a, "\n\n", i + 1);
      }
    }
  }

  /** A slice of collapsed text is collapsed. */
  lemma CollapsedSlice(s: string, lo: nat, hi: nat)
    requires lo <= hi <= |s|
    requires BlanksCollapsed(s) && NewlinesCollapsed(s)
    ensures BlanksCollapsed(s[lo..hi]) && NewlinesCollapsed(s[lo..hi])
  {
    var t := s[lo..hi];
    assert forall k :: 0 <= k < |t| ==> t[k] == s[lo + k];
  }
}
