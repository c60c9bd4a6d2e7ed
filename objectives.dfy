/**
 * `extract_objectives` of `main.py`: the `MISSION OBJECTIVES` section of a
 * scenario, read line by line. A line that is mostly upper-case opens a new
 * subsection; the other lines are its content. When a subsection closes,
 * its content is split into items at the `^` bullets, each item is
 * cleaned, and the items longer than five characters are stored under a
 * key made from the header.
 */
module Objectives {
  import opened Common
  import opened Text
  import opened Regex
  import opened OrderedDict
  import opened HeaderKey

  /** The result: subsection keys to their objective items, in insertion order. */
  type ObjectiveMap = seq<(string, seq<string>)>

  // ---------------------------------------------------------------------------
  // Headers and keys
  // ---------------------------------------------------------------------------

  /**
   * The header test on a stripped line: longer than two characters, at
   * least one upper-case letter, and either no lower-case letter or more
   * than 80% upper-case letters among the letters (`u / (u + l) > 0.8`,
   * written without division).
   */
  predicate IsHeader(line: string) {
    var u, l := CountUpper(line), CountLower(line);
    |line| > 2 && u > 0 && (l == 0 || 5 * u > 4 * (u + l))
  }

  /** A lower-cased string has no upper-case letter. */
  lemma {:induction false} CountUpperLower(s: string)
    ensures CountUpper(Lower(s)) == 0
  {
    if |s| > 0 {
      CountUpperLower(s[1..]);
      assert Lower(s)[1..] == Lower(s[1..]);
    }
  }

  /** A line written in lower case never opens a subsection. */
  lemma LowerNotHeader(line: string)
    ensures !IsHeader(Lower(line))
  {
    CountUpperLower(line);
  }

  // ---------------------------------------------------------------------------
  // Items
  // ---------------------------------------------------------------------------

  /** The clean-up of one piece: strip, drop a leading `^`, join broken lines, collapse whitespace runs. */
  function CleanItem(piece: string): string {
    CollapseSpaces(JoinBrokenLines(Sub(LeadingCaret, Strip(piece), "")))
  }

  /** Each piece cleaned. */
  function Cleaned(pieces: seq<string>): (r: seq<string>)
    ensures |r| == |pieces|
  {
    seq(|pieces|, i requires 0 <= i < |pieces| => CleanItem(pieces[i]))
  }

  /** The strings longer than five characters, in order (`if item and len(item) > 5`). */
  function KeepLong(xs: seq<string>): seq<string> {
    if |xs| == 0 then []
    else KeepLong(xs[..|xs| - 1]) + (if |xs[|xs| - 1]| > 5 then [xs[|xs| - 1]] else [])
  }

  /** The items of a subsection: its content lines joined, split at the `^` bullets, cleaned, and the long ones kept. */
  function Items(content: seq<string>): seq<string> {
    KeepLong(Cleaned(SplitBy(CaretBreak, Join(content, "\n"))))
  }

  /** `re.sub(r'^\^\s*', '', x)` drops a leading caret and the whitespace after it, and nothing else. */
  lemma LeadingCaretSub(x: string)
    ensures Sub(LeadingCaret, x, "") == if |x| > 0 && x[0] == '^' then x[SkipSpaces(x, 1)..] else x
  {
    if |x| > 0 && x[0] == '^' {
      var e := SkipSpaces(x, 1);
      assert MatchedAt(LeadingCaret, x, 0) == Some(Match(0, e, []));
      forall k | e <= k < |x|
        ensures MatchedAt(LeadingCaret, x, k).None?
      {
      }
      SubFromNoMatch(LeadingCaret, x, "", e);
    } else {
      forall k | 0 <= k < |x|
        ensures MatchedAt(LeadingCaret, x, k).None?
      {
      }
      SubFromNoMatch(LeadingCaret, x, "", 0);
      assert x[0..] == x;
    }
  }

  /** A kept item: longer than five characters, no whitespace at either end, single spaces only, one line. */
  predicate GoodItem(item: string) {
    |item| > 5 && Stripped(item) && SingleSpaced(item) && '\n' !in item
  }

  /** A cleaned piece has no whitespace at either end, single spaces only and no line break. */
  lemma CleanItemShape(piece: string)
    ensures Stripped(CleanItem(piece)) && SingleSpaced(CleanItem(piece)) && '\n' !in CleanItem(piece)
  {
    var x := Strip(piece);
    StripSpec(piece);
    var y := Sub(LeadingCaret, x, "");
    LeadingCaretSub(x);
    if |x| > 0 && x[0] == '^' {
      SkipSpacesSpec(x, 1);
    }
    assert Stripped(y);
    var z := JoinBrokenLines(y);
    assert Stripped(z);
    SingleSpacedNoNewline(CleanItem(piece));
  }

  /** A string is kept exactly when it is one of the candidates and longer than five characters. */
  lemma {:induction false} KeepLongSpec(xs: seq<string>)
    ensures forall x :: x in KeepLong(xs) <==> x in xs && |x| > 5
    decreases |xs|
  {
    if |xs| > 0 {
      var n := |xs| - 1;
      KeepLongSpec(xs[..n]);
      assert xs == xs[..n] + [xs[n]];
    }
  }

  /** Every kept item is a good one. */
  lemma ItemsGood(content: seq<string>)
    ensures forall item :: item in Items(content) ==> GoodItem(item)
  {
    var pieces := SplitBy(CaretBreak, Join(content, "\n"));
    KeepLongSpec(Cleaned(pieces));
    forall item | item in Items(content)
      ensures GoodItem(item)
    {
      var i :| 0 <= i < |pieces| && item == Cleaned(pieces)[i];
      CleanItemShape(pieces[i]);
    }
  }

  // ---------------------------------------------------------------------------
  // The line loop
  // ---------------------------------------------------------------------------

  /** The loop state: the open subsection's header, its content lines so far, and the result so far. */
  datatype State = State(section: Option<string>, content: seq<string>, objectives: ObjectiveMap)

  /** Before the first line: no subsection open, nothing stored. */
  const Start: State := State(None, [], [])

  /**
   * Closing the open subsection: when there is one with content and at
   * least one item survives, its items are stored under its key,
   * replacing an earlier subsection with the same key.
   */
  function Flush(st: State): ObjectiveMap {
    if st.section.Some? && |st.content| > 0 && |Items(st.content)| > 0 then
      Put(st.objectives, SectionKey(st.section.value), Items(st.content))
    else st.objectives
  }

  /** One line: blank lines are skipped, a header closes the open subsection and opens its own, other lines join the open subsection. */
  function Step(st: State, line: string): State {
    var t := Strip(line);
    if |t| == 0 then st
    else if IsHeader(t) then State(Some(t), [], Flush(st))
    else if st.section.Some? then st.(content := st.content + [t])
    else st
  }

  /** The state after the lines, one `Step` each. */
  function Run(st: State, lines: seq<string>): State {
    if |lines| == 0 then st else Step(Run(st, lines[..|lines| - 1]), lines[|lines| - 1])
  }

  lemma RunNext(st: State, lines: seq<string>, k: nat)
    requires k < |lines|
    ensures Run(st, lines[..k + 1]) == Step(Run(st, lines[..k]), lines[k])
  {
    assert lines[..k + 1][..k] == lines[..k];
  }

  lemma ObjectivesShape(s: string, m: Match)
    requires Found(ObjectivesSection, s, m)
    ensures |m.groups| == 1 && m.groups[0].lo <= m.groups[0].hi <= |s|
  {
    assert m.groups[0] in m.groups;
  }

  /** `extract_objectives`: the subsections of the section, or none when the section is missing. */
  function ObjectivesOf(text: string): ObjectiveMap {
    match Search(ObjectivesSection, text)
    case None => []
    case Some(m) =>
      ObjectivesShape(text, m);
      Flush(Run(Start, Split(Group(text, m.groups[0]), '\n')))
  }

  /** The item loop of a subsection. */
  method CollectItems(content: seq<string>) returns (items: seq<string>)
    ensures items == Items(content)
  {
    var pieces := SplitBy(CaretBreak, Join(content, "\n"));
    ghost var cleaned := Cleaned(pieces);
    items := [];
    for k := 0 to |pieces|
      invariant items == KeepLong(cleaned[..k])
    {
      var item := Strip(pieces[k]);
      item := Sub(LeadingCaret, item, "");
      item := JoinBrokenLines(item);
      item := CollapseSpaces(item);
      assert item == cleaned[k];
      if |item| > 5 {
        items := items + [item];
      }
      assert cleaned[..k + 1][..k] == cleaned[..k];
    }
    assert cleaned[..|pieces|] == cleaned;
  }

  /** Closing the open subsection, as done after each header and after the last line. */
  method FlushSection(section: Option<string>, content: seq<string>, objectives: ObjectiveMap) returns (r: ObjectiveMap)
    ensures r == Flush(State(section, content, objectives))
  {
    r := objectives;
    if section.Some? && |content| > 0 {
      var items := CollectItems(content);
      if |items| > 0 {
        r := Put(objectives, SectionKey(section.value), items);
      }
    }
  }

  /** `extract_objectives`, line by line. */
  method ExtractObjectives(text: string) returns (objectives: ObjectiveMap)
    ensures objectives == ObjectivesOf(text)
  {
    objectives := [];
    var m := Search(ObjectivesSection, text);
    if m.None? {
      return;
    }
    ObjectivesShape(text, m.value);
    var lines := Split(Group(text, m.value.groups[0]), '\n');
    var section: Option<string> := None;
    var content: seq<string> := [];
    for k := 0 to |lines|
      invariant State(section, content, objectives) == Run(Start, lines[..k])
    {
      var t := Strip(lines[k]);
      if |t| > 0 {
        if IsHeader(t) {
          objectives := FlushSection(section, content, objectives);
          section := Some(t);
          content := [];
        } else if section.Some? {
          content := content + [t];
        }
      }
      RunNext(Start, lines, k);
    }
    assert lines[..|lines|] == lines;
    objectives := FlushSection(section, content, objectives);
  }

  // ---------------------------------------------------------------------------
  // Properties
  // ---------------------------------------------------------------------------

  /** Every key has the key shape and occurs once; every subsection stored has at least one item, and every item is a good one. */
  predicate WellFormed(d: ObjectiveMap) {
    && DistinctKeys(d)
    && forall p :: p in d ==>
         KeyShape(p.0) && |p.1| > 0 && forall item :: item in p.1 ==> GoodItem(item)
  }

  lemma FlushWellFormed(st: State)
    requires WellFormed(st.objectives)
    ensures WellFormed(Flush(st))
  {
    if st.section.Some? && |st.content| > 0 && |Items(st.content)| > 0 {
      var key := SectionKey(st.section.value);
      PutDistinct(st.objectives, key, Items(st.content));
      PutPairs(st.objectives, key, Items(st.content));
      SectionKeyShape(st.section.value);
      ItemsGood(st.content);
    }
  }

  lemma {:induction false} RunWellFormed(st: State, lines: seq<string>)
    requires WellFormed(st.objectives)
    ensures WellFormed(Run(st, lines).objectives)
    decreases |lines|
  {
    if |lines| > 0 {
      var before := Run(st, lines[..|lines| - 1]);
      RunWellFormed(st, lines[..|lines| - 1]);
      FlushWellFormed(before);
    }
  }

  /** The objectives of any text are well formed. */
  lemma ObjectivesWellFormed(text: string)
    ensures WellFormed(ObjectivesOf(text))
  {
    match Search(ObjectivesSection, text)
    case None =>
    case Some(m) =>
      ObjectivesShape(text, m);
      var st := Run(Start, Split(Group(text, m.groups[0]), '\n'));
      RunWellFormed(Start, Split(Group(text, m.groups[0]), '\n'));
      FlushWellFormed(st);
  }

  /**
   * Closing a subsection stores its items under its key, replacing what an
   * earlier subsection with the same key stored; every other key keeps its
   * items, and a subsection without a surviving item stores nothing.
   */
  lemma FlushGet(st: State, key: string)
    ensures Get(Flush(st), key) ==
              if st.section.Some? && |st.content| > 0 && |Items(st.content)| > 0 && key == SectionKey(st.section.value)
              then Some(Items(st.content))
              else Get(st.objectives, key)
  {
    if st.section.Some? && |st.content| > 0 && |Items(st.content)| > 0 {
      PutGet(st.objectives, SectionKey(st.section.value), Items(st.content), key);
    }
  }

  /** Running two stretches of lines is running the second from where the first left off. */
  lemma {:induction false} RunAppend(st: State, a: seq<string>, b: seq<string>)
    ensures Run(st, a + b) == Run(Run(st, a), b)
    decreases |b|
  {
    if |b| == 0 {
      assert a + b == a;
    } else {
      RunAppend(st, a, b[..|b| - 1]);
      assert (a + b)[..|a + b| - 1] == a + b[..|b| - 1];
    }
  }

  /** Lines before the first header leave the loop where it started. */
  lemma {:induction false} RunPreamble(pre: seq<string>)
    requires forall line :: line in pre ==> !IsHeader(Strip(line))
    ensures Run(Start, pre) == Start
    decreases |pre|
  {
    if |pre| > 0 {
      RunPreamble(pre[..|pre| - 1]);
      assert pre[|pre| - 1] in pre;
    }
  }

  /** Lines before the first header are discarded: they change nothing in the result. */
  lemma PreambleIgnored(pre: seq<string>, rest: seq<string>)
    requires forall line :: line in pre ==> !IsHeader(Strip(line))
    ensures Flush(Run(Start, pre + rest)) == Flush(Run(Start, rest))
  {
    RunAppend(Start, pre, rest);
    RunPreamble(pre);
  }
}
