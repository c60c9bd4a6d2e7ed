/**
 * `extract_deployment` of `main.py`: the `FORCES AND DEPLOYMENT` section of
 * a scenario. The rows of its army-points table (`A and B`, army points,
 * SWC, table size, deployment zone) and its special notes (sentences
 * starting `It is (not) allowed/permitted` or `Exclusion Zone`). Without
 * the section the result is the default record with no row and no note.
 */
module Deployment {
  import opened Common
  import opened Text
  import opened Regex

  /** One row of the army-points table. */
  datatype Row = Row(armyPoints: nat, swc: nat, tableSize: string, deploymentZone: string)

  /** The `deployment` dict: its `sides` label, its table and its special notes. */
  datatype Deployment = Deployment(sides: string, deploymentTable: seq<Row>, specialNotes: seq<string>)

  /** The `sides` label, the same for every scenario. */
  const Sides: string := "SIDE A and SIDE B"

  /** The record for a scenario without the section. */
  const Default: Deployment := Deployment(Sides, [], [])

  lemma SectionShape(s: string, m: Match)
    requires Found(DeploymentSection, s, m)
    ensures |m.groups| == 1 && m.groups[0].lo <= m.groups[0].hi <= |s|
  {
    assert m.groups[0] in m.groups;
  }

  // ---------------------------------------------------------------------------
  // Table rows
  // ---------------------------------------------------------------------------

  /** Neither end of the text `[lo, hi)` of `s` is whitespace, and it is not empty. */
  predicate Trimmed(s: string, lo: nat, hi: nat)
    requires lo <= hi <= |s|
  {
    lo < hi && !IsSpace(s[lo]) && !IsSpace(s[hi - 1])
  }

  /**
   * What a row match captures: four groups, the army points a run of three
   * or four digits, the SWC a run of digits, and the table size and the
   * deployment zone texts with no whitespace at either end.
   */
  predicate RowShape(s: string, m: Match) {
    && |m.groups| == 4
    && (forall g :: g in m.groups ==> g.lo <= g.hi <= |s|)
    && m.groups[0].lo + 3 <= m.groups[0].hi <= m.groups[0].lo + 4
    && AllDigits(Group(s, m.groups[0]))
    && m.groups[1].lo < m.groups[1].hi
    && AllDigits(Group(s, m.groups[1]))
    && Trimmed(s, m.groups[2].lo, m.groups[2].hi)
    && Trimmed(s, m.groups[3].lo, m.groups[3].hi)
  }

  /** `\d+\s+in\s+x\s+\d+\s+in` starts with a digit and ends with the `n` of `in`. */
  lemma SizeTrimmed(s: string, k: nat)
    requires k <= |s| && SizeEnd(s, k).Some?
    ensures Trimmed(s, k, SizeEnd(s, k).value)
  {
    var a := Digits1(s, k).value;
    var b := SpacedWord(s, a, "in").value;
    var c := SpacedWord(s, b, "x").value;
    var d0 := Spaces1(s, c).value;
    var d := Digits1(s, d0).value;
    var m := Spaces1(s, d).value;
    AtCINonSpace(s, m, "in", 1);
  }

  /** `Radius of\s+\d+\s+in` starts with `R` and ends with the `n` of `in`. */
  lemma RadiusTrimmed(s: string, k: nat)
    requires k <= |s| && RadiusEnd(s, k).Some?
    ensures Trimmed(s, k, RadiusEnd(s, k).value)
  {
    AtCINonSpace(s, k, "radius of", 0);
    var d0 := Spaces1(s, k + 9).value;
    var d := Digits1(s, d0).value;
    var m := Spaces1(s, d).value;
    AtCINonSpace(s, m, "in", 1);
  }

  lemma ZoneTrimmed(s: string, k: nat)
    requires k <= |s| && ZoneEnd(s, k).Some?
    ensures Trimmed(s, k, ZoneEnd(s, k).value)
  {
    if SizeEnd(s, k).Some? {
      SizeTrimmed(s, k);
    } else {
      RadiusTrimmed(s, k);
    }
  }

  /** After army points of three or four digits: the SWC digits, then the table size and the zone, each unpadded. */
  lemma RowTailShape(s: string, i: nat, points: Span, w0: nat)
    requires i <= points.lo <= points.hi < w0 <= |s|
    requires points.lo + 3 <= points.hi <= points.lo + 4 && AllDigits(Group(s, points))
    requires RowTail(s, i, points, w0).Some?
    ensures RowShape(s, RowTail(s, i, points, w0).value)
  {
    var w := Digits1(s, w0).value;
    DigitsEndSpec(s, w0);
    var t0 := Spaces1(s, w).value;
    SizeTrimmed(s, t0);
    var t := SizeEnd(s, t0).value;
    var z0 := Spaces1(s, t).value;
    ZoneTrimmed(s, z0);
    var z := ZoneEnd(s, z0).value;
    var m := RowTail(s, i, points, w0).value;
    assert m.groups == [points, Span(w0, w), Span(t0, t), Span(z0, z)];
  }

  lemma RowAtShape(s: string, i: nat)
    requires i <= |s| && DeploymentRowAt(s, i).Some?
    ensures RowShape(s, DeploymentRowAt(s, i).value)
  {
    var k := WordsEnd(s, i, ["a", "and", "b"]).value;
    var p0 := Spaces1(s, k).value;
    var p := DigitsEnd(s, p0);
    DigitsEndSpec(s, p0);
    var w0 := Spaces1(s, p).value;
    assert DeploymentRowAt(s, i) == RowTail(s, i, Span(p0, p), w0);
    RowTailShape(s, i, Span(p0, p), w0);
  }

  lemma RowMatchShape(s: string, m: Match)
    requires Found(DeploymentRow, s, m)
    ensures RowShape(s, m)
  {
    assert DeploymentRowAt(s, m.start) == Some(m);
    RowAtShape(s, m.start);
  }

  /** Every row match of `s`, left to right. */
  function RowMatches(s: string): (ms: seq<Match>)
    ensures forall m :: m in ms ==> RowShape(s, m)
  {
    var ms := FindAll(DeploymentRow, s, 0);
    FindAllSpec(DeploymentRow, s, 0);
    forall m | m in ms
      ensures RowShape(s, m)
    {
      RowMatchShape(s, m);
    }
    ms
  }

  /** The row a match stands for: `int` of the two numbers, the two texts stripped. */
  function RowOf(s: string, m: Match): Row
    requires RowShape(s, m)
  {
    Row(DigitsValue(Group(s, m.groups[0])), DigitsValue(Group(s, m.groups[1])),
        Strip(Group(s, m.groups[2])), Strip(Group(s, m.groups[3])))
  }

  /** The rows of the matches, in order. */
  function Rows(s: string, ms: seq<Match>): seq<Row>
    requires forall m :: m in ms ==> RowShape(s, m)
  {
    if |ms| == 0 then [] else Rows(s, ms[..|ms| - 1]) + [RowOf(s, ms[|ms| - 1])]
  }

  lemma RowsNext(s: string, ms: seq<Match>, k: nat)
    requires k < |ms|
    requires forall m :: m in ms ==> RowShape(s, m)
    ensures Rows(s, ms[..k + 1]) == Rows(s, ms[..k]) + [RowOf(s, ms[k])]
  {
    assert ms[..k + 1][..k] == ms[..k];
  }

  // ---------------------------------------------------------------------------
  // Special notes
  // ---------------------------------------------------------------------------

  /** What a note match captures: one group, its whole text, ending with its full stop. */
  predicate NoteShape(s: string, m: Match) {
    && |m.groups| == 1
    && m.groups[0].lo < m.groups[0].hi <= |s|
    && !IsSpace(s[m.groups[0].lo])
    && s[m.groups[0].hi - 1] == '.'
  }

  lemma NoteAtShape(s: string, i: nat)
    requires i <= |s| && DeploymentNoteAt(s, i).Some?
    ensures NoteShape(s, DeploymentNoteAt(s, i).value)
  {
    if PermissionNoteAt(s, i).Some? {
      AtCINonSpace(s, i, "it", 0);
      assert DeploymentNoteAt(s, i).value.groups == [Span(i, PermissionNoteAt(s, i).value)];
    } else {
      AtCINonSpace(s, i, "exclusion", 0);
      var v := WordsEnd(s, i, ["exclusion", "zone"]).value;
      assert DeploymentNoteAt(s, i).value.groups == [Span(i, SentenceEnd(s, v).value)];
    }
  }

  lemma NoteMatchShape(s: string, m: Match)
    requires Found(DeploymentNote, s, m)
    ensures NoteShape(s, m)
  {
    assert DeploymentNoteAt(s, m.start) == Some(m);
    NoteAtShape(s, m.start);
  }

  /** Every note match of `s`, left to right. */
  function NoteMatches(s: string): (ms: seq<Match>)
    ensures forall m :: m in ms ==> NoteShape(s, m)
  {
    var ms := FindAll(DeploymentNote, s, 0);
    FindAllSpec(DeploymentNote, s, 0);
    forall m | m in ms
      ensures NoteShape(s, m)
    {
      NoteMatchShape(s, m);
    }
    ms
  }

  /** A note as stored: stripped, with each whitespace run holding a line feed turned into one space. */
  function NoteOf(s: string, m: Match): string
    requires NoteShape(s, m)
  {
    JoinBrokenLines(Strip(Group(s, m.groups[0])))
  }

  /** The list comprehension over the notes. */
  function Notes(s: string): seq<string> {
    var ms := NoteMatches(s);
    seq(|ms|, i requires 0 <= i < |ms| => NoteOf(s, ms[i]))
  }

  // ---------------------------------------------------------------------------
  // The section
  // ---------------------------------------------------------------------------

  /** `extract_deployment`: the default record, with the table and the notes of the section when there is one. */
  function DeploymentOf(text: string): Deployment {
    match Search(DeploymentSection, text)
    case None => Default
    case Some(m) =>
      SectionShape(text, m);
      var section := Group(text, m.groups[0]);
      Deployment(Sides, Rows(section, RowMatches(section)), Notes(section))
  }

  /** `extract_deployment`, with the row loop. */
  method ExtractDeployment(text: string) returns (deployment: Deployment)
    ensures deployment == DeploymentOf(text)
  {
    deployment := Default;
    var m := Search(DeploymentSection, text);
    if m.None? {
      return;
    }
    SectionShape(text, m.value);
    var section := Group(text, m.value.groups[0]);
    var configs := RowMatches(section);
    var table: seq<Row> := [];
    for k := 0 to |configs|
      invariant table == Rows(section, configs[..k])
    {
      table := table + [RowOf(section, configs[k])];
      RowsNext(section, configs, k);
    }
    assert configs[..|configs|] == configs;
    deployment := deployment.(deploymentTable := table, specialNotes := Notes(section));
  }

  // ---------------------------------------------------------------------------
  // Properties
  // ---------------------------------------------------------------------------

  /** A stored row: army points below 10000, and the two texts as captured, non-empty and not padded. */
  predicate GoodRow(r: Row) {
    && r.armyPoints < 10000
    && |r.tableSize| > 0 && Stripped(r.tableSize)
    && |r.deploymentZone| > 0 && Stripped(r.deploymentZone)
  }

  /** A stored note: one line, no whitespace at either end, ending with a full stop. */
  predicate GoodNote(n: string) {
    |n| > 0 && n[|n| - 1] == '.' && '\n' !in n && Stripped(n)
  }

  lemma RowGood(s: string, m: Match)
    requires RowShape(s, m)
    ensures GoodRow(RowOf(s, m))
  {
    DigitsValueBound(Group(s, m.groups[0]));
    assert Pow10(|Group(s, m.groups[0])|) <= 10000;
    var size, zone := Group(s, m.groups[2]), Group(s, m.groups[3]);
    StripSpec(size);
    StripSpec(zone);
  }

  lemma {:induction false} RowsGood(s: string, ms: seq<Match>)
    requires forall m :: m in ms ==> RowShape(s, m)
    ensures |Rows(s, ms)| == |ms|
    ensures forall r :: r in Rows(s, ms) ==> GoodRow(r)
    decreases |ms|
  {
    if |ms| > 0 {
      var m := ms[|ms| - 1];
      assert m in ms;
      RowsGood(s, ms[..|ms| - 1]);
      RowGood(s, m);
    }
  }

  lemma NoteGood(s: string, m: Match)
    requires NoteShape(s, m)
    ensures GoodNote(NoteOf(s, m))
  {
    var g := Group(s, m.groups[0]);
    StripSpec(g);
    assert Stripped(g);
  }

  lemma NotesGood(s: string)
    ensures |Notes(s)| == |NoteMatches(s)|
    ensures forall n :: n in Notes(s) ==> GoodNote(n)
  {
    var ms := NoteMatches(s);
    forall n | n in Notes(s)
      ensures GoodNote(n)
    {
      var i :| 0 <= i < |ms| && n == Notes(s)[i];
      NoteGood(s, ms[i]);
    }
  }

  /**
   * Every deployment record has the fixed `sides` label, rows with army
   * points below 10000 and unpadded texts, and notes each on one line and
   * ending with its full stop.
   */
  lemma DeploymentGood(text: string)
    ensures DeploymentOf(text).sides == Sides
    ensures forall r :: r in DeploymentOf(text).deploymentTable ==> GoodRow(r)
    ensures forall n :: n in DeploymentOf(text).specialNotes ==> GoodNote(n)
  {
    match Search(DeploymentSection, text)
    case None =>
    case Some(m) =>
      SectionShape(text, m);
      var section := Group(text, m.groups[0]);
      RowsGood(section, RowMatches(section));
      NotesGood(section);
  }
}
