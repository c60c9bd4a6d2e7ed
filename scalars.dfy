/**
 * The single-valued fields of a scenario in `main.py`:
 * `extract_tactical_support`, `extract_reinforcements` and
 * `extract_end_of_mission`. Each searches the scenario text for a
 * labelled value and yields `None` when the label is missing.
 */
module Scalars {
  import opened Common
  import opened Text
  import opened Regex

  // ---------------------------------------------------------------------------
  // TACTICAL SUPPORT OPTIONS
  // ---------------------------------------------------------------------------

  /** The digits captured after `TACTICAL SUPPORT OPTIONS`. */
  lemma TacticalSupportShape(s: string, m: Match)
    requires Found(TacticalSupport, s, m)
    ensures |m.groups| == 1 && m.groups[0].lo < m.groups[0].hi <= |s|
    ensures AllDigits(Group(s, m.groups[0]))
  {
    var i := m.start;
    assert TacticalSupportAt(s, i) == Some(m);
    var k := WordsEnd(s, i, ["tactical", "support", "options"]).value;
    DigitsEndSpec(s, Spaces1(s, k).value);
  }

  /** `extract_tactical_support`: `int` of the number after the label, or `None`. */
  function TacticalSupportOptions(text: string): (r: Option<nat>)
    ensures r.Some? <==> Search(TacticalSupport, text).Some?
  {
    match Search(TacticalSupport, text)
    case None => None
    case Some(m) =>
      TacticalSupportShape(text, m);
      Some(DigitsValue(Group(text, m.groups[0])))
  }

  lemma TacticalSupportAtLower(s: string, i: nat)
    requires i <= |s|
    ensures TacticalSupportAt(Lower(s), i) == TacticalSupportAt(s, i)
  {
    WordsEndLower(s, i, ["tactical", "support", "options"]);
    if WordsEnd(s, i, ["tactical", "support", "options"]).Some? {
      NumberAfterLower(s, WordsEnd(s, i, ["tactical", "support", "options"]).value);
    }
  }

  /** The label is matched case-insensitively: lower-casing the text does not change the count. */
  lemma TacticalSupportIgnoresCase(text: string)
    ensures TacticalSupportOptions(Lower(text)) == TacticalSupportOptions(text)
  {
    forall i: nat | i <= |text|
      ensures TacticalSupport(text, i) == TacticalSupport(Lower(text), i)
    {
      TacticalSupportAtLower(text, i);
    }
    SearchAgree(TacticalSupport, text, Lower(text));
    match Search(TacticalSupport, text)
    case None =>
    case Some(m) =>
      TacticalSupportShape(text, m);
      var g := m.groups[0];
      LowerSlice(text, g.lo, g.hi);
      forall k | 0 <= k < g.hi - g.lo
        ensures !IsUpper(Group(text, g)[k])
      {
        assert IsDigit(Group(text, g)[k]);
      }
      LowerOfNoUpper(Group(text, g));
  }

  // ---------------------------------------------------------------------------
  // SUITABLE FOR REINFORCEMENTS
  // ---------------------------------------------------------------------------

  /** The captured answer is `yes` or `no`, in any letter case. */
  lemma ReinforcementsShape(s: string, m: Match)
    requires Found(Reinforcements, s, m)
    ensures |m.groups| == 1 && m.groups[0].lo <= m.groups[0].hi <= |s|
    ensures Lower(Group(s, m.groups[0])) == "yes" || Lower(Group(s, m.groups[0])) == "no"
  {
    assert ReinforcementsAt(s, m.start) == Some(m);
  }

  /** `extract_reinforcements`: whether the answer upper-cased is `YES`, or `None`. */
  function SuitableForReinforcements(text: string): (r: Option<bool>)
    ensures r.Some? <==> Search(Reinforcements, text).Some?
  {
    match Search(Reinforcements, text)
    case None => None
    case Some(m) =>
      ReinforcementsShape(text, m);
      Some(Upper(Group(text, m.groups[0])) == "YES")
  }

  /** The answer is `True` exactly when the text says `yes`, in any letter case. */
  lemma ReinforcementsAnswer(text: string)
    ensures SuitableForReinforcements(text).Some? ==>
              var m := Search(Reinforcements, text).value;
              |m.groups| == 1 && m.groups[0].lo <= m.groups[0].hi <= |text| &&
              (SuitableForReinforcements(text).value <==> Lower(Group(text, m.groups[0])) == "yes")
  {
    match Search(Reinforcements, text)
    case None =>
    case Some(m) =>
      ReinforcementsShape(text, m);
      UpperYes(Group(text, m.groups[0]));
  }

  /** A three-letter word upper-cases to `YES` exactly when it lower-cases to `yes`. */
  lemma UpperYes(g: string)
    ensures Upper(g) == "YES" <==> Lower(g) == "yes"
  {
    if |g| == 3 {
      LowerAt(g);
      UpperAt(g);
      var u, l := Upper(g), Lower(g);
      assert u == "YES" <==> u[0] == 'Y' && u[1] == 'E' && u[2] == 'S';
      assert l == "yes" <==> l[0] == 'y' && l[1] == 'e' && l[2] == 's';
    }
  }

  lemma ReinforcementsAtLower(s: string, i: nat)
    requires i <= |s|
    ensures ReinforcementsAt(Lower(s), i) == ReinforcementsAt(s, i)
  {
    var words := ["suitable", "for", "reinforcements"];
    WordsEndLower(s, i, words);
    match WordsEnd(s, i, words)
    case None =>
      ReinforcementsAtAgree(Lower(s), s, i);
    case Some(k) =>
      AnswerAfterLower(s, k);
      ReinforcementsAtAgree(Lower(s), s, i);
  }

  /** The match depends only on where the label ends and on the answer after it. */
  lemma ReinforcementsAtAgree(s: string, t: string, i: nat)
    requires i <= |s| && i <= |t|
    requires WordsEnd(s, i, ["suitable", "for", "reinforcements"]) == WordsEnd(t, i, ["suitable", "for", "reinforcements"])
    requires WordsEnd(s, i, ["suitable", "for", "reinforcements"]).Some? ==>
               var k := WordsEnd(s, i, ["suitable", "for", "reinforcements"]).value;
               k <= |s| && k <= |t| && AnswerAfter(s, k) == AnswerAfter(t, k)
    ensures ReinforcementsAt(s, i) == ReinforcementsAt(t, i)
  {
  }

  /** The label and the answer are matched case-insensitively: lower-casing the text does not change the answer. */
  lemma ReinforcementsIgnoresCase(text: string)
    ensures SuitableForReinforcements(Lower(text)) == SuitableForReinforcements(text)
  {
    forall i: nat | i <= |text|
      ensures Reinforcements(text, i) == Reinforcements(Lower(text), i)
    {
      ReinforcementsAtLower(text, i);
    }
    SearchAgree(Reinforcements, text, Lower(text));
    ReinforcementsAnswer(text);
    ReinforcementsAnswer(Lower(text));
    match Search(Reinforcements, text)
    case None =>
    case Some(m) =>
      ReinforcementsShape(text, m);
      var g := m.groups[0];
      LowerSlice(text, g.lo, g.hi);
      LowerLower(Group(text, g));
  }

  // ---------------------------------------------------------------------------
  // END OF THE MISSION
  // ---------------------------------------------------------------------------

  /** The longest end-of-mission text kept. */
  const EndOfMissionLimit: nat := 1000

  lemma EndOfMissionShape(s: string, m: Match)
    requires Found(EndOfMissionSection, s, m)
    ensures |m.groups| == 1 && m.groups[0].lo <= m.groups[0].hi <= |s|
  {
    assert m.groups[0] in m.groups;
  }

  /** The clean-up of the section: strip, join broken lines, collapse whitespace runs. */
  function CleanEnd(g: string): string {
    CollapseSpaces(JoinBrokenLines(Strip(g)))
  }

  /** `extract_end_of_mission`: the cleaned section text, at most 1000 characters, or `None`. */
  function EndOfMission(text: string): (r: Option<string>)
    ensures r.Some? <==> Search(EndOfMissionSection, text).Some?
  {
    match Search(EndOfMissionSection, text)
    case None => None
    case Some(m) =>
      EndOfMissionShape(text, m);
      Some(Truncate(CleanEnd(Group(text, m.groups[0])), EndOfMissionLimit))
  }

  /**
   * The end-of-mission text is a prefix of the cleaned section of at most
   * 1000 characters, all of it when it fits, single-spaced and without
   * line breaks.
   */
  lemma EndOfMissionText(text: string)
    ensures EndOfMission(text).Some? ==>
              var m := Search(EndOfMissionSection, text).value;
              |m.groups| == 1 && m.groups[0].lo <= m.groups[0].hi <= |text| &&
              var full := CleanEnd(Group(text, m.groups[0]));
              var t := EndOfMission(text).value;
              && |t| <= EndOfMissionLimit && t <= full
              && (|full| <= EndOfMissionLimit ==> t == full)
              && SingleSpaced(t) && '\n' !in t
  {
    match Search(EndOfMissionSection, text)
    case None =>
    case Some(m) =>
      EndOfMissionShape(text, m);
      var full := CleanEnd(Group(text, m.groups[0]));
      var t := Truncate(full, EndOfMissionLimit);
      SliceSingleSpaced(full, 0, |t|);
      assert t == full[0..|t|];
      SingleSpacedNoNewline(t);
  }

  /**
   * Once the header `END OF THE MISSION` and whitespace occur anywhere, a
   * text is produced: the lazy group always stops, at the latest at the
   * end of the text.
   */
  lemma EndOfMissionFound(text: string, i: nat)
    requires i <= |text|
    requires WordsEnd(text, i, ["end", "of", "the", "mission"]).Some?
    requires Spaces1(text, WordsEnd(text, i, ["end", "of", "the", "mission"]).value).Some?
    ensures EndOfMission(text).Some?
  {
    var k := WordsEnd(text, i, ["end", "of", "the", "mission"]).value;
    var g := Spaces1(text, k).value;
    FirstStopAtEnd(EndOfMissionEnd, text, g);
    assert EndOfMissionSection(text, i).Some?;
    assert MatchedAt(EndOfMissionSection, text, i).Some?;
    if FirstMatch(EndOfMissionSection, text, 0).None? {
      FirstMatchLeftmost(EndOfMissionSection, text, 0, i);
    }
  }
}
