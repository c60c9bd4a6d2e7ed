/**
 * `parse_skill_rule` of `main.py`: a special rule written as a skill. Its
 * skill type and labels, and its REQUIREMENTS, EFFECTS and CANCELATION
 * texts, each present only when its heading is found in the rule body.
 */
module SkillRule {
  import opened Common
  import opened Text
  import opened Regex

  /** The `rule` dict: `name` always, every other key only when its heading matched. */
  datatype SkillRule = SkillRule(
    name: string,
    skillType: Option<string>,
    requirements: Option<string>,
    effects: Option<string>,
    cancelation: Option<string>)

  /** U+2008 PUNCTUATION SPACE, which the clean-up deletes. */
  const PunctuationSpace: char := '\U{2008}'

  // ---------------------------------------------------------------------------
  // Skill type
  // ---------------------------------------------------------------------------

  /** The two groups of a skill-type match: the word `SHORT` or `LONG` as written, then the labels. */
  lemma SkillTypeShape(s: string, m: Match)
    requires Found(SkillType, s, m)
    ensures |m.groups| == 2
    ensures m.groups[0].lo <= m.groups[0].hi <= |s| && m.groups[1].lo <= m.groups[1].hi <= |s|
    ensures Lower(Group(s, m.groups[0])) == "short" || Lower(Group(s, m.groups[0])) == "long"
  {
    assert SkillTypeAt(s, m.start) == Some(m);
    assert m.groups[0] in m.groups && m.groups[1] in m.groups;
  }

  /** The labels: stripped, whitespace runs collapsed, stripped again. */
  function Labels(g: string): string {
    Strip(CollapseSpaces(Strip(g)))
  }

  /** `"<short|long> skill, <labels>"`, or absent. */
  function SkillTypeOf(text: string): (r: Option<string>)
    ensures r.Some? <==> Search(SkillType, text).Some?
  {
    match Search(SkillType, text)
    case None => None
    case Some(m) =>
      SkillTypeShape(text, m);
      Some(Lower(Group(text, m.groups[0])) + " skill, " + Labels(Group(text, m.groups[1])))
  }

  /** A cleaned text: no whitespace at either end, single spaces only, one line. */
  predicate Clean(t: string) {
    Stripped(t) && SingleSpaced(t) && '\n' !in t
  }

  /** Stripping a single-spaced text keeps it single-spaced. */
  lemma StripSingleSpaced(t: string)
    requires SingleSpaced(t)
    ensures Clean(Strip(t))
  {
    StripSpec(t);
    SliceSingleSpaced(t, StripStart(t), StripEnd(t));
    SingleSpacedNoNewline(Strip(t));
  }

  /** The form of a skill type: `short skill, ` or `long skill, `, then clean labels. */
  predicate SkillTypeForm(t: string) {
    || (|t| >= 13 && t[..13] == "short skill, " && Clean(t[13..]))
    || (|t| >= 12 && t[..12] == "long skill, " && Clean(t[12..]))
  }

  lemma KindLabels(kind: string, labels: string)
    requires kind == "short" || kind == "long"
    requires Clean(labels)
    ensures SkillTypeForm(kind + " skill, " + labels)
  {
    var t := kind + " skill, " + labels;
    if kind == "short" {
      assert t == "short skill, " + labels;
      assert t[..13] == "short skill, " && t[13..] == labels;
    } else {
      assert t == "long skill, " + labels;
      assert t[..12] == "long skill, " && t[12..] == labels;
    }
  }

  /** The skill type is `short skill, ` or `long skill, ` followed by the cleaned labels. */
  lemma SkillTypeText(text: string)
    ensures SkillTypeOf(text).Some? ==> SkillTypeForm(SkillTypeOf(text).value)
  {
    match Search(SkillType, text)
    case None =>
    case Some(m) =>
      SkillTypeShape(text, m);
      StripSingleSpaced(CollapseSpaces(Strip(Group(text, m.groups[1]))));
      KindLabels(Lower(Group(text, m.groups[0])), Labels(Group(text, m.groups[1])));
  }

  // ---------------------------------------------------------------------------
  // Fields
  // ---------------------------------------------------------------------------

  /** The search pattern of each field. */
  function FieldPattern(f: SkillField): Matcher {
    match f
    case Requirements => RequirementsField
    case Effects => EffectsField
    case Cancelation => CancelationField
  }

  lemma FieldShape(f: SkillField, s: string, m: Match)
    requires Found(FieldPattern(f), s, m)
    ensures |m.groups| == 1 && m.groups[0].lo <= m.groups[0].hi <= |s|
  {
    assert FieldAt(s, m.start, f) == Some(m);
    assert m.groups[0] in m.groups;
  }

  /**
   * The clean-up of a field: strip, delete U+2008, turn each bullet `►`
   * starting a line into ` • ` and a leading one into `• `, join a line
   * broken before a small letter or a bullet, collapse whitespace runs,
   * strip.
   */
  function CleanField(x: string): string {
    var a := Replace(Strip(x), [PunctuationSpace], "");
    var b := Sub(Bullet, a, " • ");
    var c := Sub(LeadingBullet, b, "• ");
    var d := Sub(BreakBeforeLower, c, " ");
    Strip(CollapseSpaces(d))
  }

  /** The cleaned text of the field, or absent. */
  function FieldOf(f: SkillField, text: string): (r: Option<string>)
    ensures r.Some? <==> Search(FieldPattern(f), text).Some?
  {
    match Search(FieldPattern(f), text)
    case None => None
    case Some(m) =>
      FieldShape(f, text, m);
      Some(CleanField(Group(text, m.groups[0])))
  }

  /** A cleaned field is clean and holds no U+2008. */
  lemma CleanFieldText(x: string)
    ensures Clean(CleanField(x)) && PunctuationSpace !in CleanField(x)
  {
    var a := Replace(Strip(x), [PunctuationSpace], "");
    var b := Sub(Bullet, a, " • ");
    SubKeepsOut(Bullet, a, " • ", 0, PunctuationSpace);
    var c := Sub(LeadingBullet, b, "• ");
    SubKeepsOut(LeadingBullet, b, "• ", 0, PunctuationSpace);
    var d := Sub(BreakBeforeLower, c, " ");
    SubKeepsOut(BreakBeforeLower, c, " ", 0, PunctuationSpace);
    CollapseSpacesChars(d);
    var e := CollapseSpaces(d);
    StripSingleSpaced(e);
    assert forall ch :: ch in Strip(e) ==> ch in e;
  }

  /**
   * Once a field heading is followed by whitespace holding a line feed,
   * the field is present: its lazy text always stops, at the latest at the
   * end of the rule.
   */
  lemma FieldFound(f: SkillField, text: string, i: nat)
    requires i + |FieldWord(f)| <= |text| && AtCI(text, i, FieldWord(f))
    requires '\n' in text[i + |FieldWord(f)|..SkipSpaces(text, i + |FieldWord(f)|)]
    ensures FieldOf(f, text).Some?
  {
    var b := SkipSpaces(text, i + |FieldWord(f)|);
    FirstStopAtEnd(FieldStop(f), text, b);
    assert FieldAt(text, i, f).Some?;
    assert MatchedAt(FieldPattern(f), text, i).Some?;
    if FirstMatch(FieldPattern(f), text, 0).None? {
      FirstMatchLeftmost(FieldPattern(f), text, 0, i);
    }
  }

  // ---------------------------------------------------------------------------
  // The rule
  // ---------------------------------------------------------------------------

  /** `parse_skill_rule(header, full_text)`. */
  function ParseSkillRule(header: string, text: string): SkillRule {
    SkillRule(header, SkillTypeOf(text), FieldOf(Requirements, text), FieldOf(Effects, text), FieldOf(Cancelation, text))
  }

  /**
   * A skill rule is named by its header; every field present is clean and
   * holds no U+2008, and the skill type starts with `short skill, ` or
   * `long skill, `.
   */
  lemma SkillRuleText(header: string, text: string)
    ensures ParseSkillRule(header, text).name == header
    ensures forall f :: FieldOf(f, text).Some? ==>
              Clean(FieldOf(f, text).value) && PunctuationSpace !in FieldOf(f, text).value
    ensures SkillTypeOf(text).Some? ==> SkillTypeForm(SkillTypeOf(text).value)
  {
    SkillTypeText(text);
    forall f | FieldOf(f, text).Some?
      ensures Clean(FieldOf(f, text).value) && PunctuationSpace !in FieldOf(f, text).value
    {
      var m := Search(FieldPattern(f), text).value;
      FieldShape(f, text, m);
      CleanFieldText(Group(text, m.groups[0]));
    }
  }
}
