/**
 * `extract_special_rules` of `main.py`: the SCENARIO SPECIAL RULES section
 * cut into rules, in three passes. All-caps lines become candidate headers;
 * a candidate that follows the previous one with nothing but whitespace in
 * between, and is short, continues its title; and the text up to the next
 * title becomes the rule, parsed as a skill when it names one and cleaned
 * into one line otherwise.
 */
module SpecialRules {
  import opened Common
  import opened Text
  import opened Regex
  import opened OrderedDict
  import opened HeaderKey
  import SkillRule

  /** A rule of the result: a cleaned text, or a skill parsed into its fields. */
  datatype RuleValue = TextRule(text: string) | SkillValue(skill: SkillRule.SkillRule)

  /** The `rules` dict: rule keys to rules, in insertion order. */
  type Rules = seq<(string, RuleValue)>

  /** Headings that belong inside a rule and never start one. */
  const SubsectionHeaders: set<string> :=
    {"SHORT SKILL", "SHORT MOVEMENT SKILL", "LONG SKILL", "REQUIREMENTS", "EFFECTS", "CANCELATION",
     "END OF THE MISSION", "END OF MISSION"}

  /** A candidate continues a title only when it is shorter than this. */
  const MergeLimit: nat := 50

  /** A rule whose stripped body is shorter than this is dropped. */
  const MinBody: nat := 10

  /** The longest text rule kept. */
  const TextLimit: nat := 2000

  /** A header: its title, and where its line starts and ends in the section text. */
  datatype Header = Header(text: string, start: nat, end: nat)

  /** Every header's line is non-empty, and each ends before the next one starts. */
  predicate Ordered(hs: seq<Header>) {
    && (forall k :: 0 <= k < |hs| ==> hs[k].start < hs[k].end)
    && (forall a, b :: 0 <= a < b < |hs| ==> hs[a].end <= hs[b].start)
  }

  // ---------------------------------------------------------------------------
  // Pass 1: candidate headers
  // ---------------------------------------------------------------------------

  lemma HeaderLineShape(s: string, m: Match)
    requires Found(RuleHeaderLine, s, m)
    ensures |m.groups| == 1 && m.start <= m.groups[0].lo <= m.groups[0].hi <= m.end <= |s|
    ensures m.start < m.end
  {
    assert RuleHeaderLineAt(s, m.start) == Some(m);
    assert m.groups[0] in m.groups;
  }

  /** The header of an all-caps line: its stripped group and the span of the whole match. */
  function HeaderOf(s: string, m: Match): (h: Header)
    requires Found(RuleHeaderLine, s, m)
    ensures h.start < h.end
  {
    HeaderLineShape(s, m);
    Header(Strip(Group(s, m.groups[0])), m.start, m.end)
  }

  /** The all-caps lines of the section. */
  function HeaderLines(s: string): (ms: seq<Match>)
    ensures forall m :: m in ms ==> Found(RuleHeaderLine, s, m)
  {
    FindAllSpec(RuleHeaderLine, s, 0);
    FindAll(RuleHeaderLine, s, 0)
  }

  /** The header of every all-caps line, in order. */
  function LineHeaders(s: string): (hs: seq<Header>)
    ensures |hs| == |HeaderLines(s)|
  {
    var ms := HeaderLines(s);
    seq(|ms|, k requires 0 <= k < |ms| => HeaderOf(s, ms[k]))
  }

  /** The all-caps lines are non-empty, come in order and do not overlap. */
  lemma LineHeadersOrdered(s: string)
    ensures Ordered(LineHeaders(s))
  {
    var ms := HeaderLines(s);
    var hs := LineHeaders(s);
    FindAllSpec(RuleHeaderLine, s, 0);
    forall k | 0 <= k < |hs|
      ensures hs[k].start == ms[k].start && hs[k].end == ms[k].end
    {
      assert ms[k] in ms;
    }
    HeadersOrdered(hs);
  }

  /** Headers that are each non-empty and end before the next one starts are ordered. */
  lemma {:induction false} HeadersOrdered(hs: seq<Header>)
    requires forall k :: 0 <= k < |hs| ==> hs[k].start < hs[k].end
    requires forall k :: 0 <= k < |hs| - 1 ==> hs[k].end <= hs[k + 1].start
    ensures Ordered(hs)
    decreases |hs|
  {
    if |hs| > 1 {
      var n := |hs| - 1;
      var p := hs[..n];
      HeadersOrdered(p);
      assert p[n - 1] == hs[n - 1];
      forall c | c in p
        ensures c.end <= hs[n].start
      {
        var a :| 0 <= a < n && p[a] == c;
        if a < n - 1 {
          assert p[a].end <= p[n - 1].start;
        }
      }
      OrderedSnoc(p, hs[n]);
      assert p + [hs[n]] == hs;
    }
  }

  predicate HasLower(t: string) {
    exists k :: 0 <= k < |t| && IsLower(t[k])
  }

  /** A candidate title: no small letter, not a subsection heading, at least three characters. */
  predicate Accepted(t: string) {
    !HasLower(t) && t !in SubsectionHeaders && |t| >= 3
  }

  /** The headers whose titles are accepted, in order. */
  function Candidates(hs: seq<Header>): (cs: seq<Header>)
    ensures |cs| <= |hs|
  {
    if |hs| == 0 then []
    else
      var last := hs[|hs| - 1];
      var rest := Candidates(hs[..|hs| - 1]);
      if Accepted(last.text) then rest + [last] else rest
  }

  /** The first pass: the title of each all-caps line, kept when it is accepted. */
  method FindHeaders(s: string) returns (headers: seq<Header>)
    ensures headers == Candidates(LineHeaders(s))
  {
    headers := KeepAccepted(LineHeaders(s));
  }

  /** The loop of the first pass, over the headers of the all-caps lines. */
  method KeepAccepted(hs: seq<Header>) returns (headers: seq<Header>)
    ensures headers == Candidates(hs)
  {
    headers := [];
    for k := 0 to |hs|
      invariant headers == Candidates(hs[..k])
    {
      var text := hs[k].text;
      CandidatesNext(hs, k);
      if !HasLower(text) && text !in SubsectionHeaders && |text| >= 3 {
        headers := headers + [hs[k]];
      }
    }
    assert hs[..|hs|] == hs;
  }

  lemma CandidatesNext(hs: seq<Header>, k: nat)
    requires k < |hs|
    ensures Candidates(hs[..k + 1]) == if Accepted(hs[k].text) then Candidates(hs[..k]) + [hs[k]] else Candidates(hs[..k])
  {
    assert hs[..k + 1][..k] == hs[..k];
  }

  /** A header that starts after every header of an ordered list ends can be put after it. */
  lemma OrderedSnoc(rest: seq<Header>, h: Header)
    requires Ordered(rest) && h.start < h.end
    requires forall c :: c in rest ==> c.end <= h.start
    ensures Ordered(rest + [h])
  {
    var r := rest + [h];
    forall a, b | 0 <= a < b < |r|
      ensures r[a].end <= r[b].start
    {
      assert r[a] == rest[a] && rest[a] in rest;
      if b < |rest| {
        assert r[b] == rest[b];
      }
    }
    forall k | 0 <= k < |r|
      ensures r[k].start < r[k].end
    {
      if k < |rest| {
        assert r[k] == rest[k];
      }
    }
  }

  /** The candidates are exactly the accepted headers. */
  lemma {:induction false} CandidatesSpec(hs: seq<Header>)
    ensures forall c :: c in Candidates(hs) <==> c in hs && Accepted(c.text)
    decreases |hs|
  {
    if |hs| > 0 {
      var n: nat := |hs| - 1;
      var p := hs[..n];
      CandidatesSpec(p);
      assert hs == p + [hs[n]];
      assert Candidates(hs) == if Accepted(hs[n].text) then Candidates(p) + [hs[n]] else Candidates(p);
    }
  }

  /** Dropping headers from an ordered list keeps it ordered. */
  lemma {:induction false} CandidatesOrdered(hs: seq<Header>)
    requires Ordered(hs)
    ensures Ordered(Candidates(hs))
    decreases |hs|
  {
    if |hs| > 0 {
      var n := |hs| - 1;
      var p := hs[..n];
      assert Ordered(p);
      CandidatesOrdered(p);
      CandidatesSpec(p);
      assert Candidates(hs) == if Accepted(hs[n].text) then Candidates(p) + [hs[n]] else Candidates(p);
      if Accepted(hs[n].text) {
        forall c | c in Candidates(p)
          ensures c.end <= hs[n].start
        {
          var a :| 0 <= a < n && p[a] == c;
        }
        OrderedSnoc(Candidates(p), hs[n]);
      }
    }
  }

  /** The candidate headers of a section: accepted titles of all-caps lines, in order, not overlapping. */
  lemma CandidateHeaders(s: string)
    ensures forall h :: h in Candidates(LineHeaders(s)) ==> Accepted(h.text) && h in LineHeaders(s)
    ensures Ordered(Candidates(LineHeaders(s)))
  {
    LineHeadersOrdered(s);
    CandidatesOrdered(LineHeaders(s));
    CandidatesSpec(LineHeaders(s));
  }

  // ---------------------------------------------------------------------------
  // Pass 2: merging split titles
  // ---------------------------------------------------------------------------

  /**
   * Candidate `j` continues the title of candidate `j - 1`: only whitespace
   * lies between them, and it is short and not a subsection heading.
   */
  predicate Continues(s: string, hs: seq<Header>, j: nat)
    requires 0 < j < |hs|
  {
    && |Strip(Substring(s, hs[j - 1].end, hs[j].start))| == 0
    && |hs[j].text| < MergeLimit
    && hs[j].text !in SubsectionHeaders
  }

  /** For each candidate, whether it continues the one before. */
  function Joins(s: string, hs: seq<Header>): (f: seq<bool>)
    ensures |f| == |hs|
  {
    seq(|hs|, j requires 0 <= j < |hs| => 0 < j && Continues(s, hs, j))
  }

  lemma JoinsAt(s: string, hs: seq<Header>, j: nat)
    requires 0 < j < |hs|
    ensures Joins(s, hs)[j] <==> Continues(s, hs, j)
  {
  }

  /** The last candidate of the title that starts at candidate `i`, given which candidates continue the one before. */
  function RunEnd(f: seq<bool>, i: nat): (e: nat)
    requires i < |f|
    ensures i <= e < |f|
    decreases |f| - i
  {
    if i + 1 < |f| && f[i + 1] then RunEnd(f, i + 1) else i
  }

  /** The titles of candidates `i` to `j`, joined by single spaces. */
  function Titles(hs: seq<Header>, i: nat, j: nat): string
    requires i <= j < |hs|
    decreases j - i
  {
    if j == i then hs[i].text else Titles(hs, i, j - 1) + " " + hs[j].text
  }

  /** The merged header starting at candidate `i`: from its line's start to the end of its last candidate's line. */
  function MergedAt(hs: seq<Header>, f: seq<bool>, i: nat): Header
    requires |f| == |hs| && i < |hs|
  {
    var e := RunEnd(f, i);
    Header(Titles(hs, i, e), hs[i].start, hs[e].end)
  }

  /** The merged headers from candidate `i` on. */
  function MergeAll(hs: seq<Header>, f: seq<bool>, i: nat): seq<Header>
    requires |f| == |hs|
    decreases |hs| - i
  {
    if i >= |hs| then [] else [MergedAt(hs, f, i)] + MergeAll(hs, f, RunEnd(f, i) + 1)
  }

  /** The two checks on the candidate after the title so far: only whitespace before it, and short and not a subsection heading. */
  method ShouldMerge(s: string, hs: seq<Header>, last: nat, mergedEnd: nat) returns (merge: bool)
    requires last + 1 < |hs| && mergedEnd == hs[last].end
    ensures merge == Continues(s, hs, last + 1) == Joins(s, hs)[last + 1]
  {
    JoinsAt(s, hs, last + 1);
    var next := hs[last + 1];
    var between := Substring(s, mergedEnd, next.start);
    if |Strip(between)| > 0 {
      return false;
    }
    merge := |next.text| < MergeLimit && next.text !in SubsectionHeaders;
  }

  /** The indices from `lo` up to, not including, `hi`. */
  function Range(lo: nat, hi: nat): (r: set<nat>)
    ensures forall j :: j in r <==> lo <= j < hi
    decreases hi
  {
    if hi <= lo then {} else Range(lo, hi - 1) + {hi - 1}
  }

  /** A run that reaches candidate `last` goes on through `last + 1` when that one continues it. */
  lemma RunNext(f: seq<bool>, i: nat, last: nat)
    requires i <= last && last + 1 < |f| && f[last + 1]
    ensures RunEnd(f, last) == RunEnd(f, last + 1)
    ensures Range(i + 1, last + 2) == Range(i + 1, last + 1) + {last + 1}
  {
  }

  /** The look-ahead loop from candidate `i`, marking every candidate it absorbs as skipped. */
  method MergeRun(s: string, hs: seq<Header>, ghost f: seq<bool>, i: nat, skip: set<nat>) returns (h: Header, last: nat, skip': set<nat>)
    requires f == Joins(s, hs) && i < |hs|
    ensures last == RunEnd(f, i) && h == MergedAt(hs, f, i)
    ensures skip' == skip + Range(i + 1, last + 1)
  {
    var merged := hs[i].text;
    var mergedEnd := hs[i].end;
    last := i;
    skip' := skip;
    while last + 1 < |hs|
      invariant i <= last < |hs|
      invariant merged == Titles(hs, i, last) && mergedEnd == hs[last].end
      invariant RunEnd(f, i) == RunEnd(f, last)
      invariant skip' == skip + Range(i + 1, last + 1)
      decreases |hs| - last
    {
      var merge := ShouldMerge(s, hs, last, mergedEnd);
      if !merge {
        break;
      }
      RunNext(f, i, last);
      var next := hs[last + 1];
      merged := merged + " " + next.text;
      mergedEnd := next.end;
      skip' := skip' + {last + 1};
      last := last + 1;
    }
    h := Header(merged, hs[i].start, mergedEnd);
  }

  /** Taking the merged header at candidate `k` moves on to the candidate after its run. */
  lemma MergeAllNext(hs: seq<Header>, f: seq<bool>, k: nat, before: seq<Header>)
    requires |f| == |hs| && k < |hs|
    ensures before + MergeAll(hs, f, k) == (before + [MergedAt(hs, f, k)]) + MergeAll(hs, f, RunEnd(f, k) + 1)
  {
    var tail := MergeAll(hs, f, RunEnd(f, k) + 1);
    assert MergeAll(hs, f, k) == [MergedAt(hs, f, k)] + tail;
    assert before + ([MergedAt(hs, f, k)] + tail) == (before + [MergedAt(hs, f, k)]) + tail;
  }

  /** Marking the candidates absorbed by the run from `k` skips them and nothing after. */
  lemma SkipAfterRun(skip: set<nat>, k: nat, last: nat, n: nat, skip': set<nat>)
    requires k <= last < n && skip' == skip + Range(k + 1, last + 1)
    requires forall j: nat :: k <= j < n ==> j !in skip
    ensures forall j: nat :: k + 1 <= j < last + 1 ==> j in skip'
    ensures forall j: nat :: last + 1 <= j < n ==> j !in skip'
  {
  }

  /** The second pass: each candidate not yet absorbed starts a merged header. */
  method MergeHeaders(s: string, hs: seq<Header>) returns (merged: seq<Header>)
    ensures merged == MergeAll(hs, Joins(s, hs), 0)
  {
    ghost var f := Joins(s, hs);
    merged := [];
    var skip: set<nat> := {};
    ghost var next: nat := 0;
    for k := 0 to |hs|
      invariant k <= next <= |hs|
      invariant forall j: nat :: k <= j < next ==> j in skip
      invariant forall j: nat :: next <= j < |hs| ==> j !in skip
      invariant MergeAll(hs, f, 0) == merged + MergeAll(hs, f, next)
    {
      if k in skip {
        continue;
      }
      assert k == next;
      var h, last;
      ghost var before := skip;
      h, last, skip := MergeRun(s, hs, f, k, skip);
      SkipAfterRun(before, k, last, |hs|, skip);
      MergeAllNext(hs, f, k, merged);
      merged := merged + [h];
      next := last + 1;
    }
    assert merged + [] == merged;
  }

  /**
   * A title absorbs a candidate exactly when the candidate continues it:
   * every candidate absorbed continues the one before, and the candidate
   * after the last one absorbed does not.
   */
  lemma {:induction false} RunSpec(s: string, hs: seq<Header>, i: nat)
    requires i < |hs|
    ensures forall j :: i < j <= RunEnd(Joins(s, hs), i) ==> Continues(s, hs, j)
    ensures RunEnd(Joins(s, hs), i) + 1 < |hs| ==> !Continues(s, hs, RunEnd(Joins(s, hs), i) + 1)
  {
    RunEndSpec(Joins(s, hs), i);
    forall j | i < j < |hs|
      ensures Joins(s, hs)[j] <==> Continues(s, hs, j)
    {
      JoinsAt(s, hs, j);
    }
  }

  lemma {:induction false} RunEndSpec(f: seq<bool>, i: nat)
    requires i < |f|
    ensures forall j :: i < j <= RunEnd(f, i) ==> f[j]
    ensures RunEnd(f, i) + 1 < |f| ==> !f[RunEnd(f, i) + 1]
    decreases |f| - i
  {
    if i + 1 < |f| && f[i + 1] {
      RunEndSpec(f, i + 1);
    }
  }

  /** A header that ends before every header of an ordered list starts can be put in front of it. */
  lemma OrderedCons(head: Header, rest: seq<Header>)
    requires Ordered(rest) && head.start < head.end
    requires forall h :: h in rest ==> head.end <= h.start
    ensures Ordered([head] + rest)
  {
    var r := [head] + rest;
    forall a, b | 0 <= a < b < |r|
      ensures r[a].end <= r[b].start
    {
      assert r[b] == rest[b - 1] && rest[b - 1] in rest;
      if a > 0 {
        assert r[a] == rest[a - 1];
      }
    }
    forall k | 0 <= k < |r|
      ensures r[k].start < r[k].end
    {
      if k > 0 {
        assert r[k] == rest[k - 1];
      }
    }
  }

  /**
   * Merged headers keep the order of the candidates and do not overlap;
   * there are at most as many as candidates, and each starts no earlier
   * than the candidate it starts from.
   */
  lemma {:induction false} MergeAllOrdered(hs: seq<Header>, f: seq<bool>, i: nat)
    requires |f| == |hs| && i <= |hs|
    requires Ordered(hs)
    ensures Ordered(MergeAll(hs, f, i))
    ensures |MergeAll(hs, f, i)| <= |hs| - i
    ensures forall h :: h in MergeAll(hs, f, i) ==> i < |hs| && hs[i].start <= h.start
    decreases |hs| - i
  {
    if i < |hs| {
      var e := RunEnd(f, i);
      var head := MergedAt(hs, f, i);
      var rest := MergeAll(hs, f, e + 1);
      MergeAllOrdered(hs, f, e + 1);
      assert MergeAll(hs, f, i) == [head] + rest;
      assert hs[i].start < hs[i].end;
      assert i < e ==> hs[i].end <= hs[e].start;
      OrderedCons(head, rest);
    }
  }

  // ---------------------------------------------------------------------------
  // Pass 3: rule bodies
  // ---------------------------------------------------------------------------

  /** The stripped text between merged header `k` and the next one, or the end of the section. */
  function Body(s: string, ms: seq<Header>, k: nat): string
    requires k < |ms|
  {
    Strip(Substring(s, ms[k].end, if k + 1 < |ms| then ms[k + 1].start else |s|))
  }

  /** The clean-up of a text rule: an indented line before a small letter joins the one before, whitespace runs collapse, the ends are stripped. */
  function CleanText(content: string): string {
    Strip(CollapseSpaces(Sub(IndentBeforeLower, content, " ")))
  }

  /** The rule a body makes: a skill when it names one, otherwise its cleaned text cut to 2000 characters, or nothing when that is empty. */
  function RuleValueOf(header: string, content: string): (r: Option<RuleValue>)
    ensures r.Some? && r.value.SkillValue? <==> Search(SkillMention, content).Some?
    ensures r.None? <==> Search(SkillMention, content).None? && |CleanText(content)| == 0
  {
    if Search(SkillMention, content).Some? then Some(SkillValue(SkillRule.ParseSkillRule(header, content)))
    else if |CleanText(content)| > 0 then Some(TextRule(Truncate(CleanText(content), TextLimit)))
    else None
  }

  /** What merged header `k` stores: its key and rule, or nothing when the body is too short or yields no rule. */
  function Entry(s: string, ms: seq<Header>, k: nat): Option<(string, RuleValue)>
    requires k < |ms|
  {
    var content := Body(s, ms, k);
    if |content| < MinBody then None
    else
      match RuleValueOf(ms[k].text, content)
      case None => None
      case Some(v) => Some((SectionKey(ms[k].text), v))
  }

  /** What every merged header stores, in order. */
  function Entries(s: string, ms: seq<Header>): (es: seq<Option<(string, RuleValue)>>)
    ensures |es| == |ms|
  {
    seq(|ms|, k requires 0 <= k < |ms| => Entry(s, ms, k))
  }

  /** `rules[key] = rule` for an entry, nothing for none. */
  function StoreEntry(d: Rules, e: Option<(string, RuleValue)>): Rules {
    match e
    case None => d
    case Some(p) => Put(d, p.0, p.1)
  }

  /** The dict after storing the entries one after the other. */
  function Store(es: seq<Option<(string, RuleValue)>>): Rules {
    if |es| == 0 then [] else StoreEntry(Store(es[..|es| - 1]), es[|es| - 1])
  }

  lemma SectionShape(s: string, m: Match)
    requires Found(SpecialRulesSection, s, m)
    ensures |m.groups| == 1 && m.groups[0].lo <= m.groups[0].hi <= |s|
  {
    assert m.groups[0] in m.groups;
  }

  /** The merged headers of a section text. */
  function RuleHeaders(s: string): seq<Header> {
    var hs := Candidates(LineHeaders(s));
    MergeAll(hs, Joins(s, hs), 0)
  }

  /** `extract_special_rules`: the rules of the section, or none when the section is missing. */
  function SpecialRulesOf(text: string): Rules {
    match Search(SpecialRulesSection, text)
    case None => []
    case Some(m) =>
      SectionShape(text, m);
      var s := Group(text, m.groups[0]);
      Store(Entries(s, RuleHeaders(s)))
  }

  /** The third pass for one merged header. */
  method CollectRule(s: string, ms: seq<Header>, k: nat, rules: Rules) returns (r: Rules)
    requires k < |ms|
    ensures r == StoreEntry(rules, Entry(s, ms, k))
  {
    r := rules;
    var nextStart := |s|;
    if k + 1 < |ms| {
      nextStart := ms[k + 1].start;
    }
    var content := Strip(Substring(s, ms[k].end, nextStart));
    if |content| >= MinBody {
      var key := SectionKey(ms[k].text);
      if Search(SkillMention, content).Some? {
        r := Put(rules, key, SkillValue(SkillRule.ParseSkillRule(ms[k].text, content)));
      } else {
        var c := Sub(IndentBeforeLower, content, " ");
        c := CollapseSpaces(c);
        c := Strip(c);
        if |c| > 0 {
          r := Put(rules, key, TextRule(Truncate(c, TextLimit)));
        }
      }
    }
  }

  /** The third pass: the rule of each merged header, in order. */
  method CollectRules(s: string, merged: seq<Header>) returns (rules: Rules)
    ensures rules == Store(Entries(s, merged))
  {
    ghost var es := Entries(s, merged);
    rules := [];
    for k := 0 to |merged|
      invariant rules == Store(es[..k])
    {
      rules := CollectRule(s, merged, k, rules);
      assert es[..k + 1][..k] == es[..k];
    }
    assert es[..|merged|] == es;
  }

  /** `extract_special_rules`, pass by pass. */
  method ExtractSpecialRules(text: string) returns (rules: Rules)
    ensures rules == SpecialRulesOf(text)
  {
    rules := [];
    var m := Search(SpecialRulesSection, text);
    if m.None? {
      return;
    }
    SectionShape(text, m.value);
    var s := Group(text, m.value.groups[0]);
    var headers := FindHeaders(s);
    var merged := MergeHeaders(s, headers);
    rules := CollectRules(s, merged);
  }

  // ---------------------------------------------------------------------------
  // Properties
  // ---------------------------------------------------------------------------

  /**
   * A stored rule: a text rule is non-empty, at most 2000 characters,
   * single-spaced on one line and starts with a non-space; a skill rule
   * has every present field clean.
   */
  predicate GoodValue(v: RuleValue) {
    match v
    case TextRule(t) =>
      0 < |t| <= TextLimit && SingleSpaced(t) && '\n' !in t && !IsSpace(t[0])
    case SkillValue(r) =>
      && (r.requirements.Some? ==> SkillRule.Clean(r.requirements.value))
      && (r.effects.Some? ==> SkillRule.Clean(r.effects.value))
      && (r.cancelation.Some? ==> SkillRule.Clean(r.cancelation.value))
      && (r.skillType.Some? ==> SkillRule.SkillTypeForm(r.skillType.value))
  }

  /** A stored pair: its key has the key shape, its rule is a good one, and a skill rule is stored under its own name's key. */
  predicate GoodEntry(p: (string, RuleValue)) {
    KeyShape(p.0) && GoodValue(p.1) && (p.1.SkillValue? ==> p.0 == SectionKey(p.1.skill.name))
  }

  /** Every key occurs once, and every pair is a good one. */
  predicate GoodRules(d: Rules) {
    DistinctKeys(d) && forall p :: p in d ==> GoodEntry(p)
  }

  /** The rule a body makes is a good one, and a skill is named by its header. */
  lemma RuleValueGood(header: string, content: string)
    ensures RuleValueOf(header, content).Some? ==> GoodValue(RuleValueOf(header, content).value)
    ensures RuleValueOf(header, content).Some? && RuleValueOf(header, content).value.SkillValue? ==>
              RuleValueOf(header, content).value.skill.name == header
  {
    if Search(SkillMention, content).Some? {
      SkillRule.SkillRuleText(header, content);
      assert SkillRule.FieldOf(Requirements, content).Some? ==> SkillRule.Clean(SkillRule.FieldOf(Requirements, content).value);
      assert SkillRule.FieldOf(Effects, content).Some? ==> SkillRule.Clean(SkillRule.FieldOf(Effects, content).value);
      assert SkillRule.FieldOf(Cancelation, content).Some? ==> SkillRule.Clean(SkillRule.FieldOf(Cancelation, content).value);
    } else if |CleanText(content)| > 0 {
      var c := CleanText(content);
      var x := CollapseSpaces(Sub(IndentBeforeLower, content, " "));
      SkillRule.StripSingleSpaced(x);
      var t := Truncate(c, TextLimit);
      assert t == c[0..|t|];
      SliceSingleSpaced(c, 0, |t|);
      SingleSpacedNoNewline(t);
    }
  }

  /** What a merged header stores is a good pair. */
  lemma EntryGood(s: string, ms: seq<Header>, k: nat)
    requires k < |ms|
    ensures Entry(s, ms, k).Some? ==> GoodEntry(Entry(s, ms, k).value)
  {
    RuleValueGood(ms[k].text, Body(s, ms, k));
    SectionKeyShape(ms[k].text);
  }

  /** Storing good pairs keeps the keys distinct and every pair good. */
  lemma {:induction false} StoreGood(es: seq<Option<(string, RuleValue)>>)
    requires forall k :: 0 <= k < |es| && es[k].Some? ==> GoodEntry(es[k].value)
    ensures GoodRules(Store(es))
    decreases |es|
  {
    if |es| > 0 {
      var n := |es| - 1;
      var d := Store(es[..n]);
      assert forall k :: 0 <= k < n ==> es[..n][k] == es[k];
      StoreGood(es[..n]);
      if es[n].Some? {
        var p := es[n].value;
        PutDistinct(d, p.0, p.1);
        PutPairs(d, p.0, p.1);
      }
    }
  }

  /**
   * The special rules of any text: keys occur once and have the key shape,
   * text rules are clean and at most 2000 characters, skill rules have
   * clean fields and are stored under their own name's key.
   */
  lemma SpecialRulesGood(text: string)
    ensures GoodRules(SpecialRulesOf(text))
  {
    match Search(SpecialRulesSection, text)
    case None =>
    case Some(m) =>
      SectionShape(text, m);
      var s := Group(text, m.groups[0]);
      var ms := RuleHeaders(s);
      var es := Entries(s, ms);
      forall k | 0 <= k < |es| && es[k].Some?
        ensures GoodEntry(es[k].value)
      {
        EntryGood(s, ms, k);
      }
      StoreGood(es);
  }

  /** The merged headers of a section are in order and no more than the candidates. */
  lemma RuleHeadersOrdered(s: string)
    ensures Ordered(RuleHeaders(s))
    ensures |RuleHeaders(s)| <= |Candidates(LineHeaders(s))|
  {
    var hs := Candidates(LineHeaders(s));
    CandidateHeaders(s);
    MergeAllOrdered(hs, Joins(s, hs), 0);
  }

  /**
   * A header stores its rule under its key, replacing an earlier rule with
   * the same key; a body shorter than ten characters, or one that yields no
   * rule, stores nothing, and every other key keeps its rule.
   */
  lemma EntryGet(s: string, ms: seq<Header>, k: nat, d: Rules, key: string)
    requires k < |ms|
    ensures Get(StoreEntry(d, Entry(s, ms, k)), key) ==
              if |Body(s, ms, k)| >= MinBody && RuleValueOf(ms[k].text, Body(s, ms, k)).Some? && key == SectionKey(ms[k].text)
              then RuleValueOf(ms[k].text, Body(s, ms, k))
              else Get(d, key)
  {
    var content := Body(s, ms, k);
    if |content| >= MinBody && RuleValueOf(ms[k].text, content).Some? {
      PutGet(d, SectionKey(ms[k].text), RuleValueOf(ms[k].text, content).value, key);
    }
  }
}
