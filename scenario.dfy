/**
 * The scenario level of `main.py`: `extract_scenarios_from_pdf` reads the
 * contents page, gives every ITS scenario and every Direct Action the page
 * range up to the next one, and `parse_scenario` turns the text of each
 * range into a scenario record; `find_page_with_text` closes the range of
 * the last Direct Action.
 *
 * A document is the sequence of its page texts (what `page.get_text()`
 * returns); indexing follows Python, so page `-1` is the last page.
 */
module Scenario {
  import opened Common
  import opened Text
  import opened Pages
  import opened PageText
  import Toc
  import Scalars
  import Objectives
  import Deployment
  import SpecialRules

  /** The `type` of an ITS scenario. */
  const ItsScenarioType: string := "ITS Scenario"

  /** The `type` of a Direct Action. */
  const DirectActionType: string := "Direct Action"

  /** The text that closes the last Direct Action. */
  const ResilienceOperations: string := "RESILIENCE OPERATIONS"

  /** The `scenario` dict of `parse_scenario`, one field per key. */
  datatype Scenario = Scenario(
    name: string,
    scenarioType: string,
    tacticalSupportOptions: Option<nat>,
    suitableForReinforcements: Option<bool>,
    missionObjectives: Objectives.ObjectiveMap,
    forcesAndDeployment: Deployment.Deployment,
    scenarioSpecialRules: SpecialRules.Rules,
    endOfMission: Option<string>)

  // ---------------------------------------------------------------------------
  // parse_scenario
  // ---------------------------------------------------------------------------

  /** `parse_scenario(name, text, is_direct_action)`: every section extracted from the same text. */
  function ScenarioOf(name: string, text: string, isDirectAction: bool): Scenario {
    Scenario(
      name,
      if isDirectAction then DirectActionType else ItsScenarioType,
      Scalars.TacticalSupportOptions(text),
      Scalars.SuitableForReinforcements(text),
      Objectives.ObjectivesOf(text),
      Deployment.DeploymentOf(text),
      SpecialRules.SpecialRulesOf(text),
      Scalars.EndOfMission(text))
  }

  /** `parse_scenario`, calling the section extractors in the order the dict lists them. */
  method ParseScenario(name: string, text: string, isDirectAction: bool) returns (scenario: Scenario)
    ensures scenario == ScenarioOf(name, text, isDirectAction)
  {
    var tactical := Scalars.TacticalSupportOptions(text);
    var reinforcements := Scalars.SuitableForReinforcements(text);
    var objectives := Objectives.ExtractObjectives(text);
    var deployment := Deployment.ExtractDeployment(text);
    var rules := SpecialRules.ExtractSpecialRules(text);
    var end := Scalars.EndOfMission(text);
    scenario := Scenario(
      name,
      if isDirectAction then DirectActionType else ItsScenarioType,
      tactical, reinforcements, objectives, deployment, rules, end);
  }

  /**
   * What every extracted scenario looks like, whatever its text: its
   * objectives, deployment and special rules are well formed, and its
   * end-of-mission text is single-spaced and at most 1000 characters.
   */
  predicate GoodScenario(s: Scenario) {
    && (s.scenarioType == ItsScenarioType || s.scenarioType == DirectActionType)
    && Objectives.WellFormed(s.missionObjectives)
    && s.forcesAndDeployment.sides == Deployment.Sides
    && (forall r :: r in s.forcesAndDeployment.deploymentTable ==> Deployment.GoodRow(r))
    && (forall n :: n in s.forcesAndDeployment.specialNotes ==> Deployment.GoodNote(n))
    && SpecialRules.GoodRules(s.scenarioSpecialRules)
    && (s.endOfMission.Some? ==>
          |s.endOfMission.value| <= Scalars.EndOfMissionLimit
          && SingleSpaced(s.endOfMission.value) && '\n' !in s.endOfMission.value)
  }

  /** The record keeps the name, is a Direct Action exactly when flagged as one, and is a good scenario. */
  lemma ScenarioGood(name: string, text: string, isDirectAction: bool)
    ensures ScenarioOf(name, text, isDirectAction).name == name
    ensures ScenarioOf(name, text, isDirectAction).scenarioType == DirectActionType <==> isDirectAction
    ensures GoodScenario(ScenarioOf(name, text, isDirectAction))
  {
    Objectives.ObjectivesWellFormed(text);
    Deployment.DeploymentGood(text);
    SpecialRules.SpecialRulesGood(text);
    Scalars.EndOfMissionText(text);
  }

  // ---------------------------------------------------------------------------
  // find_page_with_text
  // ---------------------------------------------------------------------------

  /** The first page from `start` on whose text contains `needle`, or `-1`. */
  function FindPage(doc: seq<string>, needle: string, start: int): int
    requires -|doc| <= start
    decreases |doc| - start
  {
    if start >= |doc| then -1
    else if Contains(PageAt(doc, start), needle) then start
    else FindPage(doc, needle, start + 1)
  }

  /**
   * The search result is `-1` or a page of the range. A page other than
   * `-1` holds the text and no page before it in the range does. `-1`
   * means that no page of the range holds the text, or, when the search
   * starts below zero, that page `-1` (the last page) is the first one that
   * does: the two cases give the same answer.
   */
  lemma {:induction false} FindPageSpec(doc: seq<string>, needle: string, start: int)
    requires -|doc| <= start
    ensures var r := FindPage(doc, needle, start);
      && (r == -1 || start <= r < |doc|)
      && (r != -1 ==> Contains(PageAt(doc, r), needle)
                      && forall k :: start <= k < r ==> !Contains(PageAt(doc, k), needle))
      && (r == -1 ==>
            || (forall k :: start <= k < |doc| ==> !Contains(PageAt(doc, k), needle))
            || (start <= -1 && Contains(PageAt(doc, -1), needle)
                && forall k :: start <= k < -1 ==> !Contains(PageAt(doc, k), needle)))
    decreases |doc| - start
  {
    if start < |doc| && !Contains(PageAt(doc, start), needle) {
      var next := start + 1;
      FindPageSpec(doc, needle, next);
      var r := FindPage(doc, needle, next);
      assert FindPage(doc, needle, start) == r;
      var hi := if r != -1 then r else if next <= -1 && Contains(PageAt(doc, -1), needle) then -1 else |doc|;
      forall k | start <= k < hi
        ensures !Contains(PageAt(doc, k), needle)
      {
        if k != start {
          assert next <= k;
        }
      }
    }
  }

  /** `find_page_with_text(doc, search_text, start_page)`: the page loop with its early return. */
  method FindPageWithText(doc: seq<string>, needle: string, start: int) returns (r: int)
    requires -|doc| <= start
    ensures r == FindPage(doc, needle, start)
  {
    if start >= |doc| {
      return -1;
    }
    for pageNum := start to |doc|
      invariant FindPage(doc, needle, pageNum) == FindPage(doc, needle, start)
    {
      if Contains(PageAt(doc, pageNum), needle) {
        return pageNum;
      }
    }
    return -1;
  }

  // ---------------------------------------------------------------------------
  // Page ranges
  // ---------------------------------------------------------------------------

  /** The 0-based first page of a contents entry. */
  function FirstPage(item: Toc.TocItem): int {
    item.page - 1
  }

  /**
   * The range of ITS scenario `i`: up to the next one's first page, or for
   * the last one up to the first Direct Action's, or to the end of the
   * document when there is none.
   */
  function ItsRange(doc: seq<string>, its: seq<Toc.TocItem>, das: seq<Toc.TocItem>, i: nat): (int, int)
    requires i < |its|
  {
    (FirstPage(its[i]),
     if i + 1 < |its| then FirstPage(its[i + 1])
     else if |das| > 0 then FirstPage(das[0])
     else |doc|)
  }

  /**
   * The range of Direct Action `i`: up to the next one's first page, or for
   * the last one up to the first page from its own on that mentions
   * `RESILIENCE OPERATIONS`, or to the end of the document when the search
   * returns `-1`.
   */
  function DaRange(doc: seq<string>, das: seq<Toc.TocItem>, i: nat): (int, int)
    requires i < |das| && |doc| > 0
  {
    (FirstPage(das[i]),
     if i + 1 < |das| then FirstPage(das[i + 1])
     else
       var e := FindPage(doc, ResilienceOperations, FirstPage(das[i]));
       if e == -1 then |doc| else e)
  }

  /** The ranges of all scenarios: the ITS scenarios, then the Direct Actions. */
  function Ranges(doc: seq<string>, its: seq<Toc.TocItem>, das: seq<Toc.TocItem>): (rs: seq<(int, int)>)
    requires |doc| > 0
    ensures |rs| == |its| + |das|
  {
    seq(|its|, i requires 0 <= i < |its| => ItsRange(doc, its, das, i))
      + seq(|das|, i requires 0 <= i < |das| => DaRange(doc, das, i))
  }

  /** A contents page number is at least 0, so a range starts no lower than page `-1`. */
  lemma RangeStart(doc: seq<string>, its: seq<Toc.TocItem>, das: seq<Toc.TocItem>, k: nat)
    requires |doc| > 0 && k < |its| + |das|
    ensures -|doc| <= Ranges(doc, its, das)[k].0
  {
  }

  /** The normalised text of a range. */
  function RangeText(doc: seq<string>, range: (int, int)): string
    requires -|doc| <= range.0
  {
    Normalize(RawText(doc, range.0, range.1))
  }

  // ---------------------------------------------------------------------------
  // extract_scenarios_from_pdf
  // ---------------------------------------------------------------------------

  /** The entries of the contents page, on page index 1. */
  function Contents(doc: seq<string>): (seq<Toc.TocItem>, seq<Toc.TocItem>)
    requires |doc| > 1
  {
    Toc.TableOfContents(doc[1])
  }

  /** What a loop hands to `parse_scenario`: the entry's name, the text of its range, and whether it is a Direct Action. */
  datatype Job = Job(name: string, text: string, isDirectAction: bool)

  /** The job of entry `k` of the listing, the ITS scenarios first. */
  function JobAt(doc: seq<string>, its: seq<Toc.TocItem>, das: seq<Toc.TocItem>, k: nat): Job
    requires |doc| > 0 && k < |its| + |das|
  {
    RangeStart(doc, its, das, k);
    Job((its + das)[k].name, RangeText(doc, Ranges(doc, its, das)[k]), k >= |its|)
  }

  /** The jobs of all entries. */
  function Jobs(doc: seq<string>, its: seq<Toc.TocItem>, das: seq<Toc.TocItem>): (js: seq<Job>)
    requires |doc| > 0
    ensures |js| == |its| + |das|
  {
    seq(|its| + |das|, k requires 0 <= k < |its| + |das| => JobAt(doc, its, das, k))
  }

  /**
   * `jobs` are the jobs of all entries, stated entry by entry so that the
   * loops, which only pass them on, never unfold a job.
   */
  ghost predicate JobsAre(doc: seq<string>, its: seq<Toc.TocItem>, das: seq<Toc.TocItem>, jobs: seq<Job>)
    requires |doc| > 0
  {
    && |jobs| == |its| + |das|
    && forall k: nat {:trigger JobAt(doc, its, das, k)} :: k < |jobs| ==> jobs[k] == JobAt(doc, its, das, k)
  }

  lemma JobsAreJobs(doc: seq<string>, its: seq<Toc.TocItem>, das: seq<Toc.TocItem>)
    requires |doc| > 0
    ensures JobsAre(doc, its, das, Jobs(doc, its, das))
  {
  }

  /** The scenario of a job. */
  function Parse(j: Job): Scenario {
    ScenarioOf(j.name, j.text, j.isDirectAction)
  }

  /** `f` applied to each element, in order. */
  function MapSeq<A, B>(f: A -> B, xs: seq<A>): (r: seq<B>)
    ensures |r| == |xs|
  {
    if |xs| == 0 then [] else MapSeq(f, xs[..|xs| - 1]) + [f(xs[|xs| - 1])]
  }

  /** The scenario of each job, in order. */
  function Parsed(js: seq<Job>): seq<Scenario> {
    MapSeq(Parse, js)
  }

  /** `extract_scenarios_from_pdf`: one scenario per contents entry, ITS scenarios first. */
  function ScenariosOf(doc: seq<string>): seq<Scenario>
    requires |doc| > 1
  {
    Parsed(Jobs(doc, Contents(doc).0, Contents(doc).1))
  }

  /** The ITS loop's range and text for entry `i`. */
  method ItsJob(doc: seq<string>, its: seq<Toc.TocItem>, das: seq<Toc.TocItem>, i: nat) returns (job: Job)
    requires |doc| > 0 && i < |its|
    ensures job == JobAt(doc, its, das, i)
  {
    var startPage := its[i].page - 1;
    var endPage: int;
    if i + 1 < |its| {
      endPage := its[i + 1].page - 1;
    } else if |das| > 0 {
      endPage := das[0].page - 1;
    } else {
      endPage := |doc|;
    }
    assert (startPage, endPage) == Ranges(doc, its, das)[i];
    var text := ExtractTextFromPages(doc, startPage, endPage);
    job := Job(its[i].name, text, false);
    assert (its + das)[i] == its[i];
  }

  /** The Direct Action loop's range, closed by the search for the last one, and text for Direct Action `i`. */
  method DaJob(doc: seq<string>, its: seq<Toc.TocItem>, das: seq<Toc.TocItem>, i: nat) returns (job: Job)
    requires |doc| > 0 && i < |das|
    ensures job == JobAt(doc, its, das, |its| + i)
  {
    var startPage := das[i].page - 1;
    var endPage: int;
    if i + 1 < |das| {
      endPage := das[i + 1].page - 1;
    } else {
      endPage := FindPageWithText(doc, ResilienceOperations, startPage);
      if endPage == -1 {
        endPage := |doc|;
      }
    }
    assert (startPage, endPage) == Ranges(doc, its, das)[|its| + i];
    var text := ExtractTextFromPages(doc, startPage, endPage);
    job := Job(das[i].name, text, true);
    assert (its + das)[|its| + i] == das[i];
  }

  /** One more element mapped extends the result by its image. */
  lemma MapSeqNext<A, B>(f: A -> B, xs: seq<A>, k: nat)
    requires k < |xs|
    ensures MapSeq(f, xs[..k + 1]) == MapSeq(f, xs[..k]) + [f(xs[k])]
  {
    assert xs[..k + 1][..k] == xs[..k];
  }

  /**
   * A stand-in for `Parse` in the loops: it agrees with `Parse` wherever
   * `Parse` is applied, so the loops never unfold a scenario they do not
   * parse themselves.
   */
  ghost predicate ParsesAs(p: Job -> Scenario) {
    forall j {:trigger Parse(j)} :: p(j) == Parse(j)
  }

  /** The body of both loops: the job of entry `k` parsed and appended. */
  method AppendScenario(doc: seq<string>, its: seq<Toc.TocItem>, das: seq<Toc.TocItem>, ghost jobs: seq<Job>,
                        ghost p: Job -> Scenario, k: nat, scenarios: seq<Scenario>) returns (r: seq<Scenario>)
    requires |doc| > 0 && JobsAre(doc, its, das, jobs) && k < |jobs| && ParsesAs(p)
    requires scenarios == MapSeq(p, jobs[..k])
    ensures r == MapSeq(p, jobs[..k + 1])
  {
    var job;
    if k < |its| {
      job := ItsJob(doc, its, das, k);
    } else {
      job := DaJob(doc, its, das, k - |its|);
    }
    assert job == jobs[k];
    var s := ParseScenario(job.name, job.text, job.isDirectAction);
    assert s == Parse(job);
    r := scenarios + [s];
    MapSeqNext(p, jobs, k);
  }

  /** The ITS loop of `extract_scenarios_from_pdf`. */
  method ExtractIts(doc: seq<string>, its: seq<Toc.TocItem>, das: seq<Toc.TocItem>, ghost jobs: seq<Job>,
                    ghost p: Job -> Scenario) returns (scenarios: seq<Scenario>)
    requires |doc| > 0 && JobsAre(doc, its, das, jobs) && ParsesAs(p)
    ensures scenarios == MapSeq(p, jobs[..|its|])
  {
    scenarios := [];
    for i := 0 to |its|
      invariant scenarios == MapSeq(p, jobs[..i])
    {
      scenarios := AppendScenario(doc, its, das, jobs, p, i, scenarios);
    }
  }

  /** The Direct Action loop of `extract_scenarios_from_pdf`, continuing the ITS scenarios. */
  method ExtractDas(doc: seq<string>, its: seq<Toc.TocItem>, das: seq<Toc.TocItem>, ghost jobs: seq<Job>,
                    ghost p: Job -> Scenario, itsScenarios: seq<Scenario>) returns (scenarios: seq<Scenario>)
    requires |doc| > 0 && JobsAre(doc, its, das, jobs) && ParsesAs(p)
    requires itsScenarios == MapSeq(p, jobs[..|its|])
    ensures scenarios == MapSeq(p, jobs)
  {
    scenarios := itsScenarios;
    for k := |its| to |its| + |das|
      invariant scenarios == MapSeq(p, jobs[..k])
    {
      scenarios := AppendScenario(doc, its, das, jobs, p, k, scenarios);
    }
    TakeAll(jobs);
  }

  /** Taking every element leaves the sequence unchanged. */
  lemma TakeAll<T>(xs: seq<T>)
    ensures xs[..|xs|] == xs
  {
  }

  /**
   * `extract_scenarios_from_pdf` without the PDF: the contents page is page
   * index 1, so the document has at least two pages (`doc[1]` raises
   * otherwise).
   */
  method ExtractScenarios(doc: seq<string>) returns (scenarios: seq<Scenario>)
    requires |doc| > 1
    ensures scenarios == ScenariosOf(doc)
  {
    var its, das := Toc.ParseTableOfContents(doc[1]);
    ghost var jobs := Jobs(doc, its, das);
    JobsAreJobs(doc, its, das);
    scenarios := ExtractIts(doc, its, das, jobs, Parse);
    scenarios := ExtractDas(doc, its, das, jobs, Parse, scenarios);
  }

  /** Element `k` of the result is the image of element `k`. */
  lemma {:induction false} MapSeqAt<A, B>(f: A -> B, xs: seq<A>, k: nat)
    requires k < |xs|
    ensures MapSeq(f, xs)[k] == f(xs[k])
    decreases |xs|
  {
    var m: nat := |xs| - 1;
    var init := xs[..m];
    assert MapSeq(f, xs) == MapSeq(f, init) + [f(xs[m])];
    if k < m {
      assert init[k] == xs[k];
      MapSeqAt(f, init, k);
    }
  }

  // ---------------------------------------------------------------------------
  // Properties
  // ---------------------------------------------------------------------------

  /**
   * The scenarios follow the contents page: one per entry, in order, with
   * the entry's name; the ITS scenarios come first and are typed as such,
   * the Direct Actions after them; and every one is a good scenario.
   */
  lemma ScenariosFollowContents(doc: seq<string>)
    requires |doc| > 1
    ensures var (its, das) := Contents(doc);
      && |ScenariosOf(doc)| == |its| + |das|
      && (forall k :: 0 <= k < |its| + |das| ==> ScenariosOf(doc)[k].name == (its + das)[k].name)
      && (forall k :: 0 <= k < |its| + |das| ==>
            (ScenariosOf(doc)[k].scenarioType == DirectActionType <==> k >= |its|))
      && (forall k :: 0 <= k < |its| + |das| ==> GoodScenario(ScenariosOf(doc)[k]))
  {
    var its, das := Contents(doc).0, Contents(doc).1;
    var jobs := Jobs(doc, its, das);
    ParsedFollowsJobs(jobs);
    forall k | 0 <= k < |its| + |das|
      ensures jobs[k].name == (its + das)[k].name && (jobs[k].isDirectAction <==> k >= |its|)
    {
      assert jobs[k] == JobAt(doc, its, das, k);
    }
  }

  /** Each scenario carries its job's name, is a Direct Action exactly when its job is, and is a good scenario. */
  lemma ParsedFollowsJobs(js: seq<Job>)
    ensures forall k :: 0 <= k < |js| ==>
              && Parsed(js)[k].name == js[k].name
              && (Parsed(js)[k].scenarioType == DirectActionType <==> js[k].isDirectAction)
              && GoodScenario(Parsed(js)[k])
  {
    forall k | 0 <= k < |js|
      ensures Parsed(js)[k].name == js[k].name
      ensures Parsed(js)[k].scenarioType == DirectActionType <==> js[k].isDirectAction
      ensures GoodScenario(Parsed(js)[k])
    {
      MapSeqAt(Parse, js, k);
      ScenarioGood(js[k].name, js[k].text, js[k].isDirectAction);
    }
  }

  /**
   * The ranges tile the document: each one ends where the next one
   * starts, the last ITS scenario ending where the first Direct Action
   * starts; the last range ends at the end of the document or, when it is
   * a Direct Action, at the first page from its start that mentions
   * `RESILIENCE OPERATIONS` (other than page `-1`).
   */
  lemma RangesTile(doc: seq<string>, its: seq<Toc.TocItem>, das: seq<Toc.TocItem>)
    requires |doc| > 0
    ensures var rs := Ranges(doc, its, das);
      && (forall k :: 0 <= k < |rs| - 1 ==> rs[k].1 == rs[k + 1].0)
      && (|das| == 0 && |its| > 0 ==> rs[|rs| - 1].1 == |doc|)
      && (|das| > 0 ==>
            var start := FirstPage(das[|das| - 1]);
            var e := rs[|rs| - 1].1;
            || (e == |doc|
                && ((forall p :: start <= p < |doc| ==> !Contains(PageAt(doc, p), ResilienceOperations))
                    || (start == -1 && Contains(PageAt(doc, -1), ResilienceOperations))))
            || (start <= e < |doc| && e != -1 && Contains(PageAt(doc, e), ResilienceOperations)
                && forall p :: start <= p < e ==> !Contains(PageAt(doc, p), ResilienceOperations)))
  {
    var rs := Ranges(doc, its, das);
    forall k | 0 <= k < |rs| - 1
      ensures rs[k].1 == rs[k + 1].0
    {
      if k + 1 < |its| {
      } else if k + 1 == |its| {
        assert rs[k + 1] == DaRange(doc, das, 0);
      } else {
        assert rs[k] == DaRange(doc, das, k - |its|);
        assert rs[k + 1] == DaRange(doc, das, k + 1 - |its|);
      }
    }
    if |das| > 0 {
      var n := |das| - 1;
      assert rs[|rs| - 1] == DaRange(doc, das, n);
      FindPageSpec(doc, ResilienceOperations, FirstPage(das[n]));
    }
  }

  /**
   * When the first page of the last Direct Action already mentions
   * `RESILIENCE OPERATIONS`, its range is empty and its text is empty.
   */
  lemma LastDirectActionEmpty(doc: seq<string>, its: seq<Toc.TocItem>, das: seq<Toc.TocItem>)
    requires |doc| > 0 && |das| > 0
    requires 0 <= FirstPage(das[|das| - 1]) < |doc|
    requires Contains(doc[FirstPage(das[|das| - 1])], ResilienceOperations)
    ensures var r := Ranges(doc, its, das)[|its| + |das| - 1];
      r.0 == r.1 && RangeText(doc, r) == Normalize("")
  {
    var n := |das| - 1;
    assert Ranges(doc, its, das)[|its| + n] == DaRange(doc, das, n);
  }
}
