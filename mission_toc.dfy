/**
 * `getMissionPagesFromPdf`: the scan of the table-of-contents lines that
 * lists the ITS scenarios and the direct actions with their page numbers.
 *
 * Three banner lines drive two start indexes: "ITS SCENARIOS" opens the
 * scenario section, "ITS DIRECT ACTION" closes it and opens the direct-action
 * section, "RESILIENCE OPERATIONS" closes both. A closed index is the
 * `INFINITY` sentinel, written `None` here: no line index is above it. Every
 * line past an open index that ends in a page number is an entry; the two
 * closing banners also append an `END_MISSION` sentinel to the list they
 * close.
 */
module MissionToc {
  import opened Common
  import opened Text

  /** An entry of one of the two lists; `EndMission` is the `END_MISSION` sentinel with the banner's page. */
  datatype TocEntry = Mission(name: string, page: int) | EndMission(page: int)

  /** `int(...)` raised on the page number of a banner line (the line's index). */
  datatype TocError = BadPageNumber(line: nat)

  /** `{ "itsScenarioData": ..., "directActionsData": ... }`. */
  datatype MissionPages = MissionPages(itsScenarios: seq<TocEntry>, directActions: seq<TocEntry>)

  datatype Banner = ScenariosBanner | DirectActionBanner | ResilienceBanner

  function BannerText(b: Banner): string {
    match b
    case ScenariosBanner => "ITS SCENARIOS"
    case DirectActionBanner => "ITS DIRECT ACTION"
    case ResilienceBanner => "RESILIENCE OPERATIONS"
  }

  /** Which banner a line is, checked in the order mission_parser.py uses. */
  function BannerOf(line: string): Option<Banner> {
    if Contains(line, BannerText(ScenariosBanner)) then Some(ScenariosBanner)
    else if Contains(line, BannerText(DirectActionBanner)) then Some(DirectActionBanner)
    else if Contains(line, BannerText(ResilienceBanner)) then Some(ResilienceBanner)
    else None
  }

  /** `int(line.replace(banner, "").strip())`. */
  function BannerPage(line: string, b: Banner): Option<int> {
    ParseInt(Replace(line, BannerText(b), ""))
  }

  /** A banner line whose page number does not parse. */
  predicate BadBanner(line: string) {
    BannerOf(line).Some? && BannerPage(line, BannerOf(line).value).None?
  }

  // ---------------------------------------------------------------------------
  // The entry pattern ^(.+\s+)(\d+)$
  // ---------------------------------------------------------------------------

  /** Where `$` matches: the end of the line, or just before a final line feed. */
  function LineEnd(line: string): nat {
    if |line| > 0 && line[|line| - 1] == '\n' then |line| - 1 else |line|
  }

  /** The index of the first line feed, or `|line|` when there is none. */
  function FirstNewline(line: string): nat {
    match FindFrom(line, "\n", 0)
    case Some(i) => i
    case None => |line|
  }

  /**
   * `re.match(r"^(.+\s+)(\d+)$", line)`, giving the stripped first group
   * and the integer value of the second.
   */
  function EntryOf(line: string): Option<(string, int)> {
    var e := LineEnd(line);
    var q := DigitsBack(line, e);
    if q == e || q < 2 || !IsSpace(line[q - 1]) then None
    else
      var w := TrimBack(line, 0, q);
      var p := if w < 1 then 1 else w;
      DigitsBackSpec(line, e);
      if p <= FirstNewline(line) then Some((Strip(line[..q]), DigitsValue(line[q..e]))) else None
  }

  /**
   * `line` splits as the pattern demands: `line[..p]` is one or more
   * characters other than a line feed, `line[p..q]` one or more whitespace
   * characters, `line[q..e]` one or more digits, and `e` is where `$` matches.
   */
  predicate EntryShape(line: string, p: nat, q: nat, e: nat) {
    && 1 <= p < q < e <= |line|
    && (e == |line| || (e == |line| - 1 && line[e] == '\n'))
    && (forall k :: 0 <= k < p ==> line[k] != '\n')
    && AllSpace(line, p, q)
    && AllDigits(line[q..e])
  }

  /**
   * Every way the line can match the pattern gives the groups `EntryOf`
   * returns: the groups do not depend on how the regular-expression engine
   * backtracks.
   */
  lemma EntryOfComplete(line: string, p: nat, q: nat, e: nat)
    requires EntryShape(line, p, q, e)
    ensures EntryOf(line) == Some((Strip(line[..q]), DigitsValue(line[q..e])))
  {
    assert IsDigit(line[q..e][e - 1 - q]);
    assert e == LineEnd(line);
    DigitsBackBelow(line, e, q);
    DigitsBackSpec(line, e);
    assert IsSpace(line[q - 1]);
    assert DigitsBack(line, e) == q;
    TrimBackBelow(line, 0, q, p);
    assert p <= FirstNewline(line) by {
      if FindFrom(line, "\n", 0).Some? {
        var i := FindFrom(line, "\n", 0).value;
        assert line[i..i + 1] == "\n";
        assert line[i] == '\n';
      }
    }
  }

  /** When `EntryOf` finds an entry, the line matches the pattern with those groups. */
  lemma EntryOfSound(line: string)
    requires EntryOf(line).Some?
    ensures exists p: nat, q: nat, e: nat :: EntryShape(line, p, q, e) && EntryOf(line).value == (Strip(line[..q]), DigitsValue(line[q..e]))
  {
    var e := LineEnd(line);
    var q := DigitsBack(line, e);
    var w := TrimBack(line, 0, q);
    var p := if w < 1 then 1 else w;
    DigitsBackSpec(line, e);
    TrimBackSpec(line, 0, q);
    assert p <= FirstNewline(line);
    forall k | 0 <= k < p
      ensures line[k] != '\n'
    {
      assert !StartsAt(line, k, "\n");
      assert line[k..k + 1] == [line[k]];
    }
    assert AllSpace(line, p, q);
    assert EntryShape(line, p, q, e);
  }

  // ---------------------------------------------------------------------------
  // Lines, classified
  // ---------------------------------------------------------------------------

  /** What the scan needs to know about one line: its banner, the banner's page, and its entry. */
  datatype TocLine = TocLine(banner: Option<Banner>, bannerPage: Option<int>, entry: Option<(string, int)>)

  function Classify(line: string): TocLine {
    var b := BannerOf(line);
    TocLine(b, if b.Some? then BannerPage(line, b.value) else None, EntryOf(line))
  }

  function Classified(toc: seq<string>): (cs: seq<TocLine>)
    ensures |cs| == |toc|
  {
    if |toc| == 0 then [] else Classified(toc[..|toc| - 1]) + [Classify(toc[|toc| - 1])]
  }

  lemma {:induction false} ClassifiedAt(toc: seq<string>, i: nat)
    requires i < |toc|
    ensures Classified(toc)[i] == Classify(toc[i])
  {
    if i < |toc| - 1 {
      ClassifiedAt(toc[..|toc| - 1], i);
    }
  }

  /** A banner line whose page number does not parse. */
  predicate Bad(c: TocLine) {
    c.banner.Some? && c.bannerPage.None?
  }

  // ---------------------------------------------------------------------------
  // The two start indexes, described without the loop
  // ---------------------------------------------------------------------------

  /** `scenarioStartIndex` once the first `n` lines are read: the last banner, when it opens scenarios. */
  function ScenarioOpen(cs: seq<TocLine>, n: nat): (r: Option<nat>)
    requires n <= |cs|
    ensures r.Some? ==> r.value < n
  {
    if n == 0 then None
    else
      match cs[n - 1].banner
      case None => ScenarioOpen(cs, n - 1)
      case Some(ScenariosBanner) => Some(n - 1)
      case Some(_) => None
  }

  /** `directActionStartIndex` once the first `n` lines are read: the last closing banner, when it opens direct actions. */
  function DirectActionOpen(cs: seq<TocLine>, n: nat): (r: Option<nat>)
    requires n <= |cs|
    ensures r.Some? ==> r.value < n
  {
    if n == 0 then None
    else
      match cs[n - 1].banner
      case Some(DirectActionBanner) => Some(n - 1)
      case Some(ResilienceBanner) => None
      case _ => DirectActionOpen(cs, n - 1)
  }

  /** The scenario section is open at `j` exactly when line `j` is its banner and no banner follows it. */
  lemma {:induction false} ScenarioOpenSpec(cs: seq<TocLine>, n: nat, j: nat)
    requires n <= |cs|
    ensures ScenarioOpen(cs, n) == Some(j) <==>
      j < n && cs[j].banner == Some(ScenariosBanner) && forall k :: j < k < n ==> cs[k].banner.None?
  {
    if n > 0 {
      ScenarioOpenSpec(cs, n - 1, j);
    }
  }

  /**
   * The direct-action section is open at `j` exactly when line `j` is its
   * banner and no direct-action or resilience banner follows it.
   */
  lemma {:induction false} DirectActionOpenSpec(cs: seq<TocLine>, n: nat, j: nat)
    requires n <= |cs|
    ensures DirectActionOpen(cs, n) == Some(j) <==>
      j < n && cs[j].banner == Some(DirectActionBanner) &&
      forall k :: j < k < n ==> cs[k].banner.None? || cs[k].banner == Some(ScenariosBanner)
  {
    if n > 0 {
      DirectActionOpenSpec(cs, n - 1, j);
    }
  }

  /** When both indexes are set, the direct-action banner came first. */
  lemma {:induction false} StartsOrder(cs: seq<TocLine>, n: nat)
    requires n <= |cs|
    ensures ScenarioOpen(cs, n).Some? && DirectActionOpen(cs, n).Some? ==>
      DirectActionOpen(cs, n).value < ScenarioOpen(cs, n).value
  {
    if n > 0 {
      StartsOrder(cs, n - 1);
    }
  }

  /** Line `i` lies in the scenario section: past its banner, with no direct-action section open. */
  predicate InScenarios(cs: seq<TocLine>, i: nat)
    requires i < |cs|
  {
    var s := ScenarioOpen(cs, i + 1);
    s.Some? && s.value < i && DirectActionOpen(cs, i + 1).None?
  }

  /** Line `i` lies in the direct-action section: past its banner. */
  predicate InDirectActions(cs: seq<TocLine>, i: nat)
    requires i < |cs|
  {
    var d := DirectActionOpen(cs, i + 1);
    d.Some? && d.value < i
  }

  // ---------------------------------------------------------------------------
  // The two lists
  // ---------------------------------------------------------------------------

  /** The `END_MISSION` sentinel a line appends when it is banner `b`. */
  function Sentinel(c: TocLine, b: Banner): seq<TocEntry> {
    if c.banner == Some(b) && c.bannerPage.Some? then [EndMission(c.bannerPage.value)] else []
  }

  /** The entry a line appends when it lies in a section. */
  function EntryItem(c: TocLine, inSection: bool): seq<TocEntry> {
    if inSection && c.entry.Some? then [Mission(c.entry.value.0, c.entry.value.1)] else []
  }

  /** What line `i` appends to the scenario list. */
  function ScenarioItems(cs: seq<TocLine>, i: nat): seq<TocEntry>
    requires i < |cs|
  {
    Sentinel(cs[i], DirectActionBanner) + EntryItem(cs[i], InScenarios(cs, i))
  }

  /** What line `i` appends to the direct-action list. */
  function DirectActionItems(cs: seq<TocLine>, i: nat): seq<TocEntry>
    requires i < |cs|
  {
    Sentinel(cs[i], ResilienceBanner) + EntryItem(cs[i], InDirectActions(cs, i))
  }

  function ScenarioList(cs: seq<TocLine>, n: nat): seq<TocEntry>
    requires n <= |cs|
  {
    if n == 0 then [] else ScenarioList(cs, n - 1) + ScenarioItems(cs, n - 1)
  }

  function DirectActionList(cs: seq<TocLine>, n: nat): seq<TocEntry>
    requires n <= |cs|
  {
    if n == 0 then [] else DirectActionList(cs, n - 1) + DirectActionItems(cs, n - 1)
  }

  /** The first banner line from `i` on whose page number does not parse. */
  function FirstBad(cs: seq<TocLine>, i: nat): (r: Option<nat>)
    requires i <= |cs|
    ensures r.Some? ==> i <= r.value < |cs| && Bad(cs[r.value])
    ensures r.Some? ==> forall k :: i <= k < r.value ==> !Bad(cs[k])
    ensures r.None? ==> forall k :: i <= k < |cs| ==> !Bad(cs[k])
    decreases |cs| - i
  {
    if i == |cs| then None
    else if Bad(cs[i]) then Some(i)
    else FirstBad(cs, i + 1)
  }

  /** The result of the scan: an error at the first bad banner, or the two lists. */
  function Pages(cs: seq<TocLine>): Result<MissionPages, TocError> {
    match FirstBad(cs, 0)
    case Some(i) => Err(BadPageNumber(i))
    case None => Ok(MissionPages(ScenarioList(cs, |cs|), DirectActionList(cs, |cs|)))
  }

  // ---------------------------------------------------------------------------
  // The loop
  // ---------------------------------------------------------------------------

  /** The state after one line: the two start indexes and what the line appends to each list. */
  datatype LineScan = LineScan(scenarioStart: Option<nat>, directActionStart: Option<nat>, its: seq<TocEntry>, directActions: seq<TocEntry>)

  /** `i > start` where a closed start is above every index. */
  predicate Past(i: nat, start: Option<nat>) {
    start.Some? && i > start.value
  }

  /** `a < b` where a closed start is above every index. */
  predicate Earlier(a: Option<nat>, b: Option<nat>) {
    a.Some? && (b.None? || a.value < b.value)
  }

  /** The source's tests on the two start indexes pick the section `InScenarios`/`InDirectActions` name. */
  lemma SectionTests(cs: seq<TocLine>, i: nat)
    requires i < |cs|
    ensures var s := ScenarioOpen(cs, i + 1);
      var d := DirectActionOpen(cs, i + 1);
      && ((Past(i, s) || Past(i, d)) && Earlier(s, d) <==> InScenarios(cs, i))
      && ((Past(i, s) || Past(i, d)) && !Earlier(s, d) <==> InDirectActions(cs, i))
  {
    StartsOrder(cs, i + 1);
  }

  /** The body of the loop of `getMissionPagesFromPdf`, for line `i`. */
  method ReadTocLine(line: string, ghost cs: seq<TocLine>, i: nat, scenarioStart: Option<nat>, directActionStart: Option<nat>)
    returns (r: Result<LineScan, TocError>)
    requires i < |cs| && cs[i] == Classify(line)
    requires scenarioStart == ScenarioOpen(cs, i) && directActionStart == DirectActionOpen(cs, i)
    ensures r.Err? <==> Bad(cs[i])
    ensures r.Err? ==> r.error == BadPageNumber(i)
    ensures r.Ok? ==> r.value == LineScan(ScenarioOpen(cs, i + 1), DirectActionOpen(cs, i + 1),
      ScenarioItems(cs, i), DirectActionItems(cs, i))
  {
    var s := scenarioStart;
    var d := directActionStart;
    var its: seq<TocEntry> := [];
    var das: seq<TocEntry> := [];
    if Contains(line, BannerText(ScenariosBanner)) {
      s := Some(i);
      var page := ParseInt(Replace(line, BannerText(ScenariosBanner), ""));
      if page.None? {
        return Err(BadPageNumber(i));
      }
    } else if Contains(line, BannerText(DirectActionBanner)) {
      s := None;
      d := Some(i);
      var page := ParseInt(Replace(line, BannerText(DirectActionBanner), ""));
      if page.None? {
        return Err(BadPageNumber(i));
      }
      its := its + [EndMission(page.value)];
    } else if Contains(line, BannerText(ResilienceBanner)) {
      s := None;
      d := None;
      var page := ParseInt(Replace(line, BannerText(ResilienceBanner), ""));
      if page.None? {
        return Err(BadPageNumber(i));
      }
      das := das + [EndMission(page.value)];
    }
    assert s == ScenarioOpen(cs, i + 1) && d == DirectActionOpen(cs, i + 1);
    assert its == Sentinel(cs[i], DirectActionBanner) && das == Sentinel(cs[i], ResilienceBanner);
    SectionTests(cs, i);
    if Past(i, s) || Past(i, d) {
      var entry := EntryOf(line);
      if entry.Some? {
        if Earlier(s, d) {
          its := its + [Mission(entry.value.0, entry.value.1)];
        } else {
          das := das + [Mission(entry.value.0, entry.value.1)];
        }
      }
    }
    r := Ok(LineScan(s, d, its, das));
  }

  /** `getMissionPagesFromPdf` on the table-of-contents lines. */
  method GetMissionPages(toc: seq<string>) returns (r: Result<MissionPages, TocError>)
    ensures r == Pages(Classified(toc))
  {
    ghost var cs := Classified(toc);
    var scenarioStart: Option<nat> := None;
    var directActionStart: Option<nat> := None;
    var its: seq<TocEntry> := [];
    var das: seq<TocEntry> := [];
    var i := 0;
    while i < |toc|
      invariant i <= |toc|
      invariant scenarioStart == ScenarioOpen(cs, i) && directActionStart == DirectActionOpen(cs, i)
      invariant its == ScenarioList(cs, i) && das == DirectActionList(cs, i)
      invariant FirstBad(cs, 0) == FirstBad(cs, i)
    {
      ClassifiedAt(toc, i);
      var step := ReadTocLine(toc[i], cs, i, scenarioStart, directActionStart);
      if step.Err? {
        return Err(step.error);
      }
      scenarioStart := step.value.scenarioStart;
      directActionStart := step.value.directActionStart;
      its := its + step.value.its;
      das := das + step.value.directActions;
      i := i + 1;
    }
    r := Ok(MissionPages(its, das));
  }

  // ---------------------------------------------------------------------------
  // Properties
  // ---------------------------------------------------------------------------

  /**
   * The direct-action and resilience banner lines are never entries; the
   * scenario banner line is not a scenario entry, and it is a direct-action
   * entry when it ends in a page number and a direct-action section is open.
   */
  lemma BannerLines(cs: seq<TocLine>, i: nat)
    requires i < |cs| && cs[i].banner.Some?
    ensures !InScenarios(cs, i)
    ensures cs[i].banner.value != ScenariosBanner ==> !InDirectActions(cs, i)
    ensures cs[i].banner.value == ScenariosBanner ==> (InDirectActions(cs, i) <==> DirectActionOpen(cs, i).Some?)
  {
  }

  /** Line `i` puts `x` on the scenario list: a scenario-section entry, or the sentinel of a direct-action banner. */
  predicate ScenarioSource(cs: seq<TocLine>, i: nat, x: TocEntry)
    requires i < |cs|
  {
    match x
    case Mission(name, page) => InScenarios(cs, i) && cs[i].entry == Some((name, page))
    case EndMission(page) => cs[i].banner == Some(DirectActionBanner) && cs[i].bannerPage == Some(page)
  }

  /** Line `i` puts `x` on the direct-action list: a direct-action-section entry, or the sentinel of a resilience banner. */
  predicate DirectActionSource(cs: seq<TocLine>, i: nat, x: TocEntry)
    requires i < |cs|
  {
    match x
    case Mission(name, page) => InDirectActions(cs, i) && cs[i].entry == Some((name, page))
    case EndMission(page) => cs[i].banner == Some(ResilienceBanner) && cs[i].bannerPage == Some(page)
  }

  /**
   * The scenario list holds a mission exactly when a line of the scenario
   * section matches the entry pattern with that name and page, and an
   * `END_MISSION` sentinel exactly for each direct-action banner's page.
   */
  lemma {:induction false} ScenarioListSpec(cs: seq<TocLine>, n: nat, x: TocEntry)
    requires n <= |cs|
    ensures x in ScenarioList(cs, n) <==> exists i :: 0 <= i < n && ScenarioSource(cs, i, x)
  {
    if n > 0 {
      var m: nat := n - 1;
      ScenarioListSpec(cs, m, x);
      assert ScenarioList(cs, n) == ScenarioList(cs, m) + ScenarioItems(cs, m);
      assert x in ScenarioItems(cs, m) <==> ScenarioSource(cs, m, x);
      if ScenarioSource(cs, m, x) {
        assert exists i :: 0 <= i < n && ScenarioSource(cs, i, x);
      }
    }
  }

  /**
   * The direct-action list holds a mission exactly when a line of the
   * direct-action section matches the entry pattern with that name and page,
   * and an `END_MISSION` sentinel exactly for each resilience banner's page.
   */
  lemma {:induction false} DirectActionListSpec(cs: seq<TocLine>, n: nat, x: TocEntry)
    requires n <= |cs|
    ensures x in DirectActionList(cs, n) <==> exists i :: 0 <= i < n && DirectActionSource(cs, i, x)
  {
    if n > 0 {
      var m: nat := n - 1;
      DirectActionListSpec(cs, m, x);
      assert DirectActionList(cs, n) == DirectActionList(cs, m) + DirectActionItems(cs, m);
      assert x in DirectActionItems(cs, m) <==> DirectActionSource(cs, m, x);
      if DirectActionSource(cs, m, x) {
        assert exists i :: 0 <= i < n && DirectActionSource(cs, i, x);
      }
    }
  }

  /** No line is an entry of both lists. */
  lemma SectionsDisjoint(cs: seq<TocLine>, i: nat)
    requires i < |cs|
    ensures !(InScenarios(cs, i) && InDirectActions(cs, i))
  {
  }

  /** Entry names are stripped and entry pages are not negative. */
  lemma EntryClean(line: string)
    requires EntryOf(line).Some?
    ensures Stripped(EntryOf(line).value.0) && EntryOf(line).value.1 >= 0
  {
    StripSpec(line[..DigitsBack(line, LineEnd(line))]);
  }

  /**
   * A scenario banner met while a direct-action section is open does not
   * close that section: when the banner line ends in a page number, it is
   * recorded as a direct-action entry.
   */
  lemma ScenarioBannerAfterDirectActions(cs: seq<TocLine>, j: nat, i: nat, name: string, page: int)
    requires j < i < |cs| && cs[j].banner == Some(DirectActionBanner)
    requires forall k :: j < k < i ==> cs[k].banner.None? || cs[k].banner == Some(ScenariosBanner)
    requires cs[i].banner == Some(ScenariosBanner) && cs[i].entry == Some((name, page))
    ensures Mission(name, page) in DirectActionList(cs, |cs|)
  {
    DirectActionOpenSpec(cs, i + 1, j);
    assert DirectActionSource(cs, i, Mission(name, page));
    DirectActionListSpec(cs, |cs|, Mission(name, page));
  }
}
