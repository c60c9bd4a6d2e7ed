/**
 * `parse_table_of_contents` of `main.py`: the list of ITS scenarios and the
 * list of Direct Actions, each entry a name and the page it starts on.
 *
 * The text of the contents page is first collapsed to single spaces. The
 * ITS list is read from the text between `ITS SCENARIOS <page>` and
 * `ITS DIRECT ACTION`, the Direct Action list from the text between
 * `ITS DIRECT ACTION <page>` and `RESILIENCE OPERATIONS` or `CHANGELOG`;
 * in both, every `NAME <page>` pair whose stripped name is longer than
 * three characters is an entry, and three headings are never ITS entries.
 */
module Toc {
  import opened Common
  import opened Text
  import opened Regex

  /** One entry of a contents list: `{"name": name, "page": int(page)}`. */
  datatype TocItem = TocItem(name: string, page: nat)

  /** Headings that the ITS list never takes as scenarios. */
  const ExcludedNames: seq<string> := ["ITS SCENARIOS", "EXTRAS", "CLASSIFIED OBJECTIVES"]

  // ---------------------------------------------------------------------------
  // One entry
  // ---------------------------------------------------------------------------

  /**
   * What a `([A-Z][A-Z\s\-]+?)\s+(\d+)` match captures: a name of at least
   * two characters from `[A-Z\s\-]` starting with an upper-case letter, a
   * whitespace character right after it, then the page digits.
   */
  predicate EntryShape(s: string, m: Match) {
    && |m.groups| == 2
    && m.start == m.groups[0].lo
    && m.groups[0].lo + 2 <= m.groups[0].hi < m.groups[1].lo < m.groups[1].hi == m.end <= |s|
    && IsUpper(s[m.groups[0].lo])
    && (forall k :: m.groups[0].lo <= k < m.groups[0].hi ==> NameChar(s[k]))
    && IsSpace(s[m.groups[0].hi])
    && AllDigits(s[m.groups[1].lo..m.groups[1].hi])
  }

  lemma TocEntryShape(s: string, m: Match)
    requires Found(TocEntry, s, m)
    ensures EntryShape(s, m)
  {
    var i := m.start;
    assert TocEntryAt(s, i) == Some(m);
    var q := LazyName(s, i + 2).value;
    SkipSpacesSpec(s, q);
    assert SkipSpaces(s, q) > q;
    DigitsEndSpec(s, SkipSpaces(s, q));
  }

  /** The stripped name of an entry. */
  function EntryName(s: string, m: Match): string
    requires EntryShape(s, m)
  {
    Strip(Group(s, m.groups[0]))
  }

  /** The entry a match stands for: its stripped name and `int` of its digits. */
  function Item(s: string, m: Match): TocItem
    requires EntryShape(s, m)
  {
    TocItem(EntryName(s, m), DigitsValue(Group(s, m.groups[1])))
  }

  /** The filter of the ITS loop (`its`) or of the Direct Action loop. */
  predicate Keep(name: string, its: bool) {
    |name| > 3 && (its ==> name !in ExcludedNames)
  }

  // ---------------------------------------------------------------------------
  // The entry loops
  // ---------------------------------------------------------------------------

  /** The entries kept from the matches `ms`, in order. */
  function Entries(s: string, ms: seq<Match>, its: bool): seq<TocItem>
    requires forall m :: m in ms ==> EntryShape(s, m)
  {
    if |ms| == 0 then []
    else
      var last := ms[|ms| - 1];
      Entries(s, ms[..|ms| - 1], its) + (if Keep(EntryName(s, last), its) then [Item(s, last)] else [])
  }

  lemma EntriesNext(s: string, ms: seq<Match>, k: nat, its: bool)
    requires k < |ms|
    requires forall m :: m in ms ==> EntryShape(s, m)
    ensures Entries(s, ms[..k + 1], its)
         == Entries(s, ms[..k], its) + (if Keep(EntryName(s, ms[k]), its) then [Item(s, ms[k])] else [])
  {
    assert ms[..k + 1][..k] == ms[..k];
  }

  /** Every `TocEntry` match of `s`, left to right. */
  function EntryMatches(s: string): (ms: seq<Match>)
    ensures forall m :: m in ms ==> EntryShape(s, m)
  {
    var ms := FindAll(TocEntry, s, 0);
    FindAllSpec(TocEntry, s, 0);
    forall m | m in ms
      ensures EntryShape(s, m)
    {
      TocEntryShape(s, m);
    }
    ms
  }

  /** The loop over `re.findall(r'([A-Z][A-Z\s\-]+?)\s+(\d+)', section)`. */
  method CollectEntries(section: string, its: bool) returns (items: seq<TocItem>)
    ensures items == Entries(section, EntryMatches(section), its)
  {
    var ms := EntryMatches(section);
    items := [];
    for k := 0 to |ms|
      invariant items == Entries(section, ms[..k], its)
    {
      items := AddEntry(section, ms[k], its, items);
      EntriesNext(section, ms, k, its);
    }
    assert ms[..|ms|] == ms;
  }

  /** The loop body: strip the name, and append the entry when it passes the filter. */
  method AddEntry(section: string, m: Match, its: bool, items: seq<TocItem>) returns (r: seq<TocItem>)
    requires EntryShape(section, m)
    ensures r == items + (if Keep(EntryName(section, m), its) then [Item(section, m)] else [])
  {
    r := items;
    var name := Strip(Group(section, m.groups[0]));
    if Keep(name, its) {
      r := items + [TocItem(name, DigitsValue(Group(section, m.groups[1])))];
    }
  }

  // ---------------------------------------------------------------------------
  // The whole contents page
  // ---------------------------------------------------------------------------

  /** `toc_text` with every whitespace run turned into one space. */
  function Normalized(toc: string): string {
    CollapseSpaces(toc)
  }

  /** The two groups of a section match: its page number and its list text. */
  lemma SectionShape(at: Matcher, s: string, m: Match)
    requires at == ItsSection || at == DirectActionSection
    requires Found(at, s, m)
    ensures |m.groups| == 2 && m.groups[1].lo <= m.groups[1].hi <= |s|
  {
    assert m.groups[1] in m.groups;
  }

  /** The list text of the section `at` finds, when it finds one. */
  function SectionText(at: Matcher, s: string): Option<string>
    requires at == ItsSection || at == DirectActionSection
  {
    match Search(at, s)
    case None => None
    case Some(m) =>
      SectionShape(at, s, m);
      Some(Group(s, m.groups[1]))
  }

  /** The entries of one section: none when the section is missing. */
  function SectionEntries(at: Matcher, s: string, its: bool): seq<TocItem>
    requires at == ItsSection || at == DirectActionSection
  {
    match SectionText(at, s)
    case None => []
    case Some(section) => Entries(section, EntryMatches(section), its)
  }

  /** `parse_table_of_contents`: the ITS scenarios and the Direct Actions. */
  function TableOfContents(toc: string): (seq<TocItem>, seq<TocItem>) {
    var s := Normalized(toc);
    (SectionEntries(ItsSection, s, true), SectionEntries(DirectActionSection, s, false))
  }

  /** `parse_table_of_contents`, loop by loop. */
  method ParseTableOfContents(toc: string) returns (itsScenarios: seq<TocItem>, directActions: seq<TocItem>)
    ensures (itsScenarios, directActions) == TableOfContents(toc)
  {
    itsScenarios := [];
    directActions := [];
    var s := CollapseSpaces(toc);
    var itsMatch := SectionText(ItsSection, s);
    if itsMatch.Some? {
      itsScenarios := CollectEntries(itsMatch.value, true);
    }
    var daMatch := SectionText(DirectActionSection, s);
    if daMatch.Some? {
      directActions := CollectEntries(daMatch.value, false);
    }
  }

  // ---------------------------------------------------------------------------
  // Properties
  // ---------------------------------------------------------------------------

  /** An entry is kept exactly when one of the matches yields it and passes the filter. */
  lemma {:induction false} EntriesSpec(s: string, ms: seq<Match>, its: bool)
    requires forall m :: m in ms ==> EntryShape(s, m)
    ensures forall item :: item in Entries(s, ms, its) ==>
              exists m :: m in ms && Keep(EntryName(s, m), its) && item == Item(s, m)
    ensures forall m :: m in ms && Keep(EntryName(s, m), its) ==> Item(s, m) in Entries(s, ms, its)
    decreases |ms|
  {
    if |ms| > 0 {
      var init := ms[..|ms| - 1];
      var last := ms[|ms| - 1];
      EntriesSpec(s, init, its);
      assert ms == init + [last];
      forall item | item in Entries(s, ms, its)
        ensures exists m :: m in ms && Keep(EntryName(s, m), its) && item == Item(s, m)
      {
        if item !in Entries(s, init, its) {
          assert item == Item(s, last) && last in ms;
        }
      }
    }
  }

  /** What an entry's name looks like: its text from the name class, starting upper-case. */
  predicate NameShape(name: string) {
    && |name| > 0
    && IsUpper(name[0])
    && (forall k :: 0 <= k < |name| ==> NameChar(name[k]))
    && Stripped(name)
  }

  /** A kept entry's name has the name shape; in single-spaced text it has no line break and `strip` leaves it as captured. */
  lemma ItemName(s: string, m: Match)
    requires EntryShape(s, m)
    ensures NameShape(EntryName(s, m))
    ensures SingleSpaced(s) ==> EntryName(s, m) == Group(s, m.groups[0]) && SingleSpaced(EntryName(s, m))
  {
    var g := Group(s, m.groups[0]);
    var lo, hi := m.groups[0].lo, m.groups[0].hi;
    StripSpec(g);
    assert g[0] == s[lo];
    var a, b := StripStart(g), StripEnd(g);
    assert a == 0;
    assert |g| > 0 && !IsSpace(g[0]);
    assert Strip(g) == g[0..b];
    assert b > 0;
    forall k | 0 <= k < |Strip(g)|
      ensures NameChar(Strip(g)[k])
    {
      assert Strip(g)[k] == s[lo + k];
    }
    if SingleSpaced(s) {
      assert s[hi] == ' ' && !IsSpace(s[hi - 1]);
      assert g[|g| - 1] == s[hi - 1];
      assert Stripped(g);
      SliceSingleSpaced(s, lo, hi);
    }
  }

  /**
   * Every ITS scenario and Direct Action of the contents page passes its
   * filter and has the name shape; the names hold no line break, the page
   * text having been collapsed to single spaces.
   */
  lemma TableOfContentsNames(toc: string)
    ensures forall item :: item in TableOfContents(toc).0 ==>
              Keep(item.name, true) && NameShape(item.name) && SingleSpaced(item.name)
    ensures forall item :: item in TableOfContents(toc).1 ==>
              Keep(item.name, false) && NameShape(item.name) && SingleSpaced(item.name)
  {
    var s := Normalized(toc);
    SectionNames(ItsSection, s, true);
    SectionNames(DirectActionSection, s, false);
  }

  lemma SectionNames(at: Matcher, s: string, its: bool)
    requires at == ItsSection || at == DirectActionSection
    requires SingleSpaced(s)
    ensures forall item :: item in SectionEntries(at, s, its) ==>
              Keep(item.name, its) && NameShape(item.name) && SingleSpaced(item.name)
  {
    match SectionText(at, s)
    case None =>
    case Some(section) =>
      var m := Search(at, s).value;
      SectionShape(at, s, m);
      SliceSingleSpaced(s, m.groups[1].lo, m.groups[1].hi);
      var ms := EntryMatches(section);
      EntriesSpec(section, ms, its);
      forall item | item in Entries(section, ms, its)
        ensures Keep(item.name, its) && NameShape(item.name) && SingleSpaced(item.name)
      {
        var n :| n in ms && Keep(EntryName(section, n), its) && item == Item(section, n);
        ItemName(section, n);
      }
  }

  /** A contents page without an `ITS SCENARIOS <page>` section yields no ITS scenario, and likewise for Direct Actions. */
  lemma MissingSections(toc: string)
    ensures Search(ItsSection, Normalized(toc)).None? ==> TableOfContents(toc).0 == []
    ensures Search(DirectActionSection, Normalized(toc)).None? ==> TableOfContents(toc).1 == []
  {
  }
}
