/**
 * `getBlocksFromPages` of `mission_parser.py`: every page is scanned line by
 * line; an all-caps line (or the page's last line) closes the block opened by
 * the previous header and opens a new one, and one of the four skill
 * sub-headers splits a block's body into keyed sections.
 */
module MissionBlocks {
  import opened Common
  import opened Text
  import opened StringUtils
  import OrderedDict

  /** `TextBlock.content`: a text body, or a dict from sub-header key to text. */
  datatype Content = Plain(text: string) | Sections(entries: seq<(string, string)>)

  /** `len(content)`: characters of a text body, entries of a sectioned one. */
  function Size(c: Content): nat {
    match c
    case Plain(t) => |t|
    case Sections(es) => |es|
  }

  datatype TextBlock = TextBlock(key: string, content: Content, pageIndex: int)

  /**
   * The only failure of the scan: a page's closing last line is reached while
   * no header has been seen on that page, and the `INFINITY` sentinel is used
   * as a line index.
   */
  datatype BlockError = NoHeaderIndex(page: nat)

  const SkillSubheaders: seq<string> := ["short skill", "long skill", "requirements", "effects"]

  /** Python's `str.isupper()` on ASCII: some upper-case letter and no lower-case one. */
  predicate IsUpperLine(line: string) {
    CountUpper(line) > 0 && CountLower(line) == 0
  }

  /** The trimmed lower-case line is one of the skill sub-headers. */
  predicate IsSubheader(line: string) {
    Strip(Lower(line)) in SkillSubheaders
  }

  predicate Increasing(xs: seq<nat>) {
    forall a, b :: 0 <= a < b < |xs| ==> xs[a] < xs[b]
  }

  predicate Below(xs: seq<nat>, n: nat) {
    forall a :: 0 <= a < |xs| ==> xs[a] < n
  }

  function LastOf(xs: seq<nat>): Option<nat> {
    if |xs| == 0 then None else Some(xs[|xs| - 1])
  }

  // ---------------------------------------------------------------------------
  // Sections of a block
  // ---------------------------------------------------------------------------

  /** Where sub-section `j` ends: at the next sub-header, or at `stop` for the last one. */
  function SubEnd(subHeads: seq<nat>, j: nat, stop: nat): nat
    requires j < |subHeads|
  {
    if j < |subHeads| - 1 then subHeads[j + 1] else stop
  }

  /** One assignment of the inner `for` loop: the key of sub-header line `shi` and the lines after it up to `end`. */
  function Section(lines: seq<string>, shi: nat, end: nat): (string, string)
    requires shi < end <= |lines|
  {
    (ToKey(lines[shi]), LinesToContent(lines[shi + 1..end]))
  }

  /**
   * The assignment made for sub-header `t`: its section runs up to the next
   * sub-header, or up to `stop` for the last one.
   */
  function SectionPair(lines: seq<string>, subHeads: seq<nat>, stop: nat, t: nat): (string, string)
    requires Increasing(subHeads) && Below(subHeads, stop) && stop <= |lines| && t < |subHeads|
  {
    Section(lines, subHeads[t], SubEnd(subHeads, t, stop))
  }

  /** All the assignments of the inner `for` loop, in order. */
  function SectionPairs(lines: seq<string>, subHeads: seq<nat>, stop: nat): (ps: seq<(string, string)>)
    requires Increasing(subHeads) && Below(subHeads, stop) && stop <= |lines|
    ensures |ps| == |subHeads|
  {
    seq(|subHeads|, t requires 0 <= t < |subHeads| => SectionPair(lines, subHeads, stop, t))
  }

  /** One more assignment of the inner loop extends the dict built so far by the section of sub-header `t`. */
  lemma SectionPairsStep(lines: seq<string>, subHeads: seq<nat>, stop: nat, t: nat, end: nat, key: string, text: string)
    requires Increasing(subHeads) && Below(subHeads, stop) && stop <= |lines| && t < |subHeads|
    requires end == SubEnd(subHeads, t, stop) && (key, text) == Section(lines, subHeads[t], end)
    ensures OrderedDict.FromPairs(SectionPairs(lines, subHeads, stop)[..t + 1])
      == OrderedDict.Put(OrderedDict.FromPairs(SectionPairs(lines, subHeads, stop)[..t]), key, text)
  {
    var pairs := SectionPairs(lines, subHeads, stop);
    assert pairs[t] == SectionPair(lines, subHeads, stop, t);
    OrderedDict.FromPairsSnoc(pairs, t, key, text);
  }

  // ---------------------------------------------------------------------------
  // The line scan of one page
  // ---------------------------------------------------------------------------

  /**
   * The loop state of one page: `lastHeaderIndex` (`None` for `INFINITY`),
   * `subHeadIndexes`, the variable `i` (the page index, which the section loop
   * overwrites), and the blocks this page has produced so far.
   */
  datatype Scan = Scan(lastHeader: Option<nat>, subHeads: seq<nat>, pageVar: int, blocks: seq<TextBlock>)

  predicate ValidScan(st: Scan, n: nat) {
    Increasing(st.subHeads) && Below(st.subHeads, n) && (st.lastHeader.Some? ==> st.lastHeader.value < n)
  }

  /**
   * The content of the block whose header is line `h` and which ends before
   * `stop`: the sections keyed by sub-header when there are any, the joined
   * text otherwise.
   */
  function BlockContent(lines: seq<string>, h: nat, subHeads: seq<nat>, stop: nat): Content
    requires h < stop <= |lines| && Increasing(subHeads) && Below(subHeads, stop)
  {
    if |subHeads| > 0 then Sections(OrderedDict.FromPairs(SectionPairs(lines, subHeads, stop)))
    else Plain(LinesToContent(lines[h + 1..stop]))
  }

  /** An empty text body is stored as an empty dict. */
  function EmptyAsDict(c: Content): Content {
    if c.Plain? && |c.text| == 0 then Sections([]) else c
  }

  /** Where the block closed at trigger line `n` ends: the page's last line belongs to the block. */
  function BlockEnd(lines: seq<string>, n: nat): nat {
    if n == |lines| - 1 then n + 1 else n
  }

  /**
   * The block that header line `h` closes at trigger line `n`, and the value
   * `i` is left with: with sub-headers pending, the section loop leaves the
   * last sub-header's position in `i`, which the block's `page_index` then uses.
   */
  function NewBlock(lines: seq<string>, n: nat, h: nat, subHeads: seq<nat>, pageVar: int, base: int): (TextBlock, int)
    requires h < n < |lines| && Increasing(subHeads) && Below(subHeads, n)
  {
    var stop := BlockEnd(lines, n);
    var pageVar' := if |subHeads| > 0 then |subHeads| - 1 else pageVar;
    (TextBlock(ToKey(lines[h]), EmptyAsDict(BlockContent(lines, h, subHeads, stop)), base + pageVar'), pageVar')
  }

  /**
   * How the scan treats line `n`: lines that are neither all caps nor the
   * page's last line are body text; the others are sub-headers when their
   * trimmed lower-case form is a skill sub-header, and headers otherwise.
   */
  datatype LineKind = Body | SubheaderLine | HeaderLine

  function Kind(lines: seq<string>, n: nat): LineKind
    requires n < |lines|
  {
    if !(IsUpperLine(lines[n]) || n == |lines| - 1) then Body
    else if IsSubheader(lines[n]) then SubheaderLine
    else HeaderLine
  }

  /** One iteration of the line loop, on line `n` of page `page`. */
  function LineStep(lines: seq<string>, n: nat, st: Scan, base: int, page: nat): (r: Result<Scan, BlockError>)
    requires n < |lines| && ValidScan(st, n)
    ensures r.Ok? ==> ValidScan(r.value, n + 1)
    ensures r.Err? <==> n == |lines| - 1 && Kind(lines, n) == HeaderLine && st.lastHeader.None?
  {
    var isLast := n == |lines| - 1;
    match Kind(lines, n)
    case Body => Ok(st)
    case SubheaderLine => Ok(st.(subHeads := st.subHeads + [n]))
    case HeaderLine =>
      if !((st.lastHeader.Some? && n > st.lastHeader.value) || isLast) then Ok(st.(lastHeader := Some(n)))
      else if st.lastHeader.None? then Err(NoHeaderIndex(page))
      else
        var (block, pageVar) := NewBlock(lines, n, st.lastHeader.value, st.subHeads, st.pageVar, base);
        Ok(Scan(Some(n), st.subHeads, pageVar, st.blocks + [block]))
  }

  /** The state after the first `n` lines of the page. */
  function ScanLines(lines: seq<string>, page: nat, base: int, n: nat): (r: Result<Scan, BlockError>)
    requires n <= |lines|
    ensures r.Ok? ==> ValidScan(r.value, n)
  {
    if n == 0 then Ok(Scan(None, [], page, []))
    else
      match ScanLines(lines, page, base, n - 1)
      case Err(e) => Err(e)
      case Ok(st) => LineStep(lines, n - 1, st, base, page)
  }

  lemma ScanLinesNext(lines: seq<string>, page: nat, base: int, n: nat)
    requires n < |lines| && ScanLines(lines, page, base, n).Ok?
    ensures ScanLines(lines, page, base, n + 1) == LineStep(lines, n, ScanLines(lines, page, base, n).value, base, page)
  {
  }

  /** The blocks of one page, computed from that page's lines alone. */
  function PageBlocks(lines: seq<string>, page: nat, base: int): Result<seq<TextBlock>, BlockError> {
    match ScanLines(lines, page, base, |lines|)
    case Err(e) => Err(e)
    case Ok(st) => Ok(st.blocks)
  }

  /** The pages' blocks in page order, or the first page's failure. */
  function Concat(results: seq<Result<seq<TextBlock>, BlockError>>): Result<seq<TextBlock>, BlockError> {
    if |results| == 0 then Ok([])
    else
      match Concat(results[..|results| - 1])
      case Err(e) => Err(e)
      case Ok(bs) =>
        match results[|results| - 1]
        case Err(e) => Err(e)
        case Ok(pbs) => Ok(bs + pbs)
  }

  function PageResults(pages: seq<seq<string>>, base: int): (rs: seq<Result<seq<TextBlock>, BlockError>>)
    ensures |rs| == |pages|
  {
    seq(|pages|, k requires 0 <= k < |pages| => PageBlocks(pages[k], k, base))
  }

  function BlocksFromPages(pages: seq<seq<string>>, base: int): Result<seq<TextBlock>, BlockError> {
    Concat(PageResults(pages, base))
  }

  /** Once a page fails, the whole document fails with that page's error. */
  lemma {:induction false} ErrorSticks(results: seq<Result<seq<TextBlock>, BlockError>>, p: nat)
    requires p <= |results|
    requires Concat(results[..p]).Err?
    ensures Concat(results) == Concat(results[..p])
    decreases |results|
  {
    if |results| > p {
      var front := results[..|results| - 1];
      assert front[..p] == results[..p];
      ErrorSticks(front, p);
    } else {
      assert results[..p] == results;
    }
  }

  /** `getBlocksFromPages(pages, basePageNum)`, each page already split into lines. */
  method GetBlocksFromPages(pages: seq<seq<string>>, basePageNum: int) returns (r: Result<seq<TextBlock>, BlockError>)
    ensures r == BlocksFromPages(pages, basePageNum)
  {
    ghost var results := PageResults(pages, basePageNum);
    var blocks: seq<TextBlock> := [];
    var p := 0;
    while p < |pages|
      invariant 0 <= p <= |pages|
      invariant Concat(results[..p]) == Ok(blocks)
    {
      var page := ScanPage(pages[p], p, basePageNum);
      assert results[..p + 1][..p] == results[..p];
      assert page == results[p];
      if page.Err? {
        ErrorSticks(results, p + 1);
        return page;
      }
      blocks := blocks + page.value;
      p := p + 1;
    }
    assert results[..p] == results;
    r := Ok(blocks);
  }

  /** The body of the page loop: the line scan of page `page`, or the failure that ends the document. */
  method ScanPage(lines: seq<string>, page: nat, basePageNum: int) returns (r: Result<seq<TextBlock>, BlockError>)
    ensures r == PageBlocks(lines, page, basePageNum)
  {
    var st := Scan(None, [], page, []);
    var n: nat := 0;
    while n < |lines|
      invariant 0 <= n <= |lines|
      invariant ScanLines(lines, page, basePageNum, n) == Ok(st)
    {
      var next := ScanLine(lines, n, st, basePageNum, page);
      if next.Err? {
        return Err(next.error);
      }
      st := next.value;
      n := n + 1;
    }
    r := Ok(st.blocks);
  }

  /**
   * One iteration of the line loop on the loop state (`lastHeaderIndex`,
   * `subHeadIndexes`, `i`, and the page's blocks).
   */
  method ScanLine(lines: seq<string>, n: nat, st: Scan, basePageNum: int, page: nat) returns (r: Result<Scan, BlockError>)
    requires n < |lines| && ScanLines(lines, page, basePageNum, n) == Ok(st)
    ensures r == ScanLines(lines, page, basePageNum, n + 1)
    ensures r.Err? ==> n + 1 == |lines|
  {
    ScanLinesNext(lines, page, basePageNum, n);
    var lastHeader, subHeads, i, blocks := st.lastHeader, st.subHeads, st.pageVar, st.blocks;
    var line := lines[n];
    var isLast := |lines| - 1 == n;
    if IsUpperLine(line) || isLast {
      if !IsSubheader(line) {
        assert Kind(lines, n) == HeaderLine;
        if (lastHeader.Some? && n > lastHeader.value) || isLast {
          if lastHeader.None? {
            // lines[INFINITY]: the page closes without any header
            return Err(NoHeaderIndex(page));
          }
          var block;
          block, i := BuildBlock(lines, n, lastHeader.value, subHeads, i, basePageNum);
          blocks := blocks + [block];
        }
        lastHeader := Some(n);
      } else {
        assert Kind(lines, n) == SubheaderLine;
        subHeads := subHeads + [n];
      }
    } else {
      assert Kind(lines, n) == Body;
    }
    r := Ok(Scan(lastHeader, subHeads, i, blocks));
  }

  /** The inner `for` loop over the pending sub-headers, which reuses the variable `i`. */
  method CollectSections(lines: seq<string>, subHeads: seq<nat>, stop: nat, isLast: bool, lineNum: nat)
    returns (d: seq<(string, string)>, i: int)
    requires Increasing(subHeads) && Below(subHeads, stop) && stop <= |lines| && |subHeads| > 0
    requires stop == lineNum + (if isLast then 1 else 0)
    ensures d == OrderedDict.FromPairs(SectionPairs(lines, subHeads, stop))
    ensures i == |subHeads| - 1
  {
    ghost var pairs := SectionPairs(lines, subHeads, stop);
    var cnt := |subHeads|;
    d := [];
    i := 0;
    assert pairs[..0] == [];
    while i < cnt
      invariant 0 <= i <= cnt
      invariant d == OrderedDict.FromPairs(pairs[..i])
    {
      var shi := subHeads[i];
      var end := lineNum + (if isLast then 1 else 0);
      if i < cnt - 1 {
        end := subHeads[i + 1];
      }
      var (key, text) := Section(lines, shi, end);
      SectionPairsStep(lines, subHeads, stop, i, end, key, text);
      d := OrderedDict.Put(d, key, text);
      i := i + 1;
    }
    assert pairs[..cnt] == pairs;
    i := cnt - 1;
  }

  /** The body of the line loop that builds a block and the value it leaves in `i`. */
  method BuildBlock(lines: seq<string>, n: nat, h: nat, subHeads: seq<nat>, i0: int, basePageNum: int)
    returns (block: TextBlock, i: int)
    requires h < n < |lines| && Increasing(subHeads) && Below(subHeads, n)
    ensures (block, i) == NewBlock(lines, n, h, subHeads, i0, basePageNum)
  {
    i := i0;
    var isLast := |lines| - 1 == n;
    var content: Content;
    var stop := n + (if isLast then 1 else 0);
    if |subHeads| > 0 {
      var d;
      d, i := CollectSections(lines, subHeads, stop, isLast, n);
      content := Sections(d);
    } else {
      content := Plain(LinesToContent(lines[h + 1..stop]));
    }
    assert stop == BlockEnd(lines, n);
    assert content == BlockContent(lines, h, subHeads, stop);
    var key := ToKey(lines[h]);
    if content.Plain? && |content.text| == 0 {
      content := Sections([]);
    }
    assert content == EmptyAsDict(BlockContent(lines, h, subHeads, stop));
    block := TextBlock(key, content, basePageNum + i);
    ghost var expected := NewBlock(lines, n, h, subHeads, i0, basePageNum);
    assert expected.1 == i;
    assert expected.0.key == key;
    assert expected.0.content == content;
    assert expected.0.pageIndex == block.pageIndex;
  }

  // ---------------------------------------------------------------------------
  // What the scan of one page computes
  // ---------------------------------------------------------------------------

  /** The header lines before `n`, in order. */
  function HeaderLines(lines: seq<string>, n: nat): (heads: seq<nat>)
    requires n <= |lines|
    ensures Below(heads, n)
  {
    if n == 0 then []
    else HeaderLines(lines, n - 1) + (if Kind(lines, n - 1) == HeaderLine then [n - 1] else [])
  }

  /** The sub-header lines before `n`, in order. */
  function SubheaderLines(lines: seq<string>, n: nat): seq<nat>
    requires n <= |lines|
  {
    if n == 0 then []
    else SubheaderLines(lines, n - 1) + (if Kind(lines, n - 1) == SubheaderLine then [n - 1] else [])
  }

  /** The loop state agrees with the header and sub-header lines before `n`. */
  predicate Tracks(lines: seq<string>, n: nat, st: Scan)
    requires n <= |lines|
  {
    var heads := HeaderLines(lines, n);
    && st.lastHeader == LastOf(heads)
    && st.subHeads == SubheaderLines(lines, n)
    && |st.blocks| == (if |heads| == 0 then 0 else |heads| - 1)
  }

  /** One line keeps the state in agreement, or fails on a last line with no header before it. */
  lemma LineStepTracks(lines: seq<string>, n: nat, st: Scan, base: int, page: nat)
    requires n < |lines| && ValidScan(st, n) && Tracks(lines, n, st)
    ensures LineStep(lines, n, st, base, page).Ok? ==> Tracks(lines, n + 1, LineStep(lines, n, st, base, page).value)
  {
    var r := LineStep(lines, n, st, base, page);
    var heads := HeaderLines(lines, n);
    assert st.lastHeader.None? <==> |heads| == 0;
    if Kind(lines, n) == Body {
      assert r == Ok(st);
      assert HeaderLines(lines, n + 1) == heads;
      assert SubheaderLines(lines, n + 1) == SubheaderLines(lines, n);
    } else if Kind(lines, n) == SubheaderLine {
      assert r == Ok(st.(subHeads := st.subHeads + [n]));
      assert HeaderLines(lines, n + 1) == heads;
      assert SubheaderLines(lines, n + 1) == SubheaderLines(lines, n) + [n];
    } else {
      assert HeaderLines(lines, n + 1) == heads + [n];
      assert SubheaderLines(lines, n + 1) == SubheaderLines(lines, n);
      if st.lastHeader.None? {
        assert r.Ok? ==> r.value.blocks == st.blocks;
      } else {
        assert r.Ok? ==> |r.value.blocks| == |st.blocks| + 1;
      }
    }
  }

  /**
   * After the first `n` lines, `lastHeaderIndex` is the last header line seen,
   * `subHeadIndexes` holds every sub-header line seen on the page (it is never
   * cleared when a block is emitted), and there is one block less than there
   * are header lines. The scan fails only at the page's last line, when it is
   * not a sub-header and no header came before it.
   */
  lemma {:induction false} ScanTracksLines(lines: seq<string>, page: nat, base: int, n: nat)
    requires n <= |lines|
    ensures ScanLines(lines, page, base, n).Err? <==>
      0 < n == |lines| && Kind(lines, n - 1) == HeaderLine && |HeaderLines(lines, n - 1)| == 0
    ensures ScanLines(lines, page, base, n).Ok? ==> Tracks(lines, n, ScanLines(lines, page, base, n).value)
  {
    if n > 0 {
      ScanTracksLines(lines, page, base, n - 1);
      var prev := ScanLines(lines, page, base, n - 1);
      if prev.Ok? {
        ScanLinesNext(lines, page, base, n - 1);
        LineStepTracks(lines, n - 1, prev.value, base, page);
        assert prev.value.lastHeader.None? <==> |HeaderLines(lines, n - 1)| == 0;
      }
    }
  }

  /** Block `j` is keyed by the header on line `heads[j]`. */
  predicate KeyedBy(blocks: seq<TextBlock>, lines: seq<string>, heads: seq<nat>)
    requires Below(heads, |lines|)
  {
    forall j :: 0 <= j < |blocks| && j < |heads| ==> blocks[j].key == ToKey(lines[heads[j]])
  }

  /** Block `j` of the page is keyed by header line `j`: the header that opened it. */
  predicate KeysTrack(lines: seq<string>, n: nat, st: Scan)
    requires n <= |lines|
  {
    KeyedBy(st.blocks, lines, HeaderLines(lines, n))
  }

  /** A new header line that closes no block keeps the keying. */
  lemma KeyedByHeader(blocks: seq<TextBlock>, lines: seq<string>, heads: seq<nat>, n: nat)
    requires Below(heads, |lines|) && n < |lines| && |blocks| <= |heads|
    requires KeyedBy(blocks, lines, heads)
    ensures KeyedBy(blocks, lines, heads + [n])
  {
    forall j | 0 <= j < |blocks| && j < |heads| + 1
      ensures blocks[j].key == ToKey(lines[(heads + [n])[j]])
    {
      assert (heads + [n])[j] == heads[j];
    }
  }

  /** The block a new header closes is keyed by the previous header. */
  lemma KeyedByClose(blocks: seq<TextBlock>, b: TextBlock, lines: seq<string>, heads: seq<nat>, n: nat)
    requires Below(heads, |lines|) && n < |lines| && |blocks| + 1 == |heads|
    requires KeyedBy(blocks, lines, heads)
    requires b.key == ToKey(lines[heads[|heads| - 1]])
    ensures KeyedBy(blocks + [b], lines, heads + [n])
  {
    forall j | 0 <= j < |blocks| + 1 && j < |heads| + 1
      ensures (blocks + [b])[j].key == ToKey(lines[(heads + [n])[j]])
    {
      assert (heads + [n])[j] == heads[j];
      if j < |blocks| {
        assert (blocks + [b])[j] == blocks[j];
      }
    }
  }

  lemma LineStepKeys(lines: seq<string>, n: nat, st: Scan, base: int, page: nat)
    requires n < |lines| && ValidScan(st, n) && Tracks(lines, n, st) && KeysTrack(lines, n, st)
    ensures LineStep(lines, n, st, base, page).Ok? ==> KeysTrack(lines, n + 1, LineStep(lines, n, st, base, page).value)
  {
    var r := LineStep(lines, n, st, base, page);
    var heads := HeaderLines(lines, n);
    if r.Ok? {
      if Kind(lines, n) != HeaderLine {
        assert HeaderLines(lines, n + 1) == heads;
        assert r.value.blocks == st.blocks;
      } else if st.lastHeader.None? {
        assert HeaderLines(lines, n + 1) == heads + [n];
        assert r.value.blocks == st.blocks;
        KeyedByHeader(st.blocks, lines, heads, n);
      } else {
        assert HeaderLines(lines, n + 1) == heads + [n];
        var b := NewBlock(lines, n, st.lastHeader.value, st.subHeads, st.pageVar, base).0;
        assert r.value.blocks == st.blocks + [b];
        KeyedByClose(st.blocks, b, lines, heads, n);
      }
    }
  }

  /** Every block of the page is keyed by the header line that opened it. */
  lemma {:induction false} ScanKeys(lines: seq<string>, page: nat, base: int, n: nat)
    requires n <= |lines|
    ensures ScanLines(lines, page, base, n).Ok? ==> KeysTrack(lines, n, ScanLines(lines, page, base, n).value)
  {
    if n > 0 {
      var m: nat := n - 1;
      ScanKeys(lines, page, base, m);
      ScanTracksLines(lines, page, base, m);
      var prev := ScanLines(lines, page, base, m);
      if prev.Ok? {
        ScanLinesNext(lines, page, base, m);
        LineStepKeys(lines, m, prev.value, base, page);
      }
    }
  }

  /**
   * The blocks of a page: the page fails iff its last line is a header and no
   * header came before it; otherwise there is one block per header line after
   * the first, keyed by the header line before it.
   */
  lemma PageBlocksShape(lines: seq<string>, page: nat, base: int)
    ensures PageBlocks(lines, page, base).Err? <==>
      |lines| > 0 && Kind(lines, |lines| - 1) == HeaderLine && |HeaderLines(lines, |lines| - 1)| == 0
    ensures PageBlocks(lines, page, base).Ok? ==>
      var blocks := PageBlocks(lines, page, base).value;
      var heads := HeaderLines(lines, |lines|);
      && |blocks| == (if |heads| == 0 then 0 else |heads| - 1)
      && forall j :: 0 <= j < |blocks| ==> blocks[j].key == ToKey(lines[heads[j]])
  {
    ScanTracksLines(lines, page, base, |lines|);
    ScanKeys(lines, page, base, |lines|);
  }

  /** Pages are scanned independently: adding a page only appends that page's blocks. */
  lemma BlocksAppendPage(pages: seq<seq<string>>, lines: seq<string>, base: int)
    ensures BlocksFromPages(pages + [lines], base) ==
      match BlocksFromPages(pages, base)
      case Err(e) => Err(e)
      case Ok(bs) =>
        match PageBlocks(lines, |pages|, base)
        case Err(e) => Err(e)
        case Ok(pbs) => Ok(bs + pbs)
  {
    var rs := PageResults(pages + [lines], base);
    assert rs[..|rs| - 1] == PageResults(pages, base);
  }

  // ---------------------------------------------------------------------------
  // The content of a block
  // ---------------------------------------------------------------------------

  /**
   * Without pending sub-headers a block's body is the lines strictly after
   * its header up to the trigger line (the page's last line included when it
   * is the trigger), joined by spaces and stripped; a body left empty, which
   * happens exactly when all those lines are blank, is stored as an empty dict.
   */
  lemma NewBlockText(lines: seq<string>, n: nat, h: nat, subHeads: seq<nat>, pageVar: int, base: int)
    requires h < n < |lines| && Increasing(subHeads) && Below(subHeads, n) && |subHeads| == 0
    ensures var body := lines[h + 1..BlockEnd(lines, n)];
      var c := NewBlock(lines, n, h, subHeads, pageVar, base).0.content;
      && (c.Sections? <==> forall k :: 0 <= k < |body| ==> Blank(body[k]))
      && (c.Sections? ==> |c.entries| == 0)
      && (c.Plain? ==> c.text == LinesToContent(body) && |c.text| > 0 && Stripped(c.text))
  {
    var body := lines[h + 1..BlockEnd(lines, n)];
    LinesToContentSpec(body);
    assert BlockContent(lines, h, subHeads, BlockEnd(lines, n)) == Plain(LinesToContent(body));
  }

  /**
   * With pending sub-headers a block's content is a dict whose keys are the
   * keys of those sub-header lines, each once, and whose value for a key is
   * the text of the last section with that key.
   */
  lemma NewBlockSections(lines: seq<string>, n: nat, h: nat, subHeads: seq<nat>, pageVar: int, base: int)
    requires h < n < |lines| && Increasing(subHeads) && Below(subHeads, n) && |subHeads| > 0
    ensures var c := NewBlock(lines, n, h, subHeads, pageVar, base).0.content;
      var pairs := SectionPairs(lines, subHeads, BlockEnd(lines, n));
      && c.Sections?
      && OrderedDict.DistinctKeys(c.entries)
      && (forall k :: k in OrderedDict.Keys(c.entries) <==> exists t :: 0 <= t < |subHeads| && ToKey(lines[subHeads[t]]) == k)
      && (forall k :: OrderedDict.Get(c.entries, k) == OrderedDict.LastValue(pairs, k))
  {
    var stop := BlockEnd(lines, n);
    var pairs := SectionPairs(lines, subHeads, stop);
    var d := OrderedDict.FromPairs(pairs);
    assert BlockContent(lines, h, subHeads, stop) == Sections(d);
    OrderedDict.FromPairsKeys(pairs);
    forall k
      ensures OrderedDict.Get(d, k) == OrderedDict.LastValue(pairs, k)
    {
      OrderedDict.FromPairsGet(pairs, k);
    }
    forall t | 0 <= t < |subHeads|
      ensures pairs[t].0 == ToKey(lines[subHeads[t]])
    {
      assert pairs[t] == SectionPair(lines, subHeads, stop, t);
    }
    assert |d| > 0 by {
      assert pairs[0].0 in OrderedDict.Keys(d);
    }
  }
}
