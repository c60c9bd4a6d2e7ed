/**
 * The page range of `extract_text_from_pages` in `main.py`: a document is
 * the sequence of its page texts (what `page.get_text()` returns) and
 * indexing follows Python, so page `-1` is the last page.
 */
module Pages {
  /** `doc[k]` for an index Python accepts. */
  function PageAt(doc: seq<string>, k: int): string
    requires -|doc| <= k < |doc|
  {
    if k >= 0 then doc[k] else doc[|doc| + k]
  }

  /** What the loop appends for page `k`: its text and a line feed, or nothing past the last page. */
  function PageChunk(doc: seq<string>, k: int): string
    requires -|doc| <= k
  {
    if k < |doc| then PageAt(doc, k) + "\n" else ""
  }

  /** The concatenated text of pages `start` up to (not including) `end`. */
  function RawText(doc: seq<string>, start: int, end: int): string
    requires -|doc| <= start
    decreases end - start
  {
    if end <= start then "" else RawText(doc, start, end - 1) + PageChunk(doc, end - 1)
  }

  /** The page loop: each page in the range, skipping indices past the last page, followed by a line feed. */
  method ConcatPages(doc: seq<string>, start: int, end: int) returns (raw: string)
    requires -|doc| <= start
    ensures raw == RawText(doc, start, end)
  {
    raw := "";
    if end <= start {
      return;
    }
    for pageNum := start to end
      invariant raw == RawText(doc, start, pageNum)
    {
      ghost var prev := raw;
      raw := AppendPage(doc, pageNum, raw);
      RawTextNext(doc, start, pageNum);
      assert raw == prev + PageChunk(doc, pageNum);
    }
  }

  /** The loop body: a page inside the document is appended with a line feed, one past its end adds nothing. */
  method AppendPage(doc: seq<string>, pageNum: int, raw: string) returns (r: string)
    requires -|doc| <= pageNum
    ensures r == raw + PageChunk(doc, pageNum)
  {
    r := raw;
    if pageNum < |doc| {
      r := raw + (PageAt(doc, pageNum) + "\n");
    }
  }

  /** One more page extends the text by that page's chunk. */
  lemma RawTextNext(doc: seq<string>, start: int, n: int)
    requires -|doc| <= start <= n
    ensures RawText(doc, start, n + 1) == RawText(doc, start, n) + PageChunk(doc, n)
  {
  }

  /** Pages past the end of the document add nothing. */
  lemma {:induction false} RawTextPastEnd(doc: seq<string>, start: int, end: int)
    requires -|doc| <= start && |doc| <= end
    ensures RawText(doc, start, end) == RawText(doc, start, if start <= |doc| then |doc| else start)
    decreases end - start
  {
    if end > |doc| && end > start {
      RawTextPastEnd(doc, start, end - 1);
    }
  }
}
