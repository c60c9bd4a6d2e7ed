/**
 * The key `main.py` makes from a section or rule header: the header
 * lower-cased, with spaces, hyphens and slashes turned into `_` and
 * parentheses dropped. Objectives subsections and special rules are both
 * stored under such keys.
 */
module HeaderKey {
  import opened Text

  /** The JSON key of a header: lower-cased, ` ` to `_`, parentheses dropped, `-` and `/` to `_`. */
  function SectionKey(header: string): string {
    var a := ReplaceChar(Lower(header), ' ', '_');
    var b := Replace(Replace(a, "(", ""), ")", "");
    ReplaceChar(ReplaceChar(b, '-', '_'), '/', '_')
  }

  /** What a key looks like: no upper-case letter, no space, parenthesis, hyphen or slash. */
  predicate KeyShape(key: string) {
    NoUpper(key) && ' ' !in key && '(' !in key && ')' !in key && '-' !in key && '/' !in key
  }

  /** Substituting `b` for `a` removes every `a` and brings in no character but `b`. */
  lemma ReplaceCharOut(s: string, a: char, b: char)
    requires a != b
    ensures a !in ReplaceChar(s, a, b)
    ensures forall c :: c in ReplaceChar(s, a, b) ==> c in s || c == b
  {
    ReplaceCharAt(s, a, b);
  }

  lemma SectionKeyShape(header: string)
    ensures KeyShape(SectionKey(header))
  {
    var l := Lower(header);
    LowerAt(header);
    var a := ReplaceChar(l, ' ', '_');
    ReplaceCharOut(l, ' ', '_');
    var b := Replace(Replace(a, "(", ""), ")", "");
    var c := ReplaceChar(b, '-', '_');
    ReplaceCharOut(b, '-', '_');
    var d := ReplaceChar(c, '/', '_');
    ReplaceCharOut(c, '/', '_');
    assert forall x :: x in d ==> x in l || x == '_';
    forall i | 0 <= i < |d|
      ensures !IsUpper(d[i])
    {
      assert d[i] in d;
    }
  }

  /** A key is its own key. */
  lemma SectionKeyIdempotent(header: string)
    ensures SectionKey(SectionKey(header)) == SectionKey(header)
  {
    var k := SectionKey(header);
    SectionKeyShape(header);
    LowerOfNoUpper(k);
    ReplaceCharIsReplace(k, ' ', '_');
    ReplaceAbsent(k, ' ', "_");
    ReplaceAbsent(k, '(', "");
    ReplaceAbsent(k, ')', "");
    ReplaceCharIsReplace(k, '-', '_');
    ReplaceAbsent(k, '-', "_");
    ReplaceCharIsReplace(k, '/', '_');
    ReplaceAbsent(k, '/', "_");
  }
}
