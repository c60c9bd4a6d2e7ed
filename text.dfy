/**
 * The Python string primitives the repository relies on, restricted to ASCII:
 * character classes, `lower`/`upper`, `strip`, `split`/`join`, `replace`,
 * substring search, `int(...)`, and the whitespace-run substitutions that
 * several of its regular expressions perform.
 */
module Text {
  import opened Common

  // ---------------------------------------------------------------------------
  // Character classes (ASCII versions of str.isupper, islower, isdigit, isspace)
  // ---------------------------------------------------------------------------

  predicate IsUpper(c: char) { 'A' <= c <= 'Z' }
  predicate IsLower(c: char) { 'a' <= c <= 'z' }
  predicate IsLetter(c: char) { IsUpper(c) || IsLower(c) }
  predicate IsDigit(c: char) { '0' <= c <= '9' }

  /**
   * The regular-expression class `\s` and `str.isspace`, on ASCII: space,
   * tab, line feed, vertical tab, form feed, carriage return and the four
   * separators U+001C to U+001F.
   */
  predicate IsSpace(c: char) {
    c == ' ' || '\t' <= c <= '\r' || '\U{1C}' <= c <= '\U{1F}'
  }

  /** The class `[ \t]`. */
  predicate IsBlank(c: char) { c == ' ' || c == '\t' }

  predicate IsNewline(c: char) { c == '\n' }

  function LowerChar(c: char): (d: char)
    ensures !IsUpper(d)
    ensures IsUpper(c) ==> IsLower(d)
    ensures !IsUpper(c) ==> d == c
  {
    if IsUpper(c) then (c as int + 32) as char else c
  }

  function UpperChar(c: char): (d: char)
    ensures !IsLower(d)
    ensures IsLower(c) ==> IsUpper(d) && LowerChar(d) == c
    ensures !IsLower(c) ==> d == c
  {
    if IsLower(c) then (c as int - 32) as char else c
  }

  /** `str.lower()`. */
  function Lower(s: string): (r: string)
    ensures |r| == |s|
  {
    if |s| == 0 then [] else [LowerChar(s[0])] + Lower(s[1..])
  }

  /** `str.upper()`. */
  function Upper(s: string): (r: string)
    ensures |r| == |s|
  {
    if |s| == 0 then [] else [UpperChar(s[0])] + Upper(s[1..])
  }

  /** `lower` maps each character on its own. */
  lemma {:induction false} LowerAt(s: string)
    ensures forall i :: 0 <= i < |s| ==> Lower(s)[i] == LowerChar(s[i])
  {
    if |s| > 0 {
      LowerAt(s[1..]);
      assert forall i :: 1 <= i < |s| ==> Lower(s)[i] == Lower(s[1..])[i - 1];
    }
  }

  /** `upper` maps each character on its own. */
  lemma {:induction false} UpperAt(s: string)
    ensures forall i :: 0 <= i < |s| ==> Upper(s)[i] == UpperChar(s[i])
  {
    if |s| > 0 {
      UpperAt(s[1..]);
      assert forall i :: 1 <= i < |s| ==> Upper(s)[i] == Upper(s[1..])[i - 1];
    }
  }

  /** Lower-casing twice is lower-casing once. */
  lemma LowerLower(s: string)
    ensures Lower(Lower(s)) == Lower(s)
  {
    LowerAt(s);
    LowerAt(Lower(s));
  }

  /** Lower-casing a slice is slicing the lower-cased string. */
  lemma LowerSlice(s: string, a: nat, b: nat)
    requires a <= b <= |s|
    ensures Lower(s)[a..b] == Lower(s[a..b])
  {
    LowerAt(s);
    LowerAt(s[a..b]);
  }

  predicate NoUpper(s: string) { forall i :: 0 <= i < |s| ==> !IsUpper(s[i]) }

  lemma LowerOfNoUpper(s: string)
    requires NoUpper(s)
    ensures Lower(s) == s
  {
    LowerAt(s);
  }

  /** Number of upper-case letters in `s`. */
  function CountUpper(s: string): nat {
    if |s| == 0 then 0 else (if IsUpper(s[0]) then 1 else 0) + CountUpper(s[1..])
  }

  /** Number of lower-case letters in `s`. */
  function CountLower(s: string): nat {
    if |s| == 0 then 0 else (if IsLower(s[0]) then 1 else 0) + CountLower(s[1..])
  }

  // ---------------------------------------------------------------------------
  // Runs and strip
  // ---------------------------------------------------------------------------

  /** End of the whitespace run starting at `i` (what a greedy `\s*` consumes). */
  function SkipSpaces(s: string, i: nat): (j: nat)
    requires i <= |s|
    ensures i <= j <= |s|
    decreases |s| - i
  {
    if i < |s| && IsSpace(s[i]) then SkipSpaces(s, i + 1) else i
  }

  /** `SkipSpaces` stops at the first character from `i` on that is not whitespace. */
  lemma {:induction false} SkipSpacesSpec(s: string, i: nat)
    requires i <= |s|
    ensures forall k :: i <= k < SkipSpaces(s, i) ==> IsSpace(s[k])
    ensures SkipSpaces(s, i) < |s| ==> !IsSpace(s[SkipSpaces(s, i)])
    decreases |s| - i
  {
    if i < |s| && IsSpace(s[i]) {
      SkipSpacesSpec(s, i + 1);
    }
  }

  /** The start of the whitespace run that ends at `hi`, not going below `lo`. */
  function TrimBack(s: string, lo: nat, hi: nat): (k: nat)
    requires lo <= hi <= |s|
    ensures lo <= k <= hi
    decreases hi
  {
    if hi > lo && IsSpace(s[hi - 1]) then TrimBack(s, lo, hi - 1) else hi
  }

  lemma {:induction false} TrimBackSpec(s: string, lo: nat, hi: nat)
    requires lo <= hi <= |s|
    ensures forall t :: TrimBack(s, lo, hi) <= t < hi ==> IsSpace(s[t])
    ensures TrimBack(s, lo, hi) > lo ==> !IsSpace(s[TrimBack(s, lo, hi) - 1])
    decreases hi
  {
    if hi > lo && IsSpace(s[hi - 1]) {
      TrimBackSpec(s, lo, hi - 1);
    }
  }

  /** Every character of `s[lo..hi]` is whitespace. */
  predicate AllSpace(s: string, lo: nat, hi: nat)
    requires lo <= hi <= |s|
  {
    forall t :: lo <= t < hi ==> IsSpace(s[t])
  }

  /** `TrimBack` goes down to every whitespace-only stretch that reaches `hi`. */
  lemma {:induction false} TrimBackBelow(s: string, lo: nat, hi: nat, p: nat)
    requires lo <= p <= hi <= |s| && AllSpace(s, p, hi)
    ensures TrimBack(s, lo, hi) <= p
    decreases hi
  {
    if p < hi {
      TrimBackBelow(s, lo, hi - 1, p);
    }
  }

  /** The start of the run of digits that ends at `hi`. */
  function DigitsBack(s: string, hi: nat): (k: nat)
    requires hi <= |s|
    ensures k <= hi
    decreases hi
  {
    if hi > 0 && IsDigit(s[hi - 1]) then DigitsBack(s, hi - 1) else hi
  }

  lemma {:induction false} DigitsBackSpec(s: string, hi: nat)
    requires hi <= |s|
    ensures AllDigits(s[DigitsBack(s, hi)..hi])
    ensures DigitsBack(s, hi) > 0 ==> !IsDigit(s[DigitsBack(s, hi) - 1])
    decreases hi
  {
    if hi > 0 && IsDigit(s[hi - 1]) {
      DigitsBackSpec(s, hi - 1);
      var k := DigitsBack(s, hi);
      forall t | 0 <= t < hi - k
        ensures IsDigit(s[k..hi][t])
      {
        if t < hi - 1 - k {
          assert s[k..hi][t] == s[k..hi - 1][t];
        }
      }
    }
  }

  /** `DigitsBack` goes down to every digit-only stretch that reaches `hi`. */
  lemma {:induction false} DigitsBackBelow(s: string, hi: nat, p: nat)
    requires p <= hi <= |s| && AllDigits(s[p..hi])
    ensures DigitsBack(s, hi) <= p
    decreases hi
  {
    if p < hi {
      assert IsDigit(s[p..hi][hi - 1 - p]);
      assert s[p..hi - 1] == s[p..hi][..hi - 1 - p];
      DigitsBackBelow(s, hi - 1, p);
    }
  }

  /** Neither end of `s` is whitespace: what `str.strip()` produces. */
  predicate Stripped(s: string) {
    |s| == 0 || (!IsSpace(s[0]) && !IsSpace(s[|s| - 1]))
  }

  function StripStart(s: string): nat
    ensures StripStart(s) <= |s|
  {
    SkipSpaces(s, 0)
  }

  function StripEnd(s: string): nat
    ensures StripStart(s) <= StripEnd(s) <= |s|
  {
    TrimBack(s, StripStart(s), |s|)
  }

  /** `str.strip()`: drop the leading and trailing whitespace. */
  function Strip(s: string): string {
    s[StripStart(s)..StripEnd(s)]
  }

  /**
   * `strip` removes exactly the whitespace at both ends: it leaves a stripped
   * string unchanged and empties exactly the all-whitespace strings.
   */
  lemma StripSpec(s: string)
    ensures Stripped(Strip(s))
    ensures |Strip(s)| <= |s|
    ensures forall k :: 0 <= k < StripStart(s) ==> IsSpace(s[k])
    ensures forall k :: StripEnd(s) <= k < |s| ==> IsSpace(s[k])
    ensures Stripped(s) ==> Strip(s) == s
    ensures Strip(s) == "" <==> forall k :: 0 <= k < |s| ==> IsSpace(s[k])
  {
    var a := StripStart(s);
    var b := StripEnd(s);
    SkipSpacesSpec(s, 0);
    TrimBackSpec(s, a, |s|);
    assert Stripped(s) && |s| > 0 ==> a == 0 && b == |s|;
  }

  lemma SkipSpacesLower(s: string, i: nat)
    requires i <= |s|
    ensures SkipSpaces(Lower(s), i) == SkipSpaces(s, i)
    decreases |s| - i
  {
    LowerAt(s);
    if i < |s| && IsSpace(s[i]) {
      SkipSpacesLower(s, i + 1);
    }
  }

  lemma TrimBackLower(s: string, lo: nat, hi: nat)
    requires lo <= hi <= |s|
    ensures TrimBack(Lower(s), lo, hi) == TrimBack(s, lo, hi)
    decreases hi
  {
    LowerAt(s);
    if hi > lo && IsSpace(s[hi - 1]) {
      TrimBackLower(s, lo, hi - 1);
    }
  }

  /** Lower-casing and stripping commute, since `lower` never touches whitespace. */
  lemma StripLower(s: string)
    ensures Strip(Lower(s)) == Lower(Strip(s))
  {
    SkipSpacesLower(s, 0);
    TrimBackLower(s, StripStart(s), |s|);
    var t := Strip(s);
    LowerAt(s);
    LowerAt(t);
    assert Strip(Lower(s)) == Lower(s)[StripStart(s)..StripEnd(s)];
  }

  /** `s[:n] if len(s) > n else s`: at most the first `n` characters. */
  function Truncate(s: string, n: nat): (r: string)
    ensures |r| <= n && r <= s
    ensures |s| <= n ==> r == s
  {
    if |s| > n then s[..n] else s
  }

  /** ' ' is the only whitespace character of `s`, and no two of them are adjacent. */
  predicate SingleSpaced(s: string) {
    && (forall i :: 0 <= i < |s| && IsSpace(s[i]) ==> s[i] == ' ')
    && (forall i :: 0 <= i < |s| - 1 && IsSpace(s[i]) ==> !IsSpace(s[i + 1]))
  }

  /** `re.sub(r'\s+', ' ', s)`: each maximal whitespace run becomes one space. */
  function CollapseSpaces(s: string): (r: string)
    ensures SingleSpaced(r)
    ensures |r| <= |s|
    ensures |r| == 0 <==> |s| == 0
    ensures |s| > 0 ==> (IsSpace(r[0]) <==> IsSpace(s[0]))
    ensures |s| > 0 ==> (IsSpace(r[|r| - 1]) <==> IsSpace(s[|s| - 1]))
    ensures |s| > 0 && !IsSpace(s[|s| - 1]) ==> r[|r| - 1] == s[|s| - 1]
    decreases |s|
  {
    if |s| == 0 then ""
    else if IsSpace(s[0]) then
      var e := SkipSpaces(s, 0);
      SkipSpacesSpec(s, 0);
      var rest := CollapseSpaces(s[e..]);
      assert e < |s| ==> !IsSpace(s[e..][0]);
      " " + rest
    else
      [s[0]] + CollapseSpaces(s[1..])
  }

  /** Collapsing brings in no character but the space. */
  lemma {:induction false} CollapseSpacesChars(s: string)
    ensures forall c :: c in CollapseSpaces(s) ==> c in s || c == ' '
    decreases |s|
  {
    if |s| > 0 {
      if IsSpace(s[0]) {
        var e := SkipSpaces(s, 0);
        CollapseSpacesChars(s[e..]);
        assert forall c :: c in s[e..] ==> c in s;
      } else {
        CollapseSpacesChars(s[1..]);
        assert forall c :: c in s[1..] ==> c in s;
      }
    }
  }

  lemma SingleSpacedNoNewline(s: string)
    requires SingleSpaced(s)
    ensures '\n' !in s
  {
    if '\n' in s {
      var i :| 0 <= i < |s| && s[i] == '\n';
      assert IsSpace(s[i]);
    }
  }

  /** Collapsing whitespace runs and stripping leaves single-spaced text with no line break. */
  lemma CleanedText(s: string)
    ensures SingleSpaced(Strip(CollapseSpaces(s)))
    ensures Stripped(Strip(CollapseSpaces(s)))
    ensures '\n' !in Strip(CollapseSpaces(s))
  {
    var c := CollapseSpaces(s);
    StripSpec(c);
    SliceSingleSpaced(c, StripStart(c), StripEnd(c));
    SingleSpacedNoNewline(Strip(c));
  }

  lemma SliceSingleSpaced(s: string, a: nat, b: nat)
    requires a <= b <= |s|
    requires SingleSpaced(s)
    ensures SingleSpaced(s[a..b])
  {
    var t := s[a..b];
    forall i | 0 <= i < |t| - 1 && IsSpace(t[i]) ensures !IsSpace(t[i + 1]) {
      assert t[i] == s[a + i] && t[i + 1] == s[a + i + 1];
    }
  }

  /** `re.sub(r'\s*\n\s*', ' ', s)`: each maximal whitespace run that holds a line break becomes one space. */
  function JoinBrokenLines(s: string): (r: string)
    ensures '\n' !in r
    ensures |r| == 0 <==> |s| == 0
    ensures |s| > 0 ==> (IsSpace(r[0]) <==> IsSpace(s[0]))
    ensures |s| > 0 ==> (IsSpace(r[|r| - 1]) <==> IsSpace(s[|s| - 1]))
    ensures |s| > 0 && !IsSpace(s[|s| - 1]) ==> r[|r| - 1] == s[|s| - 1]
    decreases |s|
  {
    if |s| == 0 then ""
    else if IsSpace(s[0]) then
      var e := SkipSpaces(s, 0);
      SkipSpacesSpec(s, 0);
      var head := if '\n' in s[..e] then " " else s[..e];
      var rest := JoinBrokenLines(s[e..]);
      assert IsSpace(head[0]) && IsSpace(head[|head| - 1]);
      assert e < |s| ==> !IsSpace(s[e..][0]) && s[e..][|s[e..]| - 1] == s[|s| - 1];
      head + rest
    else
      [s[0]] + JoinBrokenLines(s[1..])
  }

  // ---------------------------------------------------------------------------
  // Substrings
  // ---------------------------------------------------------------------------

  predicate StartsAt(s: string, i: nat, pat: string) {
    i + |pat| <= |s| && s[i..i + |pat|] == pat
  }

  /** Case-insensitive literal match at `i` (the `re.IGNORECASE` flag, ASCII letters). */
  predicate StartsAtCI(s: string, i: nat, pat: string) {
    i + |pat| <= |s| && Lower(s[i..i + |pat|]) == Lower(pat)
  }

  /** The first occurrence of `pat` in `s` at or after `i` (`str.find`). */
  function FindFrom(s: string, pat: string, i: nat): (r: Option<nat>)
    requires i <= |s|
    ensures r.Some? ==> i <= r.value <= |s| && StartsAt(s, r.value, pat)
    ensures r.Some? ==> forall j :: i <= j < r.value ==> !StartsAt(s, j, pat)
    ensures r.None? ==> forall j :: i <= j <= |s| ==> !StartsAt(s, j, pat)
    decreases |s| - i
  {
    if StartsAt(s, i, pat) then Some(i)
    else if i == |s| then None
    else FindFrom(s, pat, i + 1)
  }

  /** Python's `pat in s`. */
  predicate Contains(s: string, pat: string) {
    FindFrom(s, pat, 0).Some?
  }

  /** `s.replace(pat, rep)`: left-to-right, non-overlapping. */
  function Replace(s: string, pat: string, rep: string): (r: string)
    requires |pat| > 0
    ensures forall c :: c in r ==> c in s || c in rep
    ensures |pat| == 1 && pat[0] !in rep ==> pat[0] !in r
    decreases |s|
  {
    if |s| < |pat| then s
    else if s[..|pat|] == pat then
      var rest := Replace(s[|pat|..], pat, rep);
      assert forall c :: c in s[|pat|..] ==> c in s;
      rep + rest
    else
      var rest := Replace(s[1..], pat, rep);
      assert forall c :: c in s[1..] ==> c in s;
      [s[0]] + rest
  }

  /** Replacing one character by one character works position by position. */
  lemma {:induction false} ReplaceCharPointwise(s: string, a: char, b: char)
    ensures |Replace(s, [a], [b])| == |s|
    ensures forall i :: 0 <= i < |s| ==> Replace(s, [a], [b])[i] == (if s[i] == a then b else s[i])
    decreases |s|
  {
    if |s| > 0 {
      ReplaceCharPointwise(s[1..], a, b);
      var rest := Replace(s[1..], [a], [b]);
      assert Replace(s, [a], [b]) == (if s[0] == a then [b] else [s[0]]) + rest;
    }
  }

  /** Python's `s[a:b]` for non-negative bounds: both clamped to the length, empty when they cross. */
  function Substring(s: string, a: nat, b: nat): (r: string)
    ensures |r| <= |s|
  {
    var lo := if a < |s| then a else |s|;
    var hi := if b < |s| then b else |s|;
    if lo < hi then s[lo..hi] else ""
  }

  /** Every occurrence of the character `a` turned into `b`, position by position. */
  function ReplaceChar(s: string, a: char, b: char): (r: string)
    ensures |r| == |s|
  {
    if |s| == 0 then [] else [if s[0] == a then b else s[0]] + ReplaceChar(s[1..], a, b)
  }

  lemma {:induction false} ReplaceCharAt(s: string, a: char, b: char)
    ensures forall i :: 0 <= i < |s| ==> ReplaceChar(s, a, b)[i] == if s[i] == a then b else s[i]
  {
    if |s| > 0 {
      ReplaceCharAt(s[1..], a, b);
      assert forall i :: 1 <= i < |s| ==> ReplaceChar(s, a, b)[i] == ReplaceChar(s[1..], a, b)[i - 1];
    }
  }

  /** `s.replace(a, b)` for one-character strings is the position-wise substitution. */
  lemma ReplaceCharIsReplace(s: string, a: char, b: char)
    ensures Replace(s, [a], [b]) == ReplaceChar(s, a, b)
  {
    ReplaceCharPointwise(s, a, b);
    ReplaceCharAt(s, a, b);
  }

  /** Replacing a character that does not occur changes nothing. */
  lemma {:induction false} ReplaceAbsent(s: string, a: char, rep: string)
    requires a !in s
    ensures Replace(s, [a], rep) == s
    decreases |s|
  {
    if |s| > 0 {
      assert s[0] != a;
      ReplaceAbsent(s[1..], a, rep);
      assert s == [s[0]] + s[1..];
    }
  }

  // ---------------------------------------------------------------------------
  // split / join
  // ---------------------------------------------------------------------------

  /** `s.split(sep)` for a one-character separator. */
  function Split(s: string, sep: char): (r: seq<string>)
    ensures |r| == multiset(s)[sep] + 1
    ensures forall k :: 0 <= k < |r| ==> sep !in r[k]
    decreases |s|
  {
    if |s| == 0 then [""]
    else
      var rest := Split(s[1..], sep);
      assert s == [s[0]] + s[1..];
      assert multiset(s) == multiset{s[0]} + multiset(s[1..]);
      if s[0] == sep then [""] + rest
      else [[s[0]] + rest[0]] + rest[1..]
  }

  /** `sep.join(parts)`. */
  function Join(parts: seq<string>, sep: string): string
    decreases |parts|
  {
    if |parts| == 0 then ""
    else if |parts| == 1 then parts[0]
    else parts[0] + sep + Join(parts[1..], sep)
  }

  lemma JoinConsHead(a: string, b: string, ws: seq<string>, sep: string)
    ensures Join([a + b] + ws, sep) == a + Join([b] + ws, sep)
  {
    if |ws| > 0 {
      assert ([a + b] + ws)[1..] == ws;
      assert ([b] + ws)[1..] == ws;
    }
  }

  /** Splitting and re-joining with the same separator gives the string back. */
  lemma {:induction false} JoinSplit(s: string, sep: char)
    ensures Join(Split(s, sep), [sep]) == s
    decreases |s|
  {
    if |s| > 0 {
      JoinSplit(s[1..], sep);
      var rest := Split(s[1..], sep);
      if s[0] == sep {
        assert ([""] + rest)[1..] == rest;
      } else {
        JoinConsHead([s[0]], rest[0], rest[1..], [sep]);
        assert [rest[0]] + rest[1..] == rest;
      }
    }
  }

  lemma {:induction false} SplitPrefix(a: string, t: string, sep: char)
    requires sep !in a
    ensures Split(a + t, sep) == [a + Split(t, sep)[0]] + Split(t, sep)[1..]
    decreases |a|
  {
    if |a| > 0 {
      SplitPrefix(a[1..], t, sep);
      assert (a + t)[1..] == a[1..] + t;
      assert [a[0]] + (a[1..] + Split(t, sep)[0]) == a + Split(t, sep)[0];
    } else {
      assert a + t == t;
      var r := Split(t, sep);
      assert a == [] && a + r[0] == r[0];
      assert r == [r[0]] + r[1..];
    }
  }

  /** Joining separator-free pieces and splitting again gives the pieces back. */
  lemma {:induction false} SplitJoin(ws: seq<string>, sep: char)
    requires |ws| > 0
    requires forall k :: 0 <= k < |ws| ==> sep !in ws[k]
    ensures Split(Join(ws, [sep]), sep) == ws
    decreases |ws|
  {
    if |ws| == 1 {
      SplitPrefix(ws[0], "", sep);
      assert ws[0] + "" == ws[0];
    } else {
      var j := Join(ws[1..], [sep]);
      SplitJoin(ws[1..], sep);
      assert Join(ws, [sep]) == ws[0] + ([sep] + j);
      SplitPrefix(ws[0], [sep] + j, sep);
      assert ([sep] + j)[1..] == j;
      assert Split([sep] + j, sep) == [""] + Split(j, sep);
      assert ws[0] + "" == ws[0];
      assert ws == [ws[0]] + ws[1..];
    }
  }

  // ---------------------------------------------------------------------------
  // Numbers
  // ---------------------------------------------------------------------------

  predicate AllDigits(s: string) { forall i :: 0 <= i < |s| ==> IsDigit(s[i]) }

  /** The value of a run of decimal digits. */
  function DigitsValue(ds: string): (n: nat)
    requires AllDigits(ds)
    decreases |ds|
  {
    if |ds| == 0 then 0
    else DigitsValue(ds[..|ds| - 1]) * 10 + (ds[|ds| - 1] as int - '0' as int)
  }

  function Pow10(n: nat): (p: nat)
    ensures p > 0
  {
    if n == 0 then 1 else 10 * Pow10(n - 1)
  }

  /** A run of `n` digits is worth less than `10^n`. */
  lemma {:induction false} DigitsValueBound(ds: string)
    requires AllDigits(ds)
    ensures DigitsValue(ds) < Pow10(|ds|)
    decreases |ds|
  {
    if |ds| > 0 {
      DigitsValueBound(ds[..|ds| - 1]);
    }
  }

  /** Python's decimal integer literal: digits, with single underscores allowed between two digits. */
  predicate DigitGroups(t: string) {
    && |t| > 0 && IsDigit(t[0]) && IsDigit(t[|t| - 1])
    && (forall k :: 0 <= k < |t| ==> IsDigit(t[k]) || t[k] == '_')
    && (forall k :: 0 <= k < |t| - 1 && t[k] == '_' ==> IsDigit(t[k + 1]))
  }

  /** The digits of `t` with its underscores left out. */
  function DropUnderscores(t: string): (d: string)
    ensures (forall k :: 0 <= k < |t| ==> IsDigit(t[k]) || t[k] == '_') ==> AllDigits(d)
    ensures AllDigits(t) ==> d == t
  {
    if |t| == 0 then ""
    else (if t[0] == '_' then "" else [t[0]]) + DropUnderscores(t[1..])
  }

  /** `int(s)` on ASCII: surrounding whitespace, an optional sign and a digit-group literal; anything else raises. */
  function ParseInt(s: string): (r: Option<int>)
    ensures r.Some? <==> DigitGroups(Strip(s)) || (|Strip(s)| > 1 && Strip(s)[0] in "+-" && DigitGroups(Strip(s)[1..]))
    ensures DigitGroups(Strip(s)) ==> r == Some(DigitsValue(DropUnderscores(Strip(s))))
    ensures |Strip(s)| > 0 && AllDigits(Strip(s)) ==> r == Some(DigitsValue(Strip(s)))
    ensures r.Some? ==> exists i :: 0 <= i < |s| && IsDigit(s[i])
  {
    var t := Strip(s);
    StripSpec(s);
    if |t| > 1 && (t[0] == '+' || t[0] == '-') && DigitGroups(t[1..]) then
      assert IsDigit(s[StripStart(s) + 1]);
      var v: int := DigitsValue(DropUnderscores(t[1..]));
      Some(if t[0] == '-' then -v else v)
    else if DigitGroups(t) then
      assert IsDigit(s[StripStart(s)]);
      Some(DigitsValue(DropUnderscores(t)))
    else None
  }

  /** `int()` reads underscore-grouped digits, as in the banner page `1_2`. */
  lemma ParseIntUnderscores()
    ensures ParseInt("1_2") == Some(12)
  {
    var t := "1_2";
    assert Stripped(t);
    StripSpec(t);
    assert DigitGroups(t);
    assert DropUnderscores(t) == "12" by {
      assert t[1..] == "_2" && t[1..][1..] == "2" && "2"[1..] == "";
    }
    assert DigitsValue("12") == 12 by {
      assert "1"[..0] == "";
      assert "12"[..1] == "1";
    }
  }

  /** `int()` rejects a doubled underscore. */
  lemma ParseIntDoubledUnderscore()
    ensures ParseInt("1__2") == None
  {
    StripSpec("1__2");
    assert Strip("1__2") == "1__2";
    assert !DigitGroups("1__2") by { assert "1__2"[1] == '_' && !IsDigit("1__2"[2]); }
  }
}
