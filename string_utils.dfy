/**
 * Key, title and dotted-path helpers shared by both mission pipelines
 * (`lib/string_utils.py`).
 */
module StringUtils {
  import opened Text

  // ---------------------------------------------------------------------------
  // toTitle
  // ---------------------------------------------------------------------------

  /** `word[0].upper() + word[1:]`. */
  function Capitalize(w: string): string
    requires |w| > 0
  {
    [UpperChar(w[0])] + w[1..]
  }

  /** A word in title case: its first character is not lower-case, the rest not upper-case. */
  predicate TitleWord(w: string) {
    |w| > 0 && !IsLower(w[0]) && forall j :: 1 <= j < |w| ==> !IsUpper(w[j])
  }

  /**
   * The words `toTitle` indexes with `word[0]` are all non-empty; otherwise
   * the source raises `IndexError`.
   */
  predicate TitleCaseable(s: string) {
    var words := Split(Lower(s), ' ');
    forall k :: 0 <= k < |words| ==> |words[k]| > 0
  }

  /** Lower-casing distributes over concatenation. */
  lemma LowerConcat(a: string, b: string)
    ensures Lower(a + b) == Lower(a) + Lower(b)
  {
    LowerAt(a + b);
    LowerAt(a);
    LowerAt(b);
  }

  /** The pieces of a string without upper-case letters have none either. */
  lemma {:induction false} SplitNoUpper(s: string, sep: char)
    requires NoUpper(s)
    ensures forall k :: 0 <= k < |Split(s, sep)| ==> NoUpper(Split(s, sep)[k])
    decreases |s|
  {
    if |s| > 0 {
      SplitNoUpper(s[1..], sep);
    }
  }

  /** Joining words whose lower-case forms are `vs` lower-cases to `vs` joined. */
  lemma {:induction false} LowerJoin(ws: seq<string>, vs: seq<string>)
    requires |ws| == |vs|
    requires forall k :: 0 <= k < |ws| ==> Lower(ws[k]) == vs[k]
    ensures Lower(Join(ws, " ")) == Join(vs, " ")
    decreases |ws|
  {
    if |ws| > 1 {
      LowerJoin(ws[1..], vs[1..]);
      LowerConcat(ws[0] + " ", Join(ws[1..], " "));
      LowerConcat(ws[0], " ");
    }
  }

  /** Capitalising a lower-case word gives a title word with the same lower-case form. */
  lemma CapitalizeWord(w: string)
    requires |w| > 0 && NoUpper(w)
    ensures TitleWord(Capitalize(w))
    ensures Lower(Capitalize(w)) == w
    ensures ' ' in Capitalize(w) <==> ' ' in w
  {
    var c := Capitalize(w);
    LowerAt(c);
    assert c[1..] == w[1..];
    assert UpperChar(w[0]) == ' ' <==> w[0] == ' ';
    assert ' ' in c <==> ' ' in w by {
      assert c == [c[0]] + w[1..];
      assert w == [w[0]] + w[1..];
    }
  }

  /**
   * `toTitle(s)`: lower-case `s`, split it on single spaces and upper-case the
   * first character of every word.
   */
  function ToTitle(s: string): (r: string)
    requires TitleCaseable(s)
    ensures |r| == |s|
    ensures Lower(r) == Lower(s)
    ensures |Split(r, ' ')| == |Split(Lower(s), ' ')|
    ensures forall k :: 0 <= k < |Split(r, ' ')| ==>
      TitleWord(Split(r, ' ')[k]) && Lower(Split(r, ' ')[k]) == Split(Lower(s), ' ')[k]
  {
    var words := Split(Lower(s), ' ');
    var caps := seq(|words|, k requires 0 <= k < |words| => Capitalize(words[k]));
    LowerAt(s);
    SplitNoUpper(Lower(s), ' ');
    forall k | 0 <= k < |words|
      ensures TitleWord(caps[k]) && Lower(caps[k]) == words[k] && ' ' !in caps[k]
    {
      CapitalizeWord(words[k]);
    }
    SplitJoin(caps, ' ');
    LowerJoin(caps, words);
    JoinSplit(Lower(s), ' ');
    assert |Lower(Join(caps, " "))| == |Join(caps, " ")|;
    Join(caps, " ")
  }

  // ---------------------------------------------------------------------------
  // toKey
  // ---------------------------------------------------------------------------

  /**
   * `toKey(s)`: lower-case, strip, and turn every space into '_' (the
   * `replace(" ", "_")` of the source, see `ReplaceCharIsReplace`).
   */
  function ToKey(s: string): string
  {
    ReplaceChar(Strip(Lower(s)), ' ', '_')
  }

  /**
   * A key is the stripped text with every letter lower-cased and every space
   * turned into '_': it has no upper-case letter, no space, and no whitespace
   * at either end.
   */
  lemma ToKeyShape(s: string)
    ensures |ToKey(s)| == |Strip(s)|
    ensures forall i :: 0 <= i < |ToKey(s)| ==>
      ToKey(s)[i] == if Strip(s)[i] == ' ' then '_' else LowerChar(Strip(s)[i])
    ensures NoUpper(ToKey(s))
    ensures ' ' !in ToKey(s)
    ensures Stripped(ToKey(s))
  {
    StripLower(s);
    StripSpec(s);
    LowerAt(Strip(s));
    ReplaceCharAt(Lower(Strip(s)), ' ', '_');
  }

  /** A key is its own key. */
  lemma ToKeyIdempotent(s: string)
    ensures ToKey(ToKey(s)) == ToKey(s)
  {
    var k := ToKey(s);
    ToKeyShape(s);
    LowerOfNoUpper(k);
    StripSpec(k);
    ReplaceCharAt(k, ' ', '_');
    assert ReplaceChar(k, ' ', '_') == k;
  }

  // ---------------------------------------------------------------------------
  // linesToContent
  // ---------------------------------------------------------------------------

  /** Every character of `s` is whitespace. */
  predicate Blank(s: string) {
    forall i :: 0 <= i < |s| ==> IsSpace(s[i])
  }

  /** The lines joined by spaces are blank iff every line is. */
  lemma {:induction false} JoinBlank(lines: seq<string>)
    ensures Blank(Join(lines, " ")) <==> forall k :: 0 <= k < |lines| ==> Blank(lines[k])
    decreases |lines|
  {
    if |lines| > 1 {
      JoinBlank(lines[1..]);
      var rest := Join(lines[1..], " ");
      var j := lines[0] + " " + rest;
      assert Join(lines, " ") == j;
      assert Blank(j) <==> Blank(lines[0]) && Blank(rest) by {
        assert forall i :: 0 <= i < |lines[0]| ==> j[i] == lines[0][i];
        assert forall i :: 0 <= i < |rest| ==> j[|lines[0]| + 1 + i] == rest[i];
      }
      assert (forall k :: 1 <= k < |lines| ==> Blank(lines[k])) <==> (forall k :: 0 <= k < |lines[1..]| ==> Blank(lines[1..][k]));
    }
  }

  /** `linesToContent(lines)`: the lines joined with single spaces, then stripped. */
  function LinesToContent(lines: seq<string>): string {
    Strip(Join(lines, " "))
  }

  /** A single line is only stripped, and the content is empty iff every line is blank. */
  lemma LinesToContentSpec(lines: seq<string>)
    ensures Stripped(LinesToContent(lines))
    ensures |lines| == 1 ==> LinesToContent(lines) == Strip(lines[0])
    ensures LinesToContent(lines) == "" <==> forall k :: 0 <= k < |lines| ==> Blank(lines[k])
  {
    JoinBlank(lines);
    StripSpec(Join(lines, " "));
  }

  // ---------------------------------------------------------------------------
  // strToKeys / keysToStr
  // ---------------------------------------------------------------------------

  /** `strToKeys(s)`: the dotted path `s` as its list of keys. */
  function StrToKeys(s: string): seq<string> {
    Split(s, '.')
  }

  /** `keysToStr(keys)`: the keys joined into a dotted path. */
  function KeysToStr(keys: seq<string>): string {
    Join(keys, ".")
  }

  /**
   * A dotted path splits into one more key than it has dots, none of which
   * contains a dot, and joining them again gives the path back.
   */
  lemma StrToKeysSpec(s: string)
    ensures |StrToKeys(s)| == multiset(s)['.'] + 1
    ensures forall k :: 0 <= k < |StrToKeys(s)| ==> '.' !in StrToKeys(s)[k]
    ensures KeysToStr(StrToKeys(s)) == s
  {
    JoinSplit(s, '.');
  }

  /** A non-empty list of dot-free keys is recovered from its dotted path. */
  lemma KeysToStrSpec(keys: seq<string>)
    requires |keys| > 0 && forall k :: 0 <= k < |keys| ==> '.' !in keys[k]
    ensures StrToKeys(KeysToStr(keys)) == keys
  {
    SplitJoin(keys, '.');
  }
}
