/**
 * The regular expressions of the `main.py` segmentation engine.
 *
 * Each pattern is written out as an explicit `Matcher`, a function of the
 * text and a position `i` that answers what Python's `re` engine answers
 * when it tries the pattern at `i`: greedy quantifiers take as much as they can
 * and give characters back only when that lets the rest match, lazy
 * groups stop at the first position where what follows them matches.
 * For each pattern the backtracking has been worked out by hand; the
 * comments say why the deterministic reading is the exact one.
 *
 * On top of the matchers sit the drivers `re.search` (`FirstMatch`),
 * `re.finditer`/`re.findall` (`FindAll`), `re.sub` (`Sub`) and
 * `re.split` (`SplitBy`). Every pattern consumes at least one character,
 * so Python's special rules for empty matches never come into play.
 * Case-insensitive patterns (`re.IGNORECASE`) compare ASCII letters only.
 */
module Regex {
  import opened Common
  import opened Text

  // ---------------------------------------------------------------------------
  // Matches
  // ---------------------------------------------------------------------------

  /** The half-open range `[lo, hi)` of a capture group. */
  datatype Span = Span(lo: nat, hi: nat)

  /**
   * A match starting at `start`. `end` is `m.end()` for the patterns that
   * are iterated or substituted; for the ones only searched for, it is the
   * end of their last group.
   */
  datatype Match = Match(start: nat, end: nat, groups: seq<Span>)

  /** A match found at `i`: it consumes at least one character and its groups lie inside it. */
  predicate Valid(m: Match, s: string, i: nat) {
    && m.start == i && i < m.end <= |s|
    && forall g :: g in m.groups ==> i <= g.lo <= g.hi <= m.end
  }

  /** The text of a capture group. */
  function Group(s: string, g: Span): string
    requires g.lo <= g.hi <= |s|
  {
    s[g.lo..g.hi]
  }

  // ---------------------------------------------------------------------------
  // Scanning helpers
  // ---------------------------------------------------------------------------

  /** `w` (written in lower case) occurs at `i`, ignoring ASCII case. */
  predicate AtCI(s: string, i: nat, w: string) {
    i + |w| <= |s| && Lower(s[i..i + |w|]) == w
  }

  /** A character matched case-insensitively against a non-whitespace character of `w` is not whitespace. */
  lemma AtCINonSpace(s: string, i: nat, w: string, j: nat)
    requires AtCI(s, i, w) && j < |w| && !IsSpace(w[j])
    ensures !IsSpace(s[i + j])
  {
    LowerAt(s[i..i + |w|]);
    assert Lower(s[i..i + |w|])[j] == LowerChar(s[i + j]);
  }

  /** A greedy `\s+` at `k`: the end of the whitespace run, when it is not empty. */
  function Spaces1(s: string, k: nat): (r: Option<nat>)
    requires k <= |s|
    ensures r.Some? ==> k < r.value <= |s|
  {
    var m := SkipSpaces(s, k);
    if m > k then Some(m) else None
  }

  /** End of the run of digits starting at `i` (a greedy `\d*`). */
  function DigitsEnd(s: string, i: nat): (j: nat)
    requires i <= |s|
    ensures i <= j <= |s|
    decreases |s| - i
  {
    if i < |s| && IsDigit(s[i]) then DigitsEnd(s, i + 1) else i
  }

  lemma {:induction false} DigitsEndSpec(s: string, i: nat)
    requires i <= |s|
    ensures AllDigits(s[i..DigitsEnd(s, i)])
    ensures DigitsEnd(s, i) < |s| ==> !IsDigit(s[DigitsEnd(s, i)])
    decreases |s| - i
  {
    if i < |s| && IsDigit(s[i]) {
      DigitsEndSpec(s, i + 1);
      var j := DigitsEnd(s, i);
      assert s[i..j] == [s[i]] + s[i + 1..j];
    }
  }

  /** A greedy `\d+` at `k`: the end of the digit run, when it is not empty. */
  function Digits1(s: string, k: nat): (r: Option<nat>)
    requires k <= |s|
    ensures r.Some? ==> k < r.value <= |s|
  {
    var d := DigitsEnd(s, k);
    if d > k then Some(d) else None
  }

  /** `\s+w` with `w` case-insensitive: the end of `w`. */
  function SpacedWord(s: string, k: nat, w: string): (r: Option<nat>)
    requires k <= |s|
    ensures r.Some? ==> k + |w| < r.value <= |s|
  {
    match Spaces1(s, k)
    case None => None
    case Some(m) => if AtCI(s, m, w) then Some(m + |w|) else None
  }

  /**
   * `w0\s+w1\s+...\s+wn` (case-insensitive) at `i`: the end of the last
   * word. Every word starts with a letter, so the greedy `\s+` before it
   * can only succeed by taking the whole whitespace run.
   */
  function WordsEnd(s: string, i: nat, ws: seq<string>): (r: Option<nat>)
    requires i <= |s|
    ensures r.Some? ==> i <= r.value <= |s|
    ensures r.Some? && |ws| > 0 ==> i + |ws[0]| <= r.value
    decreases |ws|
  {
    if |ws| == 0 then Some(i)
    else if !AtCI(s, i, ws[0]) then None
    else if |ws| == 1 then Some(i + |ws[0]|)
    else
      match Spaces1(s, i + |ws[0]|)
      case None => None
      case Some(m) => WordsEnd(s, m, ws[1..])
  }

  /** The position of the next line feed at or after `i`, or the end of `s`. */
  function LineEnd(s: string, i: nat): (j: nat)
    requires i <= |s|
    ensures i <= j <= |s|
    ensures j < |s| ==> s[j] == '\n'
    ensures forall k :: i <= k < j ==> s[k] != '\n'
    decreases |s| - i
  {
    if i == |s| || s[i] == '\n' then i else LineEnd(s, i + 1)
  }

  /** End of the run of `[ \t]` starting at `i`. */
  function BlanksEnd(s: string, i: nat): (j: nat)
    requires i <= |s|
    ensures i <= j <= |s|
    ensures forall k :: i <= k < j ==> IsBlank(s[k])
    ensures j < |s| ==> !IsBlank(s[j])
    decreases |s| - i
  {
    if i < |s| && IsBlank(s[i]) then BlanksEnd(s, i + 1) else i
  }

  /** Start of the run of `[ \t]` that ends at `hi`, not going below `lo`. */
  function BlanksBack(s: string, lo: nat, hi: nat): (k: nat)
    requires lo <= hi <= |s|
    ensures lo <= k <= hi
    ensures forall t :: k <= t < hi ==> IsBlank(s[t])
    ensures k > lo ==> !IsBlank(s[k - 1])
    decreases hi
  {
    if hi > lo && IsBlank(s[hi - 1]) then BlanksBack(s, lo, hi - 1) else hi
  }

  /** End of the run of line feeds starting at `i`. */
  function NewlinesEnd(s: string, i: nat): (j: nat)
    requires i <= |s|
    ensures i <= j <= |s|
    ensures forall k :: i <= k < j ==> s[k] == '\n'
    ensures j < |s| ==> s[j] != '\n'
    decreases |s| - i
  {
    if i < |s| && s[i] == '\n' then NewlinesEnd(s, i + 1) else i
  }

  /** The class `[A-Z\s]` under `re.IGNORECASE`. */
  predicate LetterOrSpace(c: char) { IsLetter(c) || IsSpace(c) }

  /** `[A-Z\s]*\n` at `k`, with at least one class character before the line feed. */
  predicate RunThenNewline(s: string, k: nat)
    requires k <= |s|
    decreases |s| - k
  {
    k < |s| && LetterOrSpace(s[k]) &&
    ((k + 1 < |s| && s[k + 1] == '\n') || RunThenNewline(s, k + 1))
  }

  /** `[A-Z\s]*TACTICAL\s+SUPPORT` at `k` (case-insensitive). */
  predicate RunThenTacticalSupport(s: string, k: nat)
    requires k <= |s|
    decreases |s| - k
  {
    WordsEnd(s, k, ["tactical", "support"]).Some? ||
    (k < |s| && LetterOrSpace(s[k]) && RunThenTacticalSupport(s, k + 1))
  }

  // ---------------------------------------------------------------------------
  // What may follow a lazy group
  // ---------------------------------------------------------------------------

  /** The alternatives that end a lazy `(.*?)` group. */
  datatype Stop =
    | ItsSectionEnd          // \s+ITS DIRECT ACTION
    | DirectActionSectionEnd // RESILIENCE OPERATIONS|CHANGELOG
    | ObjectivesEnd          // FORCES\s+AND\s+DEPLOYMENT|SCENARIO\s+SPECIAL
    | DeploymentEnd          // SCENARIO\s+SPECIAL\s+RULES|LAUNCHING\s+TOWER|SERVER\s+ROOM|QUADRANTS
    | EndOfMissionEnd        // $|\d+\s+[A-Z][A-Z\s]+TACTICAL\s+SUPPORT
    | SkillLabelsEnd         // \nREQUIREMENTS|\nEFFECTS
    | RequirementsEnd        // \nEFFECTS|\nCANCELATION|\n[A-Z][A-Z\s]+\n|$
    | EffectsEnd             // \nCANCELATION|\n(?:SHORT|LONG)\s+SKILL|$
    | CancelationEnd         // \n[A-Z][A-Z\s]+\n|$

  /** `$` without `re.MULTILINE`: the end of `s`, or just before a final line feed. */
  predicate AtEnd(s: string, j: nat) {
    j == |s| || (j + 1 == |s| && s[j] == '\n')
  }

  /** `\nw` with `w` case-insensitive. */
  predicate NewlineThen(s: string, j: nat, w: string) {
    j < |s| && s[j] == '\n' && AtCI(s, j + 1, w)
  }

  /** `\n[A-Z][A-Z\s]+\n` (case-insensitive): a line of letters and spaces. */
  predicate CapsLineAt(s: string, j: nat)
    requires j <= |s|
  {
    j + 2 <= |s| && s[j] == '\n' && IsLetter(s[j + 1]) && RunThenNewline(s, j + 2)
  }

  /** `\d+\s+[A-Z][A-Z\s]+TACTICAL\s+SUPPORT`: a page footer. */
  predicate FooterAt(s: string, j: nat)
    requires j <= |s|
  {
    match Digits1(s, j)
    case None => false
    case Some(d) =>
      match Spaces1(s, d)
      case None => false
      case Some(p) =>
        p + 2 <= |s| && IsLetter(s[p]) && LetterOrSpace(s[p + 1]) && RunThenTacticalSupport(s, p + 2)
  }

  predicate StopAt(t: Stop, s: string, j: nat)
    requires j <= |s|
  {
    match t
    case ItsSectionEnd =>
      j < |s| && IsSpace(s[j]) && AtCI(s, SkipSpaces(s, j), "its direct action")
    case DirectActionSectionEnd =>
      AtCI(s, j, "resilience operations") || AtCI(s, j, "changelog")
    case ObjectivesEnd =>
      WordsEnd(s, j, ["forces", "and", "deployment"]).Some? || WordsEnd(s, j, ["scenario", "special"]).Some?
    case DeploymentEnd =>
      || WordsEnd(s, j, ["scenario", "special", "rules"]).Some?
      || WordsEnd(s, j, ["launching", "tower"]).Some?
      || WordsEnd(s, j, ["server", "room"]).Some?
      || AtCI(s, j, "quadrants")
    case EndOfMissionEnd =>
      AtEnd(s, j) || FooterAt(s, j)
    case SkillLabelsEnd =>
      NewlineThen(s, j, "requirements") || NewlineThen(s, j, "effects")
    case RequirementsEnd =>
      NewlineThen(s, j, "effects") || NewlineThen(s, j, "cancelation") || CapsLineAt(s, j) || AtEnd(s, j)
    case EffectsEnd =>
      || NewlineThen(s, j, "cancelation")
      || (j < |s| && s[j] == '\n' && (WordsEnd(s, j + 1, ["short", "skill"]).Some? || WordsEnd(s, j + 1, ["long", "skill"]).Some?))
      || AtEnd(s, j)
    case CancelationEnd =>
      CapsLineAt(s, j) || AtEnd(s, j)
  }

  /**
   * Where a lazy `(.*?)` that starts at `j` ends: the first position at
   * which the stop matches. Without `re.DOTALL` the group cannot cross a
   * line feed.
   */
  function FirstStop(t: Stop, s: string, j: nat, dotAll: bool): (r: Option<nat>)
    requires j <= |s|
    ensures r.Some? ==> j <= r.value <= |s| && StopAt(t, s, r.value)
    ensures r.Some? ==> forall k :: j <= k < r.value ==> !StopAt(t, s, k)
    decreases |s| - j
  {
    if StopAt(t, s, j) then Some(j)
    else if j == |s| || (!dotAll && s[j] == '\n') then None
    else FirstStop(t, s, j + 1, dotAll)
  }

  /** A stop that can match at the end of the text always ends the group. */
  lemma {:induction false} FirstStopAtEnd(t: Stop, s: string, j: nat)
    requires j <= |s|
    requires t.EndOfMissionEnd? || t.RequirementsEnd? || t.EffectsEnd? || t.CancelationEnd?
    ensures FirstStop(t, s, j, true).Some?
    decreases |s| - j
  {
    if j < |s| && !StopAt(t, s, j) {
      FirstStopAtEnd(t, s, j + 1);
    }
  }

  // ---------------------------------------------------------------------------
  // The patterns
  // ---------------------------------------------------------------------------

  /** Which of the three labelled parts of a skill rule. */
  datatype SkillField = Requirements | Effects | Cancelation

  /** `\s+(\d+)` at `k`: the span of the digits. */
  function NumberAfter(s: string, k: nat): (r: Option<Span>)
    requires k <= |s|
    ensures r.Some? ==> k < r.value.lo < r.value.hi <= |s|
  {
    match Spaces1(s, k)
    case None => None
    case Some(d0) =>
      match Digits1(s, d0)
      case None => None
      case Some(d) => Some(Span(d0, d))
  }

  function TacticalSupportAt(s: string, i: nat): (r: Option<Match>)
    requires i <= |s|
    ensures r.Some? ==> Valid(r.value, s, i)
  {
    match WordsEnd(s, i, ["tactical", "support", "options"])
    case None => None
    case Some(k) =>
      match NumberAfter(s, k)
      case None => None
      case Some(g) => Some(Match(i, g.hi, [g]))
  }

  /** The span holds `yes` or `no`, in any letter case. */
  predicate YesOrNo(s: string, g: Span) {
    g.lo <= g.hi <= |s| && (Lower(s[g.lo..g.hi]) == "yes" || Lower(s[g.lo..g.hi]) == "no")
  }

  /** `\s+(YES|NO)` (case-insensitive) at `k`: the span of the answer. */
  function AnswerAfter(s: string, k: nat): (r: Option<Span>)
    requires k <= |s|
    ensures r.Some? ==> k < r.value.lo < r.value.hi <= |s| && YesOrNo(s, r.value)
  {
    match Spaces1(s, k)
    case None => None
    case Some(m) =>
      if AtCI(s, m, "yes") then Some(Span(m, m + 3))
      else if AtCI(s, m, "no") then Some(Span(m, m + 2))
      else None
  }

  function ReinforcementsAt(s: string, i: nat): (r: Option<Match>)
    requires i <= |s|
    ensures r.Some? ==> Valid(r.value, s, i)
    ensures r.Some? ==> |r.value.groups| == 1 && YesOrNo(s, r.value.groups[0])
  {
    match WordsEnd(s, i, ["suitable", "for", "reinforcements"])
    case None => None
    case Some(k) =>
      match AnswerAfter(s, k)
      case None => None
      case Some(g) => Some(Match(i, g.hi, [g]))
  }

  /**
   * `Words\s+(.*?)(?:stop)` with `re.DOTALL`. Every stop starts with a
   * letter, so giving back whitespace to the group never helps.
   */
  function SectionAt(s: string, i: nat, ws: seq<string>, t: Stop): (r: Option<Match>)
    requires i <= |s|
    requires |ws| > 0 && |ws[0]| > 0
    ensures r.Some? ==> Valid(r.value, s, i)
  {
    match WordsEnd(s, i, ws)
    case None => None
    case Some(k) =>
      match Spaces1(s, k)
      case None => None
      case Some(g) =>
        match FirstStop(t, s, g, true)
        case None => None
        case Some(e) => Some(Match(i, e, [Span(g, e)]))
  }

  /** `SCENARIO\s+SPECIAL\s+RULES\s+(.*)` with `re.DOTALL`: the group runs to the end. */
  function SpecialRulesAt(s: string, i: nat): (r: Option<Match>)
    requires i <= |s|
    ensures r.Some? ==> Valid(r.value, s, i)
  {
    match WordsEnd(s, i, ["scenario", "special", "rules"])
    case None => None
    case Some(k) =>
      match Spaces1(s, k)
      case None => None
      case Some(g) => Some(Match(i, |s|, [Span(g, |s|)]))
  }

  /**
   * `ITS SCENARIOS\s+(\d+)\s+(.*?)\s+ITS DIRECT ACTION`. When no stop
   * follows the whitespace after the page number, the engine gives one
   * whitespace character back to the group: that succeeds, with an empty
   * group, exactly when the banner directly follows a run of at least two
   * whitespace characters.
   */
  function ItsSectionAt(s: string, i: nat): (r: Option<Match>)
    requires i <= |s|
    ensures r.Some? ==> Valid(r.value, s, i)
  {
    if !AtCI(s, i, "its scenarios") then None
    else
      match Spaces1(s, i + 13)
      case None => None
      case Some(d0) =>
        match Digits1(s, d0)
        case None => None
        case Some(d) =>
          match Spaces1(s, d)
          case None => None
          case Some(g) =>
            match FirstStop(ItsSectionEnd, s, g, false)
            case Some(e) => Some(Match(i, e, [Span(d0, d), Span(g, e)]))
            case None =>
              if g >= d + 2 && AtCI(s, g, "its direct action")
              then Some(Match(i, g - 1, [Span(d0, d), Span(g - 1, g - 1)]))
              else None
  }

  /** `ITS DIRECT ACTION\s+(\d+)\s+(.*?)(?:RESILIENCE OPERATIONS|CHANGELOG)`. */
  function DirectActionSectionAt(s: string, i: nat): (r: Option<Match>)
    requires i <= |s|
    ensures r.Some? ==> Valid(r.value, s, i)
  {
    if !AtCI(s, i, "its direct action") then None
    else
      match Spaces1(s, i + 17)
      case None => None
      case Some(d0) =>
        match Digits1(s, d0)
        case None => None
        case Some(d) =>
          match Spaces1(s, d)
          case None => None
          case Some(g) =>
            match FirstStop(DirectActionSectionEnd, s, g, false)
            case None => None
            case Some(e) => Some(Match(i, e, [Span(d0, d), Span(g, e)]))
  }

  /** The class `[A-Z\s\-]` (case-sensitive). */
  predicate NameChar(c: char) { IsUpper(c) || IsSpace(c) || c == '-' }

  /**
   * The lazy `[A-Z\s\-]+?` of a table-of-contents entry, extended from
   * `q`: the first position where `\s+\d` follows.
   */
  function LazyName(s: string, q: nat): (r: Option<nat>)
    requires q <= |s|
    ensures r.Some? ==> q <= r.value < |s| && IsSpace(s[r.value])
    ensures r.Some? ==> SkipSpaces(s, r.value) < |s| && IsDigit(s[SkipSpaces(s, r.value)])
    ensures r.Some? ==> forall k :: q <= k < r.value ==> NameChar(s[k])
    decreases |s| - q
  {
    if q == |s| then None
    else if IsSpace(s[q]) && SkipSpaces(s, q) < |s| && IsDigit(s[SkipSpaces(s, q)]) then Some(q)
    else if NameChar(s[q]) then LazyName(s, q + 1)
    else None
  }

  /** `([A-Z][A-Z\s\-]+?)\s+(\d+)`: a name and a page number. */
  function TocEntryAt(s: string, i: nat): (r: Option<Match>)
    requires i <= |s|
    ensures r.Some? ==> Valid(r.value, s, i)
  {
    if i + 2 > |s| || !IsUpper(s[i]) || !NameChar(s[i + 1]) then None
    else
      match LazyName(s, i + 2)
      case None => None
      case Some(q) =>
        var m := SkipSpaces(s, q);
        var d := DigitsEnd(s, m);
        Some(Match(i, d, [Span(i, q), Span(m, d)]))
  }

  /** `\d+\s+in\s+x\s+\d+\s+in`: a table or zone size. */
  function SizeEnd(s: string, k: nat): (r: Option<nat>)
    requires k <= |s|
    ensures r.Some? ==> k < r.value <= |s|
  {
    match Digits1(s, k)
    case None => None
    case Some(a) =>
      match SpacedWord(s, a, "in")
      case None => None
      case Some(b) =>
        match SpacedWord(s, b, "x")
        case None => None
        case Some(c) =>
          match Spaces1(s, c)
          case None => None
          case Some(d0) =>
            match Digits1(s, d0)
            case None => None
            case Some(d) => SpacedWord(s, d, "in")
  }

  /** `Radius of\s+\d+\s+in`. */
  function RadiusEnd(s: string, k: nat): (r: Option<nat>)
    requires k <= |s|
    ensures r.Some? ==> k < r.value <= |s|
  {
    if !AtCI(s, k, "radius of") then None
    else
      match Spaces1(s, k + 9)
      case None => None
      case Some(d0) =>
        match Digits1(s, d0)
        case None => None
        case Some(d) => SpacedWord(s, d, "in")
  }

  /** `(?:Size)|(?:Radius of\s+\d+\s+in)`: the first alternative wins when it matches. */
  function ZoneEnd(s: string, k: nat): (r: Option<nat>)
    requires k <= |s|
    ensures r.Some? ==> k < r.value <= |s|
  {
    match SizeEnd(s, k)
    case Some(e) => Some(e)
    case None => RadiusEnd(s, k)
  }

  /**
   * One row of the army-points table. `\d{3,4}` followed by `\s` matches
   * exactly a whole run of three or four digits.
   */
  function DeploymentRowAt(s: string, i: nat): (r: Option<Match>)
    requires i <= |s|
    ensures r.Some? ==> Valid(r.value, s, i)
  {
    match WordsEnd(s, i, ["a", "and", "b"])
    case None => None
    case Some(k) =>
      match Spaces1(s, k)
      case None => None
      case Some(p0) =>
        var p := DigitsEnd(s, p0);
        if !(p0 + 3 <= p <= p0 + 4) then None
        else
          match Spaces1(s, p)
          case None => None
          case Some(w0) => RowTail(s, i, Span(p0, p), w0)
  }

  /** `(\d+)\s+(Size)\s+(Zone)` of a row whose army points are `points`, from `w0`. */
  function RowTail(s: string, i: nat, points: Span, w0: nat): (r: Option<Match>)
    requires i <= points.lo <= points.hi < w0 <= |s|
    ensures r.Some? ==> Valid(r.value, s, i)
  {
    match Digits1(s, w0)
    case None => None
    case Some(w) =>
      match Spaces1(s, w)
      case None => None
      case Some(t0) =>
        match SizeEnd(s, t0)
        case None => None
        case Some(t) =>
          match Spaces1(s, t)
          case None => None
          case Some(z0) =>
            match ZoneEnd(s, z0)
            case None => None
            case Some(z) => Some(Match(i, z, [points, Span(w0, w), Span(t0, t), Span(z0, z)]))
  }

  /** `[^.]+\.` from `k`: through the first full stop, which must not be at `k`. */
  function SentenceEnd(s: string, k: nat): (r: Option<nat>)
    requires k <= |s|
    ensures r.Some? ==> k + 1 < r.value <= |s| && s[r.value - 1] == '.'
  {
    match FindFrom(s, ".", k)
    case None => None
    case Some(p) => if p > k then Some(p + 1) else None
  }

  /** `(?:allowed|permitted)` at `k`. */
  function VerbEnd(s: string, k: nat): (r: Option<nat>)
    requires k <= |s|
    ensures r.Some? ==> k < r.value <= |s|
  {
    if AtCI(s, k, "allowed") then Some(k + 7)
    else if AtCI(s, k, "permitted") then Some(k + 9)
    else None
  }

  /**
   * `It\s+is\s+(?:not\s+)?(?:allowed|permitted)[^.]+\.`. The optional
   * `not\s+` is tried first; without it the verb would have to start with
   * `n`, so the second try never succeeds.
   */
  function PermissionNoteAt(s: string, i: nat): (r: Option<nat>)
    requires i <= |s|
    ensures r.Some? ==> i < r.value <= |s| && s[r.value - 1] == '.'
  {
    match WordsEnd(s, i, ["it", "is"])
    case None => None
    case Some(k) =>
      match Spaces1(s, k)
      case None => None
      case Some(m) =>
        var withNot :=
          if AtCI(s, m, "not") then
            match Spaces1(s, m + 3)
            case None => None
            case Some(m2) => VerbEnd(s, m2)
          else None;
        var verb := if withNot.Some? then withNot else VerbEnd(s, m);
        match verb
        case None => None
        case Some(v) => SentenceEnd(s, v)
  }

  function DeploymentNoteAt(s: string, i: nat): (r: Option<Match>)
    requires i <= |s|
    ensures r.Some? ==> Valid(r.value, s, i)
  {
    match PermissionNoteAt(s, i)
    case Some(e) => Some(Match(i, e, [Span(i, e)]))
    case None =>
      match WordsEnd(s, i, ["exclusion", "zone"])
      case None => None
      case Some(v) =>
        match SentenceEnd(s, v)
        case None => None
        case Some(e) => Some(Match(i, e, [Span(i, e)]))
  }

  /** The class `[A-Z \t\-\(\)\/]` (case-sensitive). */
  predicate HeaderChar(c: char) {
    IsUpper(c) || IsBlank(c) || c == '-' || c == '(' || c == ')' || c == '/'
  }

  /**
   * `^([A-Z][A-Z \t\-\(\)\/]*[A-Z])[ \t]*$` with `re.MULTILINE`. Nothing in
   * the pattern matches a line feed, so it must cover the whole line; the
   * group ends at the last upper-case letter, which must follow the first
   * one and be followed by blanks only.
   */
  function RuleHeaderLineAt(s: string, i: nat): (r: Option<Match>)
    requires i <= |s|
    ensures r.Some? ==> Valid(r.value, s, i)
  {
    if i == |s| || (i > 0 && s[i - 1] != '\n') || !IsUpper(s[i]) then None
    else
      var l := LineEnd(s, i);
      var t := BlanksBack(s, i, l);
      if (forall k :: i <= k < l ==> HeaderChar(s[k])) && t >= i + 2 && IsUpper(s[t - 1])
      then Some(Match(i, l, [Span(i, t)]))
      else None
  }

  /** `(SHORT( MOVEMENT)?|LONG)\s+SKILL`. */
  function SkillMentionAt(s: string, i: nat): (r: Option<Match>)
    requires i <= |s|
    ensures r.Some? ==> Valid(r.value, s, i)
  {
    var e :=
      if AtCI(s, i, "short") then
        var moving := if AtCI(s, i + 5, " movement") then SpacedWord(s, i + 14, "skill") else None;
        if moving.Some? then moving else SpacedWord(s, i + 5, "skill")
      else if AtCI(s, i, "long") then SpacedWord(s, i + 4, "skill")
      else None;
    match e
    case None => None
    case Some(x) => Some(Match(i, x, []))
  }

  /**
   * `(SHORT|LONG)\s+SKILL\s*\n\s*(.*?)(?:\nREQUIREMENTS|\nEFFECTS)` with
   * `re.DOTALL`. The whitespace after SKILL must hold a line feed; the
   * labels start after it. When no stop follows, the engine gives back the
   * last line feed of that whitespace: when another line feed precedes it
   * and REQUIREMENTS or EFFECTS follows, the labels are empty.
   */
  function SkillTypeAt(s: string, i: nat): (r: Option<Match>)
    requires i <= |s|
    ensures r.Some? ==> Valid(r.value, s, i)
  {
    var kind := if AtCI(s, i, "short") then 5 else if AtCI(s, i, "long") then 4 else 0;
    if kind == 0 then None
    else
      match SpacedWord(s, i + kind, "skill")
      case None => None
      case Some(a) =>
        var b := SkipSpaces(s, a);
        if '\n' !in s[a..b] then None
        else
          match FirstStop(SkillLabelsEnd, s, b, true)
          case Some(e) => Some(Match(i, e, [Span(i, i + kind), Span(b, e)]))
          case None =>
            if b > a && s[b - 1] == '\n' && '\n' in s[a..b - 1] && (AtCI(s, b, "requirements") || AtCI(s, b, "effects"))
            then Some(Match(i, b - 1, [Span(i, i + kind), Span(b - 1, b - 1)]))
            else None
  }

  function FieldWord(f: SkillField): string {
    match f
    case Requirements => "requirements"
    case Effects => "effects"
    case Cancelation => "cancelation"
  }

  function FieldStop(f: SkillField): Stop {
    match f
    case Requirements => RequirementsEnd
    case Effects => EffectsEnd
    case Cancelation => CancelationEnd
  }

  /**
   * `WORD\s*\n\s*(.*?)(?=stop|$)` with `re.DOTALL`. The stop can always
   * match at the end of the text, so the group starts after the whole
   * whitespace run.
   */
  function FieldAt(s: string, i: nat, f: SkillField): (r: Option<Match>)
    requires i <= |s|
    ensures r.Some? ==> Valid(r.value, s, i)
  {
    var w := FieldWord(f);
    if !AtCI(s, i, w) then None
    else
      var a := i + |w|;
      var b := SkipSpaces(s, a);
      if '\n' !in s[a..b] then None
      else
        match FirstStop(FieldStop(f), s, b, true)
        case None => None
        case Some(e) => Some(Match(i, e, [Span(b, e)]))
  }

  function BlankRunAt(s: string, i: nat): (r: Option<Match>)
    requires i <= |s|
    ensures r.Some? ==> Valid(r.value, s, i)
  {
    if i < |s| && IsBlank(s[i]) then Some(Match(i, BlanksEnd(s, i), [])) else None
  }

  function NewlineRunAt(s: string, i: nat): (r: Option<Match>)
    requires i <= |s|
    ensures r.Some? ==> Valid(r.value, s, i)
  {
    if NewlinesEnd(s, i) >= i + 3 then Some(Match(i, NewlinesEnd(s, i), [])) else None
  }

  /** `\n\s*c\s*`: a line feed, whitespace, the marker `c`, whitespace. */
  function MarkerBreakAt(s: string, i: nat, c: char): (r: Option<Match>)
    requires i <= |s|
    ensures r.Some? ==> Valid(r.value, s, i)
  {
    if i == |s| || s[i] != '\n' then None
    else
      var b := SkipSpaces(s, i + 1);
      if b < |s| && s[b] == c then Some(Match(i, SkipSpaces(s, b + 1), [])) else None
  }

  /** `^\s*c\s*` (`lead` whitespace allowed before `c` or not). */
  function LeadingMarkerAt(s: string, i: nat, c: char, lead: bool): (r: Option<Match>)
    requires i <= |s|
    ensures r.Some? ==> Valid(r.value, s, i)
  {
    var b := if lead then SkipSpaces(s, 0) else 0;
    if i == 0 && b < |s| && s[b] == c then Some(Match(0, SkipSpaces(s, b + 1), [])) else None
  }

  /** `\s*\n\s*(?=[a-z•])`: a whitespace run holding a line feed, before a small letter or a bullet. */
  function BreakBeforeLowerAt(s: string, i: nat): (r: Option<Match>)
    requires i <= |s|
    ensures r.Some? ==> Valid(r.value, s, i)
  {
    var b := SkipSpaces(s, i);
    if '\n' in s[i..b] && b < |s| && (IsLower(s[b]) || s[b] == '•') then Some(Match(i, b, [])) else None
  }

  /** `\n\s+(?=[a-z])`: a line feed and more whitespace, before a small letter. */
  function IndentBeforeLowerAt(s: string, i: nat): (r: Option<Match>)
    requires i <= |s|
    ensures r.Some? ==> Valid(r.value, s, i)
  {
    if i == |s| || s[i] != '\n' then None
    else
      var b := SkipSpaces(s, i + 1);
      if b > i + 1 && b < |s| && IsLower(s[b]) then Some(Match(i, b, [])) else None
  }

  // ---------------------------------------------------------------------------
  // The patterns as matchers
  // ---------------------------------------------------------------------------

  /** What a pattern matches at a position of a text, as Python's engine tries it there. */
  type Matcher = (string, nat) -> Option<Match>

  /** TACTICAL\s+SUPPORT\s+OPTIONS\s+(\d+), case-insensitive. */
  const TacticalSupport: Matcher := (s: string, i: nat) => if i <= |s| then TacticalSupportAt(s, i) else None
  /** SUITABLE\s+FOR\s+REINFORCEMENTS\s+(YES|NO), case-insensitive. */
  const Reinforcements: Matcher := (s: string, i: nat) => if i <= |s| then ReinforcementsAt(s, i) else None
  /** MISSION\s+OBJECTIVES\s+(.*?)(?:FORCES\s+AND\s+DEPLOYMENT|SCENARIO\s+SPECIAL), dot-all, case-insensitive. */
  const ObjectivesSection: Matcher :=
    (s: string, i: nat) => if i <= |s| then SectionAt(s, i, ["mission", "objectives"], ObjectivesEnd) else None
  /** FORCES\s+AND\s+DEPLOYMENT\s+(.*?)(?:SCENARIO\s+SPECIAL\s+RULES|LAUNCHING\s+TOWER|SERVER\s+ROOM|QUADRANTS), dot-all, case-insensitive. */
  const DeploymentSection: Matcher :=
    (s: string, i: nat) => if i <= |s| then SectionAt(s, i, ["forces", "and", "deployment"], DeploymentEnd) else None
  /** SCENARIO\s+SPECIAL\s+RULES\s+(.*), dot-all, case-insensitive. */
  const SpecialRulesSection: Matcher := (s: string, i: nat) => if i <= |s| then SpecialRulesAt(s, i) else None
  /** END\s+OF\s+THE\s+MISSION\s+(.*?)(?:$|\d+\s+[A-Z][A-Z\s]+TACTICAL\s+SUPPORT), dot-all, case-insensitive. */
  const EndOfMissionSection: Matcher :=
    (s: string, i: nat) => if i <= |s| then SectionAt(s, i, ["end", "of", "the", "mission"], EndOfMissionEnd) else None
  /** ITS SCENARIOS\s+(\d+)\s+(.*?)\s+ITS DIRECT ACTION, case-insensitive. */
  const ItsSection: Matcher := (s: string, i: nat) => if i <= |s| then ItsSectionAt(s, i) else None
  /** ITS DIRECT ACTION\s+(\d+)\s+(.*?)(?:RESILIENCE OPERATIONS|CHANGELOG), case-insensitive. */
  const DirectActionSection: Matcher := (s: string, i: nat) => if i <= |s| then DirectActionSectionAt(s, i) else None
  /** ([A-Z][A-Z\s\-]+?)\s+(\d+). */
  const TocEntry: Matcher := (s: string, i: nat) => if i <= |s| then TocEntryAt(s, i) else None
  /** A\s+and\s+B\s+(\d{3,4})\s+(\d+)\s+(Size)\s+((?:Size)|(?:Radius of\s+\d+\s+in)), case-insensitive. */
  const DeploymentRow: Matcher := (s: string, i: nat) => if i <= |s| then DeploymentRowAt(s, i) else None
  /** It\s+is\s+(?:not\s+)?(?:allowed|permitted)[^.]+\.|Exclusion\s+Zone[^.]+\., case-insensitive. */
  const DeploymentNote: Matcher := (s: string, i: nat) => if i <= |s| then DeploymentNoteAt(s, i) else None
  /** ^([A-Z][A-Z \t\-\(\)\/]*[A-Z])[ \t]*$, multi-line. */
  const RuleHeaderLine: Matcher := (s: string, i: nat) => if i <= |s| then RuleHeaderLineAt(s, i) else None
  /** (SHORT( MOVEMENT)?|LONG)\s+SKILL, case-insensitive. */
  const SkillMention: Matcher := (s: string, i: nat) => if i <= |s| then SkillMentionAt(s, i) else None
  /** (SHORT|LONG)\s+SKILL\s*\n\s*(.*?)(?:\nREQUIREMENTS|\nEFFECTS), dot-all, case-insensitive. */
  const SkillType: Matcher := (s: string, i: nat) => if i <= |s| then SkillTypeAt(s, i) else None
  /** REQUIREMENTS\s*\n\s*(.*?)(?=\nEFFECTS|\nCANCELATION|\n[A-Z][A-Z\s]+\n|$), dot-all, case-insensitive. */
  const RequirementsField: Matcher := (s: string, i: nat) => if i <= |s| then FieldAt(s, i, Requirements) else None
  /** EFFECTS\s*\n\s*(.*?)(?=\nCANCELATION|\n(?:SHORT|LONG)\s+SKILL|$), dot-all, case-insensitive. */
  const EffectsField: Matcher := (s: string, i: nat) => if i <= |s| then FieldAt(s, i, Effects) else None
  /** CANCELATION\s*\n\s*(.*?)(?=\n[A-Z][A-Z\s]+\n|$), dot-all, case-insensitive. */
  const CancelationField: Matcher := (s: string, i: nat) => if i <= |s| then FieldAt(s, i, Cancelation) else None
  /** [ \t]+ */
  const BlankRun: Matcher := (s: string, i: nat) => if i <= |s| then BlankRunAt(s, i) else None
  /** \n{3,} */
  const NewlineRun: Matcher := (s: string, i: nat) => if i <= |s| then NewlineRunAt(s, i) else None
  /** \n\s*\^\s* */
  const CaretBreak: Matcher := (s: string, i: nat) => if i <= |s| then MarkerBreakAt(s, i, '^') else None
  /** ^\^\s* */
  const LeadingCaret: Matcher := (s: string, i: nat) => if i <= |s| then LeadingMarkerAt(s, i, '^', false) else None
  /** \n\s*►\s* */
  const Bullet: Matcher := (s: string, i: nat) => if i <= |s| then MarkerBreakAt(s, i, '►') else None
  /** ^\s*►\s* */
  const LeadingBullet: Matcher := (s: string, i: nat) => if i <= |s| then LeadingMarkerAt(s, i, '►', true) else None
  /** \s*\n\s*(?=[a-z•]) */
  const BreakBeforeLower: Matcher := (s: string, i: nat) => if i <= |s| then BreakBeforeLowerAt(s, i) else None
  /** \n\s+(?=[a-z]) */
  const IndentBeforeLower: Matcher := (s: string, i: nat) => if i <= |s| then IndentBeforeLowerAt(s, i) else None

  // ---------------------------------------------------------------------------
  // Drivers
  // ---------------------------------------------------------------------------

  /**
   * The match of `at` at `i`, when it is a well-formed one. Every matcher
   * above only yields well-formed matches, so for them this is `at(s, i)`
   * itself; the drivers below rely on it to terminate.
   */
  function MatchedAt(at: Matcher, s: string, i: nat): (r: Option<Match>)
    ensures r.Some? ==> Valid(r.value, s, i)
  {
    if at(s, i).Some? && Valid(at(s, i).value, s, i) then at(s, i) else None
  }

  /** `m` is what `at` matches at the start of `m`. */
  predicate Found(at: Matcher, s: string, m: Match) {
    MatchedAt(at, s, m.start) == Some(m)
  }

  /** `re.search` from `i`: the first position at which the pattern matches. */
  function FirstMatch(at: Matcher, s: string, i: nat): (r: Option<nat>)
    requires i <= |s|
    ensures r.Some? ==> i <= r.value <= |s| && MatchedAt(at, s, r.value).Some?
    decreases |s| - i
  {
    if MatchedAt(at, s, i).Some? then Some(i)
    else if i == |s| then None
    else FirstMatch(at, s, i + 1)
  }

  /** `FirstMatch` finds the leftmost match: the pattern matches nowhere before it, and nowhere at all when it finds nothing. */
  lemma {:induction false} FirstMatchLeftmost(at: Matcher, s: string, i: nat, k: nat)
    requires i <= k <= |s|
    requires FirstMatch(at, s, i).Some? ==> k < FirstMatch(at, s, i).value
    ensures MatchedAt(at, s, k).None?
    decreases k - i
  {
    if k > i {
      FirstMatchLeftmost(at, s, i + 1, k);
    }
  }

  /** `re.search(pattern, s)`. */
  function Search(at: Matcher, s: string): (r: Option<Match>)
    ensures r.Some? ==> Valid(r.value, s, r.value.start) && Found(at, s, r.value)
  {
    match FirstMatch(at, s, 0)
    case None => None
    case Some(j) => MatchedAt(at, s, j)
  }

  /** `re.finditer(pattern, s)` from position `i`: leftmost matches, none overlapping. */
  function FindAll(at: Matcher, s: string, i: nat): seq<Match>
    requires i <= |s|
    decreases |s| - i
  {
    match FirstMatch(at, s, i)
    case None => []
    case Some(j) =>
      var m := MatchedAt(at, s, j).value;
      [m] + FindAll(at, s, m.end)
  }

  /** Every match `FindAll` yields is what the pattern matches at its start; they come in order and do not overlap. */
  lemma {:induction false} FindAllSpec(at: Matcher, s: string, i: nat)
    requires i <= |s|
    ensures forall m :: m in FindAll(at, s, i) ==> i <= m.start && Valid(m, s, m.start) && Found(at, s, m)
    ensures forall k :: 0 <= k < |FindAll(at, s, i)| - 1 ==> FindAll(at, s, i)[k].end <= FindAll(at, s, i)[k + 1].start
    decreases |s| - i
  {
    var r := FindAll(at, s, i);
    match FirstMatch(at, s, i)
    case None =>
    case Some(j) =>
      var m := MatchedAt(at, s, j).value;
      FindAllSpec(at, s, m.end);
      var rest := FindAll(at, s, m.end);
      assert r == [m] + rest;
      forall k | 0 <= k < |r| - 1
        ensures r[k].end <= r[k + 1].start
      {
        if k > 0 {
          assert r[k] == rest[k - 1] && r[k + 1] == rest[k];
        } else {
          assert r[1] == rest[0] && rest[0] in rest;
        }
      }
  }

  /** `re.sub(pattern, rep, s)` with the scan at `i`: every match, left to right, replaced by `rep`. */
  function SubFrom(at: Matcher, s: string, rep: string, i: nat): string
    requires i <= |s|
    decreases |s| - i
  {
    if i == |s| then ""
    else
      match MatchedAt(at, s, i)
      case Some(m) => rep + SubFrom(at, s, rep, m.end)
      case None => [s[i]] + SubFrom(at, s, rep, i + 1)
  }

  /** Where the pattern matches nowhere from `i` on, `re.sub` copies the rest of the text. */
  lemma {:induction false} SubFromNoMatch(at: Matcher, s: string, rep: string, i: nat)
    requires i <= |s|
    requires forall k :: i <= k < |s| ==> MatchedAt(at, s, k).None?
    ensures SubFrom(at, s, rep, i) == s[i..]
    decreases |s| - i
  {
    if i < |s| {
      SubFromNoMatch(at, s, rep, i + 1);
      assert s[i..] == [s[i]] + s[i + 1..];
    }
  }

  /** `re.sub` removes a character that never survives a match attempt and is not in the replacement. */
  lemma {:induction false} SubRemoves(p: Matcher, s: string, rep: string, i: nat, c: char)
    requires i <= |s|
    requires c !in rep
    requires forall k :: i <= k < |s| && s[k] == c ==> MatchedAt(p, s, k).Some?
    ensures c !in SubFrom(p, s, rep, i)
    decreases |s| - i
  {
    if i < |s| {
      match MatchedAt(p, s, i)
      case Some(m) =>
        SubRemoves(p, s, rep, m.end, c);
      case None =>
        SubRemoves(p, s, rep, i + 1, c);
    }
  }

  /** `re.sub` keeps out a character that is neither in the text nor in the replacement. */
  lemma {:induction false} SubKeepsOut(p: Matcher, s: string, rep: string, i: nat, c: char)
    requires i <= |s|
    requires c !in rep && c !in s
    ensures c !in SubFrom(p, s, rep, i)
    decreases |s| - i
  {
    if i < |s| {
      match MatchedAt(p, s, i)
      case Some(m) =>
        SubKeepsOut(p, s, rep, m.end, c);
      case None =>
        SubKeepsOut(p, s, rep, i + 1, c);
    }
  }

  /** `re.sub(pattern, rep, s)`. */
  function Sub(at: Matcher, s: string, rep: string): string {
    SubFrom(at, s, rep, 0)
  }

  /** `re.split(pattern, s)` from the piece starting at `lo`, with the scan at `i`. */
  function SplitFrom(at: Matcher, s: string, lo: nat, i: nat): (r: seq<string>)
    requires lo <= i <= |s|
    ensures |r| > 0
    decreases |s| - i
  {
    if i == |s| then [s[lo..]]
    else
      match MatchedAt(at, s, i)
      case Some(m) => [s[lo..i]] + SplitFrom(at, s, m.end, m.end)
      case None => SplitFrom(at, s, lo, i + 1)
  }

  /** `re.split(pattern, s)`. */
  function SplitBy(at: Matcher, s: string): (r: seq<string>)
    ensures |r| > 0
  {
    SplitFrom(at, s, 0, 0)
  }

  // ---------------------------------------------------------------------------
  // Letter case
  // ---------------------------------------------------------------------------

  /** `re.search` gives the same answer on two texts of one length when the pattern does at every position. */
  lemma {:induction false} SearchAgree(at: Matcher, s: string, t: string)
    requires |s| == |t|
    requires forall i: nat :: i <= |s| ==> at(s, i) == at(t, i)
    ensures Search(at, s) == Search(at, t)
  {
    FirstMatchAgree(at, s, t, 0);
  }

  lemma {:induction false} FirstMatchAgree(at: Matcher, s: string, t: string, i: nat)
    requires i <= |s| == |t|
    requires forall i: nat :: i <= |s| ==> at(s, i) == at(t, i)
    ensures FirstMatch(at, s, i) == FirstMatch(at, t, i)
    ensures FirstMatch(at, s, i).Some? ==> MatchedAt(at, s, FirstMatch(at, s, i).value) == MatchedAt(at, t, FirstMatch(at, s, i).value)
    decreases |s| - i
  {
    assert MatchedAt(at, s, i) == MatchedAt(at, t, i);
    if MatchedAt(at, s, i).None? && i < |s| {
      FirstMatchAgree(at, s, t, i + 1);
    }
  }

  /** A case-insensitive literal matches the lower-cased text where it matches the text. */
  lemma AtCILower(s: string, i: nat, w: string)
    ensures AtCI(Lower(s), i, w) == AtCI(s, i, w)
  {
    if i + |w| <= |s| {
      LowerSlice(s, i, i + |w|);
      LowerLower(s[i..i + |w|]);
    }
  }

  lemma {:induction false} DigitsEndLower(s: string, i: nat)
    requires i <= |s|
    ensures DigitsEnd(Lower(s), i) == DigitsEnd(s, i)
    decreases |s| - i
  {
    LowerAt(s);
    if i < |s| && IsDigit(s[i]) {
      DigitsEndLower(s, i + 1);
    }
  }

  lemma {:induction false} WordsEndLower(s: string, i: nat, ws: seq<string>)
    requires i <= |s|
    ensures WordsEnd(Lower(s), i, ws) == WordsEnd(s, i, ws)
    decreases |ws|
  {
    if |ws| > 0 {
      AtCILower(s, i, ws[0]);
      if AtCI(s, i, ws[0]) && |ws| > 1 {
        SkipSpacesLower(s, i + |ws[0]|);
        match Spaces1(s, i + |ws[0]|)
        case None =>
        case Some(m) => WordsEndLower(s, m, ws[1..]);
      }
    }
  }

  lemma NumberAfterLower(s: string, k: nat)
    requires k <= |s|
    ensures NumberAfter(Lower(s), k) == NumberAfter(s, k)
  {
    SkipSpacesLower(s, k);
    if Spaces1(s, k).Some? {
      DigitsEndLower(s, Spaces1(s, k).value);
    }
  }

  lemma AnswerAfterLower(s: string, k: nat)
    requires k <= |s|
    ensures AnswerAfter(Lower(s), k) == AnswerAfter(s, k)
  {
    var t := Lower(s);
    SkipSpacesLower(s, k);
    if Spaces1(s, k).Some? {
      AtCILower(s, Spaces1(s, k).value, "yes");
      AtCILower(s, Spaces1(s, k).value, "no");
    }
    AnswerAfterAgree(t, s, k);
  }

  /** The answer depends only on where the spaces end and on which word follows them. */
  lemma AnswerAfterAgree(s: string, t: string, k: nat)
    requires k <= |s| && k <= |t|
    requires Spaces1(s, k) == Spaces1(t, k)
    requires Spaces1(s, k).Some? ==>
               && AtCI(s, Spaces1(s, k).value, "yes") == AtCI(t, Spaces1(s, k).value, "yes")
               && AtCI(s, Spaces1(s, k).value, "no") == AtCI(t, Spaces1(s, k).value, "no")
    ensures AnswerAfter(s, k) == AnswerAfter(t, k)
  {
  }
}
