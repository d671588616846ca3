/**
 * The regular expressions of the date resolvers, as `re.search` runs them:
 * each pattern is tried at position 0, 1, 2, ... and the first position where
 * it matches wins; at one position the alternatives are tried in the order
 * Python's backtracking tries them (a greedy `\d{1,2}` first takes two digits,
 * then one).  `\d` is restricted to ASCII digits, and word characters for `\b`
 * to ASCII letters, digits and `_`.
 */
module PyRegex {
  import opened Wrappers
  import opened PyText

  /** The separator classes `[\/\-\.]` and `[\/\-\s]`. */
  datatype SepClass = SlashDashDot | SlashDashSpace

  predicate IsSep(c: char, k: SepClass) {
    match k
    case SlashDashDot => c == '/' || c == '-' || c == '.'
    case SlashDashSpace => c == '/' || c == '-' || IsSpace(c)
  }

  predicate IsWordChar(c: char) {
    IsAsciiDigit(c) || IsAsciiLetter(c) || c == '_'
  }

  /** The patterns of the core. */
  datatype Pattern =
    | NumericYear4  // day, month, 4-digit year: (\d{1,2})[\/\-\.](\d{1,2})[\/\-\.](\d{4})
    | TextualMonth  // day, month name, year: (\d{1,2})\s+([A-Za-z]{3,})\s+(\d{4})
    | NumericYear2  // day, month, 2-digit year, word boundary: (\d{1,2})[\/\-\.](\d{1,2})[\/\-\.](\d{2})\b
    | DateLike      // a date-like substring: (\d{1,2}[\/\-\s]\d{1,2}[\/\-\s]\d{2,4})

  /** A match: its span in the subject and its capture groups. */
  datatype Match = Match(start: nat, end: nat, groups: seq<string>)

  /** The lengths of the three digit runs of a numeric date pattern. */
  datatype Shape = Shape(dayLen: nat, monthLen: nat, yearLen: nat)

  /**
   * The numeric pattern with fixed run lengths at position `i`: digits,
   * separator, digits, separator, digits, and (when `boundary`) a word boundary.
   */
  function ShapeAt(s: string, i: nat, sh: Shape, k: SepClass, boundary: bool): (r: Option<Match>)
    ensures r.Some? ==> r.value.start == i && r.value.end == i + sh.dayLen + sh.monthLen + sh.yearLen + 2 <= |s|
    ensures r.Some? ==> (
      && |r.value.groups| == 3
      && r.value.groups[0] == s[i..i + sh.dayLen] && |r.value.groups[0]| == sh.dayLen
      && |r.value.groups[1]| == sh.monthLen && |r.value.groups[2]| == sh.yearLen
      && AllDigits(r.value.groups[0]) && AllDigits(r.value.groups[1]) && AllDigits(r.value.groups[2]))
    ensures r.Some? ==> (
      && r.value.groups[1] == s[i + sh.dayLen + 1..i + sh.dayLen + 1 + sh.monthLen]
      && r.value.groups[2] == s[i + sh.dayLen + sh.monthLen + 2..r.value.end]
      && IsSep(s[i + sh.dayLen], k) && IsSep(s[i + sh.dayLen + 1 + sh.monthLen], k)
      && (boundary ==> r.value.end == |s| || !IsWordChar(s[r.value.end])))
  {
    var a := i + sh.dayLen;
    var b := a + 1 + sh.monthLen;
    var e := b + 1 + sh.yearLen;
    if e <= |s| && AllDigits(s[i..a]) && IsSep(s[a], k) && AllDigits(s[a + 1..b]) && IsSep(s[b], k)
       && AllDigits(s[b + 1..e]) && (!boundary || e == |s| || !IsWordChar(s[e]))
    then Some(Match(i, e, [s[i..a], s[a + 1..b], s[b + 1..e]]))
    else None
  }

  /** The first shape, in backtracking order, that matches at `i`. */
  function FirstShape(s: string, i: nat, shapes: seq<Shape>, k: SepClass, boundary: bool): (r: Option<Match>)
    ensures r.Some? ==> exists j :: 0 <= j < |shapes| && ShapeAt(s, i, shapes[j], k, boundary) == r
    ensures r.None? ==> forall j :: 0 <= j < |shapes| ==> ShapeAt(s, i, shapes[j], k, boundary).None?
  {
    if shapes == [] then None
    else
      var m := ShapeAt(s, i, shapes[0], k, boundary);
      if m.Some? then m else FirstShape(s, i, shapes[1..], k, boundary)
  }

  /** Day and month runs in backtracking order (two digits before one), one year length. */
  function DayMonthShapes(yearLen: nat): seq<Shape> {
    [Shape(2, 2, yearLen), Shape(2, 1, yearLen), Shape(1, 2, yearLen), Shape(1, 1, yearLen)]
  }

  /** The date-like substring: `\d{2,4}` at the end is greedy, so four digits are tried before three and two. */
  function DateLikeShapes(): seq<Shape> {
    [Shape(2, 2, 4), Shape(2, 2, 3), Shape(2, 2, 2), Shape(2, 1, 4), Shape(2, 1, 3), Shape(2, 1, 2),
     Shape(1, 2, 4), Shape(1, 2, 3), Shape(1, 2, 2), Shape(1, 1, 4), Shape(1, 1, 3), Shape(1, 1, 2)]
  }

  predicate InRun(c: char, letters: bool) {
    if letters then IsAsciiLetter(c) else IsSpace(c)
  }

  /** The end of the maximal run of letters (or of whitespace) starting at `j`. */
  function RunEnd(s: string, j: nat, letters: bool): (e: nat)
    requires j <= |s|
    ensures j <= e <= |s|
    ensures forall t :: j <= t < e ==> InRun(s[t], letters)
    ensures e == |s| || !InRun(s[e], letters)
    decreases |s| - j
  {
    if j < |s| && InRun(s[j], letters) then RunEnd(s, j + 1, letters) else j
  }

  /**
   * The textual pattern with a day of `dayLen` digits at `i`.  Each `\s+` and
   * `[A-Za-z]{3,}` takes its maximal run: the character after such a run can
   * never start the next element, so backtracking into it cannot succeed.
   */
  function TextualShape(s: string, i: nat, dayLen: nat): (r: Option<Match>)
    ensures r.Some? ==> r.value.start == i <= r.value.end <= |s|
    ensures r.Some? ==> (
      && |r.value.groups| == 3 && |r.value.groups[0]| == dayLen && |r.value.groups[2]| == 4
      && i + dayLen <= |s| && r.value.groups[0] == s[i..i + dayLen]
      && AllDigits(r.value.groups[0]) && AllDigits(r.value.groups[2]))
  {
    var a := i + dayLen;
    if a > |s| || !AllDigits(s[i..a]) then None
    else
      var b := RunEnd(s, a, false);
      if b == a then None
      else
        var c := RunEnd(s, b, true);
        if c - b < 3 then None
        else
          var d := RunEnd(s, c, false);
          if d == c || d + 4 > |s| || !AllDigits(s[d..d + 4]) then None
          else Some(Match(i, d + 4, [s[i..a], s[b..c], s[d..d + 4]]))
  }

  /** Whether `p` matches at position `i` of `s`, and with which groups. */
  function MatchAt(p: Pattern, s: string, i: nat): (r: Option<Match>)
    ensures r.Some? ==> r.value.start == i <= r.value.end <= |s|
    ensures r.Some? ==> |r.value.groups| == if p == DateLike then 1 else 3
  {
    match p
    case NumericYear4 => FirstShape(s, i, DayMonthShapes(4), SlashDashDot, false)
    case NumericYear2 => FirstShape(s, i, DayMonthShapes(2), SlashDashDot, true)
    case TextualMonth =>
      var m := TextualShape(s, i, 2);
      if m.Some? then m else TextualShape(s, i, 1)
    case DateLike =>
      match FirstShape(s, i, DateLikeShapes(), SlashDashSpace, false)
      case Some(m) => Some(Match(m.start, m.end, [s[m.start..m.end]]))
      case None => None
  }

  /** `re.search(p, s[i:])`: the leftmost position at or after `i` where `p` matches. */
  function SearchFrom(p: Pattern, s: string, i: nat): (r: Option<Match>)
    requires i <= |s| + 1
    ensures r.Some? ==> i <= r.value.start && MatchAt(p, s, r.value.start) == r
    ensures r.Some? ==> forall j :: i <= j < r.value.start ==> MatchAt(p, s, j).None?
    ensures r.None? ==> forall j :: i <= j <= |s| ==> MatchAt(p, s, j).None?
    decreases |s| + 1 - i
  {
    if i == |s| + 1 then None
    else
      var m := MatchAt(p, s, i);
      if m.Some? then m else SearchFrom(p, s, i + 1)
  }

  /** `re.search(p, s)`. */
  function Search(p: Pattern, s: string): (r: Option<Match>)
    ensures r.Some? ==> MatchAt(p, s, r.value.start) == r
    ensures r.Some? ==> forall j :: 0 <= j < r.value.start ==> MatchAt(p, s, j).None?
    ensures r.None? ==> forall j :: 0 <= j <= |s| ==> MatchAt(p, s, j).None?
  {
    SearchFrom(p, s, 0)
  }

  /** A match at the very start is what the search finds. */
  lemma SearchAtStart(p: Pattern, s: string)
    requires MatchAt(p, s, 0).Some?
    ensures Search(p, s) == MatchAt(p, s, 0)
  {
  }

  /** Every pattern of the core begins with a digit, so a text without digits never matches. */
  lemma NoDigitNoMatch(p: Pattern, s: string)
    requires forall i :: 0 <= i < |s| ==> !IsAsciiDigit(s[i])
    ensures Search(p, s).None?
  {
    forall j | 0 <= j <= |s| ensures MatchAt(p, s, j).None? {
      if MatchAt(p, s, j).Some? {
        MatchNeedsDigitAt(p, s, j);
      }
    }
  }

  /** Every shape of a table starts with at least one day digit. */
  predicate DaysNonEmpty(shapes: seq<Shape>) {
    forall n :: 0 <= n < |shapes| ==> shapes[n].dayLen >= 1
  }

  lemma ShapeTablesDaysNonEmpty()
    ensures DaysNonEmpty(DayMonthShapes(2)) && DaysNonEmpty(DayMonthShapes(4)) && DaysNonEmpty(DateLikeShapes())
  {
  }

  lemma FirstShapeNeedsDigit(s: string, i: nat, shapes: seq<Shape>, k: SepClass, boundary: bool)
    requires DaysNonEmpty(shapes)
    requires FirstShape(s, i, shapes, k, boundary).Some?
    ensures i < |s| && IsAsciiDigit(s[i])
  {
    var n :| 0 <= n < |shapes| && ShapeAt(s, i, shapes[n], k, boundary) == FirstShape(s, i, shapes, k, boundary);
    var g := ShapeAt(s, i, shapes[n], k, boundary).value.groups[0];
    assert g[0] == s[i];
  }

  lemma TextualNeedsDigit(s: string, i: nat, dayLen: nat)
    requires dayLen >= 1 && TextualShape(s, i, dayLen).Some?
    ensures i < |s| && IsAsciiDigit(s[i])
  {
    var g := TextualShape(s, i, dayLen).value.groups[0];
    assert g[0] == s[i];
  }

  lemma MatchNeedsDigitAt(p: Pattern, s: string, j: nat)
    requires MatchAt(p, s, j).Some?
    ensures j < |s| && IsAsciiDigit(s[j])
  {
    match p
    case TextualMonth =>
      if TextualShape(s, j, 2).Some? {
        TextualNeedsDigit(s, j, 2);
      } else {
        TextualNeedsDigit(s, j, 1);
      }
    case NumericYear4 =>
      ShapeTablesDaysNonEmpty();
      FirstShapeNeedsDigit(s, j, DayMonthShapes(4), SlashDashDot, false);
    case NumericYear2 =>
      ShapeTablesDaysNonEmpty();
      FirstShapeNeedsDigit(s, j, DayMonthShapes(2), SlashDashDot, true);
    case DateLike =>
      ShapeTablesDaysNonEmpty();
      FirstShapeNeedsDigit(s, j, DateLikeShapes(), SlashDashSpace, false);
  }

  /** The textual pattern needs whitespace after the day: a text without whitespace never matches it. */
  lemma NoSpaceNoTextualMatch(s: string)
    requires NoSpace(s)
    ensures Search(TextualMonth, s).None?
  {
    forall j | 0 <= j <= |s| ensures MatchAt(TextualMonth, s, j).None? {
      forall dl | dl == 1 || dl == 2 ensures TextualShape(s, j, dl).None? {
        var a := j + dl;
        if a <= |s| {
          assert RunEnd(s, a, false) == a;
        }
      }
    }
  }
}
