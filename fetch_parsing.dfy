/**
 * The two text resolvers of fetch_real_marketdata.py: `clean_number`, which
 * turns a price cell into a non-negative number or nothing, and
 * `parse_date_string`, which turns a date text into an ISO 8601 calendar date
 * in extended format (ISO 8601:2004 section 4.1.2.2) by trying three patterns
 * in a fixed order.  Neither ever raises: every failure is `None`.
 */
module FetchParsing {
  import opened Wrappers
  import opened PyText
  import opened PyFloat
  import opened PyDate
  import opened PyRegex

  // ---------------------------------------------------------------------
  // clean_number
  // ---------------------------------------------------------------------

  /** The texts that mean "no value" once stripped. */
  predicate IsSentinel(s: string) {
    s in ["--", "-", "\U{2014}", "NA", "N/A", "n/a", ""]
  }

  /** The characters deleted by the explicit replacements: no-break space, comma and space. */
  predicate NotReplaced(c: char) {
    c != '\U{A0}' && c != ',' && c != ' '
  }

  /** The text `float()` is given: the stripped input without the replaced characters, then without anything but digits, `.` and `-`. */
  function Cleaned(t: string): string {
    Filter(Filter(Strip(t), NotReplaced), IsNumberChar)
  }

  /** `clean_number(s)`: a non-negative number, or `None` for a missing, blank, sentinel, malformed or negative value. */
  function CleanNumber(s: Option<string>): (r: Option<real>)
    ensures r.Some? ==> r.value >= 0.0
    ensures s.None? ==> r.None?
    ensures s.Some? && IsSentinel(Strip(s.value)) ==> r.None?
  {
    match s
    case None => None
    case Some(t) =>
      if IsSentinel(Strip(t)) then None
      else
        var cleaned := Cleaned(t);
        if cleaned in ["", ".", "-"] then None
        else
          match ParseFloat(cleaned)
          case None => None
          case Some(v) => if v >= 0.0 then Some(v) else None
  }

  predicate NonNegative(v: Option<real>) {
    v.Some? && v.value >= 0.0
  }

  /**
   * The grammar `clean_number` accepts: a value comes back exactly when the
   * stripped text is no sentinel, the cleaned text is a decimal, and its value
   * is not negative; the value is then the decimal's.
   */
  lemma CleanNumberAccepts(t: string)
    ensures CleanNumber(Some(t)).Some? <==>
      !IsSentinel(Strip(t)) && IsDecimalText(Cleaned(t)) && NonNegative(ParseFloat(Cleaned(t)))
    ensures CleanNumber(Some(t)).Some? ==> ParseFloat(Cleaned(t)) == CleanNumber(Some(t))
  {
    var c := Cleaned(t);
    ParseFloatAcceptsDecimalText(c);
    if c in ["", ".", "-"] {
      assert !IsDecimalText(c) by {
        assert forall i :: 0 <= i < |c| ==> !IsAsciiDigit(c[i]);
      }
    }
  }

  /** A plain natural number is read as itself. */
  lemma CleanNumberNatural(n: nat)
    ensures CleanNumber(Some(NatToDigits(n))) == Some(n as real)
  {
    var s := NatToDigits(n);
    NatToDigitsRoundTrip(n);
    DigitFirstIsNoSentinel(s);
    NumberTextIsKept(s);
    ParseFloatNatural(n);
  }

  /** A text starting with a digit is no sentinel, nor one of the cleaned texts rejected outright. */
  lemma DigitFirstIsNoSentinel(s: string)
    requires |s| > 0 && IsAsciiDigit(s[0])
    ensures !IsSentinel(s) && s !in ["", ".", "-"]
  {
  }

  /** Digits, points and minus signs survive every stage of cleaning. */
  lemma NumberTextIsKept(s: string)
    requires forall i :: 0 <= i < |s| ==> IsNumberChar(s[i])
    ensures Strip(s) == s && Cleaned(s) == s
  {
    assert NoSpace(s);
    StripNoSpace(s);
    forall i | 0 <= i < |s| ensures NotReplaced(s[i]) {
      assert IsNumberChar(s[i]);
    }
    FilterKeepsAll(s, NotReplaced);
    FilterKeepsAll(s, IsNumberChar);
  }

  /** A thousands separator is ignored: `1,234` reads as `1234`. */
  lemma CleanNumberThousands(a: string, b: string)
    requires IsDigitString(a) && AllDigits(b)
    ensures CleanNumber(Some(a + "," + b)) == CleanNumber(Some(a + b))
  {
    var withComma := a + "," + b;
    CommaJoinFacts(a, b);
    StripNoSpace(withComma);
    DigitFirstIsNoSentinel(withComma);
    DigitFirstIsNoSentinel(a + b);
    NumberTextIsKept(a + b);
    CommaIsReplaced(a, b);
    assert Strip(withComma) == withComma;
    assert forall i :: 0 <= i < |a + b| ==> IsNumberChar((a + b)[i]);
    FilterKeepsAll(a + b, IsNumberChar);
    assert Cleaned(withComma) == Filter(a + b, IsNumberChar) == a + b;
    assert Cleaned(a + b) == a + b;
  }

  lemma CommaJoinFacts(a: string, b: string)
    requires IsDigitString(a) && AllDigits(b)
    ensures NoSpace(a + "," + b) && AllDigits(a + b)
    ensures IsAsciiDigit((a + "," + b)[0]) && IsAsciiDigit((a + b)[0])
  {
    var withComma := a + "," + b;
    forall i | 0 <= i < |withComma| ensures !IsSpace(withComma[i]) {
      if i < |a| { assert withComma[i] == a[i]; }
      else if i > |a| { assert withComma[i] == b[i - |a| - 1]; }
    }
    forall i | 0 <= i < |a + b| ensures IsAsciiDigit((a + b)[i]) {
      if i < |a| { assert (a + b)[i] == a[i]; } else { assert (a + b)[i] == b[i - |a|]; }
    }
    assert withComma[0] == a[0];
  }

  lemma CommaIsReplaced(a: string, b: string)
    requires AllDigits(a) && AllDigits(b)
    ensures Filter(a + "," + b, NotReplaced) == a + b
  {
    var fa, fc, fb := Filter(a, NotReplaced), Filter(",", NotReplaced), Filter(b, NotReplaced);
    FilterKeepsAll(a, NotReplaced);
    FilterKeepsAll(b, NotReplaced);
    assert fc == [];
    FilterAppend(a, ",", NotReplaced);
    assert Filter(a + ",", NotReplaced) == a;
    FilterAppend(a + ",", b, NotReplaced);
    assert Filter(a + "," + b, NotReplaced) == a + b;
  }

  /** A negative price is rejected rather than returned. */
  lemma CleanNumberRejectsNegative(n: nat)
    requires n > 0
    ensures CleanNumber(Some("-" + NatToDigits(n))) == None
  {
    var d := NatToDigits(n);
    var s := "-" + d;
    NatToDigitsRoundTrip(n);
    MinusDigitsFacts(d);
    NumberTextIsKept(s);
    assert s[1..] == d;
    ParseFloatNatural(n);
  }

  lemma MinusDigitsFacts(d: string)
    requires IsDigitString(d)
    ensures var s := "-" + d;
      && NoSpace(s) && (forall i :: 0 <= i < |s| ==> IsNumberChar(s[i]))
      && !IsSentinel(s) && s !in ["", ".", "-"]
  {
    var s := "-" + d;
    forall i | 0 < i < |s| ensures IsAsciiDigit(s[i]) {
      assert s[i] == d[i - 1];
    }
    assert s[1] == d[0];
  }

  // ---------------------------------------------------------------------
  // parse_date_string
  // ---------------------------------------------------------------------

  /** The year of a two-digit `yy`: below 70 in the 2000s, otherwise in the 1900s. */
  function Pivot(yy: nat): (y: nat)
    ensures yy < 100 ==> 1970 <= y <= 2069 && y % 100 == yy
  {
    if yy < 70 then 2000 + yy else 1900 + yy
  }

  /** The lower-case English month abbreviations `%b` accepts. */
  const MonthAbbreviations: seq<string> :=
    ["jan", "feb", "mar", "apr", "may", "jun", "jul", "aug", "sep", "oct", "nov", "dec"]

  /** The lower-case English month names `%B` accepts. */
  const MonthNames: seq<string> :=
    ["january", "february", "march", "april", "may", "june", "july", "august",
     "september", "october", "november", "december"]

  /** The month number of `name` in a table of twelve names, if it is one of them. */
  function MonthIndex(name: string, table: seq<string>): (r: Option<int>)
    ensures r.Some? ==> 1 <= r.value <= |table| && table[r.value - 1] == name
    ensures r.None? ==> name !in table
  {
    if table == [] then None
    else if table[0] == name then Some(1)
    else
      match MonthIndex(name, table[1..])
      case Some(k) => Some(k + 1)
      case None => None
  }

  /**
   * `datetime.strptime(f"{d} {mon} {y}", "%d %b %Y")` (or `%B` with the full
   * names) on the groups of the textual pattern: the day is one or two digits,
   * the month a run of letters, the year four digits, so the format can only
   * match them piece by piece; month names compare without regard to case.
   */
  function StrptimeTextual(d: string, mon: string, y: string, names: seq<string>): (r: Option<Date>)
    ensures r.Some? ==> ValidDate(r.value)
  {
    match (StrptimeDay(d), MonthIndex(Lower(mon), names))
    case (Some(day), Some(month)) =>
      if |y| == 4 && AllDigits(y) then MakeDate(DigitsValue(y), month, day) else None
    case _ => None
  }

  /** Stage 1: the first `D/M/YYYY` match (any of `/`, `-`, `.`), read day first, if it names a real day. */
  function FromNumericYear4(s: string): (r: Option<Date>)
    ensures r.Some? ==> ValidDate(r.value)
  {
    match Search(NumericYear4, s)
    case None => None
    case Some(m) => MakeDate(DigitsValue(m.groups[2]), DigitsValue(m.groups[1]), DigitsValue(m.groups[0]))
  }

  /** Stage 2: the first `D Month YYYY` match, read with abbreviated month names and then with full ones. */
  function FromTextualMonth(s: string): (r: Option<Date>)
    ensures r.Some? ==> ValidDate(r.value)
  {
    match Search(TextualMonth, s)
    case None => None
    case Some(m) => ReadTextual(m.groups[0], m.groups[1], m.groups[2])
  }

  /** The groups of a textual match read with `%d %b %Y`, and if that raises, with `%d %B %Y`. */
  function ReadTextual(d: string, mon: string, y: string): (r: Option<Date>)
    ensures r.Some? ==> ValidDate(r.value)
  {
    var short := StrptimeTextual(d, mon, y, MonthAbbreviations);
    if short.Some? then short else StrptimeTextual(d, mon, y, MonthNames)
  }

  /** Stage 3: the first `D/M/YY` match ending at a word boundary, with the year pivoted at 70. */
  function FromNumericYear2(s: string): (r: Option<Date>)
    ensures r.Some? ==> ValidDate(r.value)
  {
    match Search(NumericYear2, s)
    case None => None
    case Some(m) => MakeDate(Pivot(DigitsValue(m.groups[2])), DigitsValue(m.groups[1]), DigitsValue(m.groups[0]))
  }

  /** `date.isoformat()` of a date, if there is one. */
  function IsoOf(d: Option<Date>): (r: Option<string>)
    requires d.Some? ==> ValidDate(d.value)
    ensures r.Some? <==> d.Some?
    ensures r.Some? ==> IsIsoDate(r.value) && IsoFields(r.value) == d.value
  {
    match d
    case None => None
    case Some(date) =>
      IsoFormatRoundTrip(date);
      Some(IsoFormat(date))
  }

  /**
   * `parse_date_string(date_str)`: `None` for an empty text; otherwise the
   * stripped text goes through the three stages in order, a later stage only
   * when every earlier one found no match or an impossible date.
   */
  function ParseDateString(dateStr: string): (r: Option<string>)
    ensures dateStr == "" ==> r.None?
    ensures r.Some? ==> IsIsoDate(r.value)
  {
    if dateStr == "" then None
    else
      var s := Strip(dateStr);
      var first := FromNumericYear4(s);
      if first.Some? then IsoOf(first)
      else
        var second := FromTextualMonth(s);
        if second.Some? then IsoOf(second)
        else IsoOf(FromNumericYear2(s))
  }

  // ---- The day-first forms --------------------------------------------

  predicate IsFetchSeparator(c: char) {
    c == '/' || c == '-' || c == '.'
  }

  /** A day-first text has no whitespace, so stripping leaves it alone. */
  lemma DayFirstNoSpace(d: Date, sep: char, yearWidth: nat)
    requires FitsDayFirst(d, yearWidth) && IsFetchSeparator(sep)
    ensures NoSpace(DayFirst(d, sep, yearWidth))
    ensures Strip(DayFirst(d, sep, yearWidth)) == DayFirst(d, sep, yearWidth)
  {
    var s := DayFirst(d, sep, yearWidth);
    DayFirstFacts(d, sep, yearWidth);
    DayFirstDigitsElsewhere(d, sep, yearWidth);
    StripNoSpace(s);
  }

  /** In a day-first text the two separators sit at positions 2 and 5, and nothing else is a separator. */
  lemma SeparatorsOfDayFirst(d: Date, sep: char, yearWidth: nat, p: nat, k: SepClass)
    requires FitsDayFirst(d, yearWidth)
    requires p < |DayFirst(d, sep, yearWidth)| && IsSep(DayFirst(d, sep, yearWidth)[p], k)
    ensures p == 2 || p == 5
  {
    DayFirstDigitsElsewhere(d, sep, yearWidth);
  }

  /** The day-first text matched as a whole by the shape two, two, `yearWidth`. */
  lemma DayFirstShapeMatches(d: Date, sep: char, yearWidth: nat, boundary: bool)
    requires FitsDayFirst(d, yearWidth) && IsFetchSeparator(sep)
    ensures var s := DayFirst(d, sep, yearWidth);
      ShapeAt(s, 0, Shape(2, 2, yearWidth), SlashDashDot, boundary)
        == Some(Match(0, |s|, [s[..2], s[3..5], s[6..]]))
  {
    var s := DayFirst(d, sep, yearWidth);
    DayFirstFacts(d, sep, yearWidth);
    assert s[0..2] == s[..2];
    assert s[6..6 + yearWidth] == s[6..];
  }

  /** The first numeric stage finds the whole day-first text with a four-digit year and reads its fields. */
  lemma DayFirstStageOne(d: Date, sep: char)
    requires FitsDayFirst(d, 4) && IsFetchSeparator(sep)
    ensures FromNumericYear4(DayFirst(d, sep, 4)) == MakeDate(d.year, d.month, d.day)
  {
    var s := DayFirst(d, sep, 4);
    DayFirstShapeMatches(d, sep, 4, false);
    var m := Match(0, |s|, [s[..2], s[3..5], s[6..]]);
    assert MatchAt(NumericYear4, s, 0) == Some(m);
    assert Search(NumericYear4, s) == Some(m);
    DayFirstFacts(d, sep, 4);
  }

  /** The two-digit-year stage finds the whole day-first text with a two-digit year and pivots its year. */
  lemma DayFirstStageThree(d: Date, sep: char)
    requires FitsDayFirst(d, 2) && IsFetchSeparator(sep)
    ensures FromNumericYear2(DayFirst(d, sep, 2)) == MakeDate(Pivot(d.year), d.month, d.day)
  {
    var s := DayFirst(d, sep, 2);
    DayFirstShapeMatches(d, sep, 2, true);
    var m := Match(0, |s|, [s[..2], s[3..5], s[6..]]);
    assert MatchAt(NumericYear2, s, 0) == Some(m);
    assert Search(NumericYear2, s) == Some(m);
    DayFirstFacts(d, sep, 2);
  }

  /**
   * A numeric date written day first with a four-digit year and any of the
   * separators `/`, `-`, `.` resolves to the ISO text of that same day.
   */
  lemma ParseDateDayFirst(d: Date, sep: char)
    requires ValidDate(d) && IsFetchSeparator(sep)
    ensures FitsDayFirst(d, 4) && ParseDateString(DayFirst(d, sep, 4)) == Some(IsoFormat(d))
  {
    ValidFitsDayFirst(d);
    DayFirstNoSpace(d, sep, 4);
    DayFirstStageOne(d, sep);
  }

  /** No match of the two-digit-year pattern in a day-first text with a four-digit year: the year goes on past two digits. */
  lemma NoYear2MatchInYear4Text(d: Date, sep: char)
    requires FitsDayFirst(d, 4)
    ensures Search(NumericYear2, DayFirst(d, sep, 4)).None?
  {
    DayFirstFacts(d, sep, 4);
    DayFirstDigitsElsewhere(d, sep, 4);
    NoYear2MatchInOutline(DayFirst(d, sep, 4));
  }

  /** Digits everywhere but at positions 2 and 5: the outline of a day-first text. */
  predicate DigitsBesideSeparators(s: string) {
    forall i :: 0 <= i < |s| && i != 2 && i != 5 ==> IsAsciiDigit(s[i])
  }

  /** In the outline of a day-first text only positions 2 and 5 can hold a separator. */
  lemma OutlineSeparators(s: string, p: nat)
    requires DigitsBesideSeparators(s) && p < |s| && IsSep(s[p], SlashDashDot)
    ensures p == 2 || p == 5
  {
    if p != 2 && p != 5 {
      assert false;
    }
  }

  /** In a ten-character outline no two-digit-year shape ends at a word boundary. */
  lemma NoYear2ShapeInOutline(s: string, j: nat, sh: Shape)
    requires |s| == 10 && DigitsBesideSeparators(s)
    requires 1 <= sh.dayLen <= 2 && 1 <= sh.monthLen <= 2 && sh.yearLen == 2
    ensures ShapeAt(s, j, sh, SlashDashDot, true).None?
  {
    var a := j + sh.dayLen;
    var b := a + 1 + sh.monthLen;
    if ShapeAt(s, j, sh, SlashDashDot, true).Some? {
      OutlineSeparators(s, a);
      assert false;
    }
  }

  /** A ten-character outline holds no match of the two-digit-year pattern. */
  lemma NoYear2MatchInOutline(s: string)
    requires |s| == 10 && DigitsBesideSeparators(s)
    ensures Search(NumericYear2, s).None?
  {
    forall j | 0 <= j <= |s| ensures MatchAt(NumericYear2, s, j).None? {
      NoYear2MatchAtInOutline(s, j);
    }
  }

  lemma NoYear2MatchAtInOutline(s: string, j: nat)
    requires |s| == 10 && DigitsBesideSeparators(s) && j <= |s|
    ensures MatchAt(NumericYear2, s, j).None?
  {
    forall n | 0 <= n < 4 ensures ShapeAt(s, j, DayMonthShapes(2)[n], SlashDashDot, true).None? {
      NoYear2ShapeInOutline(s, j, DayMonthShapes(2)[n]);
    }
  }

  /**
   * A day-first text with four-digit year that names no real day (such as
   * `31/02/2024`) resolves to nothing: no later stage picks up a part of it.
   */
  lemma ParseDateRejectsImpossibleDay(d: Date, sep: char)
    requires FitsDayFirst(d, 4) && !ValidDate(d) && IsFetchSeparator(sep)
    ensures ParseDateString(DayFirst(d, sep, 4)) == None
  {
    var s := DayFirst(d, sep, 4);
    DayFirstNoSpace(d, sep, 4);
    DayFirstStageOne(d, sep);
    NoSpaceNoTextualMatch(s);
    NoYear2MatchInYear4Text(d, sep);
    DayFirstFacts(d, sep, 4);
  }

  /** No match of the four-digit-year pattern in a day-first text with a two-digit year: it is too short. */
  lemma NoYear4MatchInYear2Text(d: Date, sep: char)
    requires FitsDayFirst(d, 2)
    ensures Search(NumericYear4, DayFirst(d, sep, 2)).None?
  {
    DayFirstFacts(d, sep, 2);
    DayFirstDigitsElsewhere(d, sep, 2);
    NoYear4MatchInOutline(DayFirst(d, sep, 2));
  }

  /** In an eight-character outline no four-digit-year shape fits. */
  lemma NoYear4ShapeInOutline(s: string, j: nat, sh: Shape)
    requires |s| == 8 && DigitsBesideSeparators(s)
    requires 1 <= sh.dayLen <= 2 && 1 <= sh.monthLen <= 2 && sh.yearLen == 4
    ensures ShapeAt(s, j, sh, SlashDashDot, false).None?
  {
    if ShapeAt(s, j, sh, SlashDashDot, false).Some? {
      assert false;
    }
  }

  /** An eight-character outline holds no match of the four-digit-year pattern. */
  lemma NoYear4MatchInOutline(s: string)
    requires |s| == 8 && DigitsBesideSeparators(s)
    ensures Search(NumericYear4, s).None?
  {
    forall j | 0 <= j <= |s| ensures MatchAt(NumericYear4, s, j).None? {
      NoYear4MatchAtInOutline(s, j);
    }
  }

  lemma NoYear4MatchAtInOutline(s: string, j: nat)
    requires |s| == 8 && DigitsBesideSeparators(s) && j <= |s|
    ensures MatchAt(NumericYear4, s, j).None?
  {
    forall n | 0 <= n < 4 ensures ShapeAt(s, j, DayMonthShapes(4)[n], SlashDashDot, false).None? {
      NoYear4ShapeInOutline(s, j, DayMonthShapes(4)[n]);
    }
  }

  /**
   * A numeric date written day first with a two-digit year resolves to the
   * same day and month in the year the pivot gives: `07/11/25` is 2025-11-07
   * and `07/11/85` is 1985-11-07.
   */
  lemma ParseDateTwoDigitYear(day: nat, month: nat, yy: nat, sep: char)
    requires yy < 100 && IsFetchSeparator(sep) && ValidDate(Date(Pivot(yy), month, day))
    ensures FitsDayFirst(Date(yy, month, day), 2)
    ensures ParseDateString(DayFirst(Date(yy, month, day), sep, 2)) == Some(IsoFormat(Date(Pivot(yy), month, day)))
  {
    var d := Date(yy, month, day);
    Pow10Small();
    var s := DayFirst(d, sep, 2);
    DayFirstNoSpace(d, sep, 2);
    NoYear4MatchInYear2Text(d, sep);
    NoSpaceNoTextualMatch(s);
    DayFirstStageThree(d, sep);
    DayFirstFacts(d, sep, 2);
  }

  // ---- The textual form ------------------------------------------------

  /** The maximal run starting at `j` ends where the run of matching characters ends. */
  lemma {:induction false} RunEndAt(s: string, j: nat, e: nat, letters: bool)
    requires j <= e <= |s|
    requires forall t :: j <= t < e ==> InRun(s[t], letters)
    requires e == |s| || !InRun(s[e], letters)
    ensures RunEnd(s, j, letters) == e
    decreases e - j
  {
    if j < e {
      RunEndAt(s, j + 1, e, letters);
    }
  }

  /** `DD Month YYYY` with one space on each side of the month name. */
  function DayMonthNameYear(d: Date, name: string): string
    requires ValidDate(d)
  {
    Pad(d.day, 2) + " " + name + " " + Pad(d.year, 4)
  }

  /** Each position of the textual form: digits, a space, the letters, a space, digits. */
  lemma DayMonthNameYearFacts(d: Date, name: string)
    requires ValidDate(d)
    ensures var s := DayMonthNameYear(d, name);
      var n := |name|;
      && |s| == n + 8 && s[2] == ' ' && s[3 + n] == ' '
      && s[..2] == Pad(d.day, 2) && s[3..3 + n] == name && s[4 + n..] == Pad(d.year, 4)
      && AllDigits(s[..2]) && AllDigits(s[4 + n..]) && DigitsValue(s[4 + n..]) == d.year
  {
    Pow10Small();
    PadFacts(d.day, 2);
    PadFacts(d.year, 4);
    var s := DayMonthNameYear(d, name);
    var n := |name|;
    assert s[..2] == Pad(d.day, 2);
    assert s[3..3 + n] == name;
    assert s[4 + n..] == Pad(d.year, 4);
  }

  /** Without `/`, `-` or `.` the numeric patterns never match. */
  lemma NoSeparatorNoNumericMatch(s: string)
    requires forall i :: 0 <= i < |s| ==> !IsFetchSeparator(s[i])
    ensures Search(NumericYear4, s).None?
  {
    forall j | 0 <= j <= |s| ensures MatchAt(NumericYear4, s, j).None? {
      forall n | 0 <= n < 4 ensures ShapeAt(s, j, DayMonthShapes(4)[n], SlashDashDot, false).None? {
        var sh := DayMonthShapes(4)[n];
        if ShapeAt(s, j, sh, SlashDashDot, false).Some? {
          assert false;
        }
      }
    }
  }

  /** The textual form has no separator, and stripping leaves it alone. */
  lemma TextualFormPlain(d: Date, name: string)
    requires ValidDate(d)
    requires |name| >= 3 && forall i :: 0 <= i < |name| ==> IsAsciiLetter(name[i])
    ensures var s := DayMonthNameYear(d, name);
      s != "" && Strip(s) == s && Search(NumericYear4, s).None?
  {
    var s := DayMonthNameYear(d, name);
    var n := |name|;
    DayMonthNameYearFacts(d, name);
    forall i | 0 <= i < |s| ensures !IsFetchSeparator(s[i]) && (i != 2 && i != 3 + n ==> !IsSpace(s[i])) {
      if i < 2 { assert s[i] == s[..2][i]; }
      else if 3 <= i < 3 + n { assert s[i] == name[i - 3]; }
      else if i >= 4 + n { assert s[i] == s[4 + n..][i - 4 - n]; }
    }
    assert IsAsciiDigit(s[0]) by { assert s[0] == s[..2][0]; }
    assert IsAsciiDigit(s[|s| - 1]) by { assert s[|s| - 1] == s[4 + n..][3]; }
    NoSeparatorNoNumericMatch(s);
  }

  /** Two digits, a space, a run of at least three letters, a space, four digits: the textual shape at 0 takes it all. */
  lemma TextualShapeWhole(s: string, n: nat)
    requires |s| == n + 8 && n >= 3
    requires AllDigits(s[..2]) && s[2] == ' ' && s[3 + n] == ' ' && AllDigits(s[4 + n..])
    requires forall t :: 3 <= t < 3 + n ==> IsAsciiLetter(s[t])
    ensures TextualShape(s, 0, 2) == Some(Match(0, n + 8, [s[..2], s[3..3 + n], s[4 + n..]]))
  {
    RunEndAt(s, 2, 3, false);
    RunEndAt(s, 3, 3 + n, true);
    assert IsAsciiDigit(s[4 + n]) by { assert s[4 + n] == s[4 + n..][0]; }
    RunEndAt(s, 3 + n, 4 + n, false);
    assert s[0..2] == s[..2];
    assert s[4 + n..4 + n + 4] == s[4 + n..];
  }

  /** The textual pattern finds `DD Month YYYY` whole, its three groups the day, the month name and the year. */
  lemma TextualWhole(day: string, name: string, year: string)
    requires |day| == 2 && AllDigits(day) && |year| == 4 && AllDigits(year)
    requires |name| >= 3 && forall i :: 0 <= i < |name| ==> IsAsciiLetter(name[i])
    ensures Search(TextualMonth, day + " " + name + " " + year) == Some(Match(0, |name| + 8, [day, name, year]))
  {
    var s := day + " " + name + " " + year;
    var n := |name|;
    assert s[..2] == day;
    assert s[3..3 + n] == name;
    assert s[4 + n..] == year;
    forall t | 3 <= t < 3 + n ensures IsAsciiLetter(s[t]) {
      assert s[t] == name[t - 3];
    }
    TextualShapeWhole(s, n);
    SearchAtStart(TextualMonth, s);
  }

  /** The textual form is found whole by the textual pattern, and by no numeric pattern before it. */
  lemma TextualFormMatches(d: Date, name: string)
    requires ValidDate(d)
    requires |name| >= 3 && forall i :: 0 <= i < |name| ==> IsAsciiLetter(name[i])
    ensures var r := ReadTextual(Pad(d.day, 2), name, Pad(d.year, 4));
      r.Some? ==> ParseDateString(DayMonthNameYear(d, name)) == IsoOf(r)
  {
    TextualFormPlain(d, name);
    TextualFormGroups(d, name);
    ResolvedByTextual(DayMonthNameYear(d, name));
  }

  /** The groups the textual pattern takes from the textual form are the padded day, the name and the padded year. */
  lemma TextualFormGroups(d: Date, name: string)
    requires ValidDate(d)
    requires |name| >= 3 && forall i :: 0 <= i < |name| ==> IsAsciiLetter(name[i])
    ensures FromTextualMonth(DayMonthNameYear(d, name)) == ReadTextual(Pad(d.day, 2), name, Pad(d.year, 4))
  {
    Pow10Small();
    PadFacts(d.day, 2);
    PadFacts(d.year, 4);
    TextualWhole(Pad(d.day, 2), name, Pad(d.year, 4));
  }

  /** A stripped text the first stage does not match goes to the textual stage. */
  lemma ResolvedByTextual(s: string)
    requires s != "" && Strip(s) == s && Search(NumericYear4, s).None?
    ensures FromTextualMonth(s).Some? ==> ParseDateString(s) == IsoOf(FromTextualMonth(s))
  {
  }

  /**
   * A date written `DD Mon YYYY` or `DD Month YYYY`, the month named in
   * English in any mix of upper and lower case, resolves to the ISO text of
   * that day.
   */
  lemma ParseDateTextualMonth(d: Date, name: string, full: bool)
    requires ValidDate(d)
    requires |name| >= 3 && forall i :: 0 <= i < |name| ==> IsAsciiLetter(name[i])
    requires Lower(name) == (if full then MonthNames else MonthAbbreviations)[d.month - 1]
    ensures ParseDateString(DayMonthNameYear(d, name)) == Some(IsoFormat(d))
  {
    ReadTextualMonthName(d, name, full);
    TextualFormResolves(d, name);
  }

  /** When the groups read as the day itself, the textual form resolves to that day's ISO text. */
  lemma TextualFormResolves(d: Date, name: string)
    requires ValidDate(d)
    requires |name| >= 3 && forall i :: 0 <= i < |name| ==> IsAsciiLetter(name[i])
    requires ReadTextual(Pad(d.day, 2), name, Pad(d.year, 4)) == Some(d)
    ensures ParseDateString(DayMonthNameYear(d, name)) == Some(IsoFormat(d))
  {
    TextualFormMatches(d, name);
  }

  /** Either reading of the groups gives the day when the month is named in its table. */
  lemma ReadTextualMonthName(d: Date, name: string, full: bool)
    requires ValidDate(d)
    requires Lower(name) == (if full then MonthNames else MonthAbbreviations)[d.month - 1]
    ensures ReadTextual(Pad(d.day, 2), name, Pad(d.year, 4)) == Some(d)
  {
    if full {
      ReadFullMonthName(d, name);
    } else {
      ReadShortMonthName(d, name);
    }
  }

  /** An abbreviated month name is read by the first attempt, `%d %b %Y`. */
  lemma ReadShortMonthName(d: Date, name: string)
    requires ValidDate(d) && Lower(name) == MonthAbbreviations[d.month - 1]
    ensures StrptimeTextual(Pad(d.day, 2), name, Pad(d.year, 4), MonthAbbreviations) == Some(d)
    ensures ReadTextual(Pad(d.day, 2), name, Pad(d.year, 4)) == Some(d)
  {
    Pow10Small();
    PadFacts(d.year, 4);
    StrptimeDayPadded(d.day);
    MonthIndexOfMonth(d.month, false);
  }

  /** A full month name is read by `%d %B %Y` once `%d %b %Y` has failed; `may` is read by the first attempt. */
  lemma ReadFullMonthName(d: Date, name: string)
    requires ValidDate(d) && Lower(name) == MonthNames[d.month - 1]
    ensures ReadTextual(Pad(d.day, 2), name, Pad(d.year, 4)) == Some(d)
  {
    if d.month == 5 {
      assert MonthNames[4] == MonthAbbreviations[4];
      ReadShortMonthName(d, name);
    } else {
      FullNameNotAbbreviation(name, d.month);
      ReadFullAttempt(d, name);
    }
  }

  /** A full month name other than `may` is no abbreviation, so `%d %b %Y` fails on it. */
  lemma FullNameNotAbbreviation(name: string, month: int)
    requires 1 <= month <= 12 && month != 5 && Lower(name) == MonthNames[month - 1]
    ensures MonthIndex(Lower(name), MonthAbbreviations).None?
  {
    MonthIndexOfMonth(month, true);
  }

  /** `%d %B %Y` reads a full month name as its month. */
  lemma ReadFullAttempt(d: Date, name: string)
    requires ValidDate(d) && Lower(name) == MonthNames[d.month - 1]
    ensures StrptimeTextual(Pad(d.day, 2), name, Pad(d.year, 4), MonthNames) == Some(d)
  {
    Pow10Small();
    PadFacts(d.year, 4);
    StrptimeDayPadded(d.day);
    MonthIndexOfMonth(d.month, true);
  }

  /** Each month name sits at its own month number, and full names other than `may` are no abbreviations. */
  lemma MonthIndexOfMonth(month: int, full: bool)
    requires 1 <= month <= 12
    ensures MonthIndex((if full then MonthNames else MonthAbbreviations)[month - 1],
                       if full then MonthNames else MonthAbbreviations) == Some(month)
    ensures full && month != 5 ==> MonthNames[month - 1] !in MonthAbbreviations
  {
    var table := if full then MonthNames else MonthAbbreviations;
    MonthTablesDistinct();
    MonthIndexAt(table, month - 1);
  }

  /** The names of one table are pairwise different. */
  lemma MonthTablesDistinct()
    ensures forall i, j :: 0 <= i < j < 12 ==> MonthNames[i] != MonthNames[j]
    ensures forall i, j :: 0 <= i < j < 12 ==> MonthAbbreviations[i] != MonthAbbreviations[j]
    ensures forall i :: 0 <= i < 12 ==> |MonthAbbreviations[i]| == 3
    ensures forall i :: 0 <= i < 12 && i != 4 ==> |MonthNames[i]| > 3
  {
  }

  /** In a table whose entries are pairwise different, each entry is found at its own position. */
  lemma {:induction false} MonthIndexAt(table: seq<string>, k: nat)
    requires k < |table|
    requires forall i :: 0 <= i < k ==> table[i] != table[k]
    ensures MonthIndex(table[k], table) == Some(k + 1)
  {
    if k > 0 {
      assert table[0] != table[k];
      assert table[1..][k - 1] == table[k];
      MonthIndexAt(table[1..], k - 1);
    }
  }

  /** A text without digits never resolves, whatever its letters say. */
  lemma ParseDateNeedsDigits(dateStr: string)
    requires forall i :: 0 <= i < |dateStr| ==> !IsAsciiDigit(dateStr[i])
    ensures ParseDateString(dateStr) == None
  {
    var s := Strip(dateStr);
    StripKeepsNoDigit(dateStr);
    NoDigitNoMatch(NumericYear4, s);
    NoDigitNoMatch(TextualMonth, s);
    NoDigitNoMatch(NumericYear2, s);
  }

  /** Stripping only removes characters, so a text without digits stays without digits. */
  lemma StripKeepsNoDigit(t: string)
    requires forall i :: 0 <= i < |t| ==> !IsAsciiDigit(t[i])
    ensures forall i :: 0 <= i < |Strip(t)| ==> !IsAsciiDigit(Strip(t)[i])
  {
    var l := StripLeft(t);
    NoDigitSlice(t, |t| - |l|);
    NoDigitPrefix(l, |StripRight(l)|);
  }

  lemma NoDigitSlice(t: string, k: nat)
    requires k <= |t| && forall i :: 0 <= i < |t| ==> !IsAsciiDigit(t[i])
    ensures forall i :: 0 <= i < |t[k..]| ==> !IsAsciiDigit(t[k..][i])
  {
    forall i | 0 <= i < |t[k..]| ensures !IsAsciiDigit(t[k..][i]) {
      assert t[k..][i] == t[k + i];
    }
  }

  lemma NoDigitPrefix(t: string, k: nat)
    requires k <= |t| && forall i :: 0 <= i < |t| ==> !IsAsciiDigit(t[i])
    ensures forall i :: 0 <= i < |t[..k]| ==> !IsAsciiDigit(t[..k][i])
  {
  }

}
