/**
 * Python's `datetime.date` as the core uses it: the proleptic Gregorian
 * calendar over years 1..9999, the constructor that raises `ValueError` on an
 * impossible day, `date.isoformat()` (ISO 8601:2004 section 4.1.2.2, extended
 * format `YYYY-MM-DD`) and `datetime.strptime(text, "%d/%m/%Y")`.
 */
module PyDate {
  import opened Wrappers
  import opened PyText

  datatype Date = Date(year: int, month: int, day: int)

  predicate IsLeapYear(y: int) {
    y % 4 == 0 && (y % 100 != 0 || y % 400 == 0)
  }

  function DaysInMonth(y: int, m: int): int
    requires 1 <= m <= 12
  {
    if m == 2 then (if IsLeapYear(y) then 29 else 28)
    else if m == 4 || m == 6 || m == 9 || m == 11 then 30
    else 31
  }

  /** The dates `datetime.date` can represent (`MINYEAR` is 1, `MAXYEAR` is 9999). */
  predicate ValidDate(d: Date) {
    && 1 <= d.year <= 9999
    && 1 <= d.month <= 12
    && 1 <= d.day <= DaysInMonth(d.year, d.month)
  }

  /** `datetime.date(y, m, d)`; `None` stands for the `ValueError` it raises. */
  function MakeDate(y: int, m: int, d: int): Option<Date> {
    if ValidDate(Date(y, m, d)) then Some(Date(y, m, d)) else None
  }

  /** `date.isoformat()`: `YYYY-MM-DD`, each field zero-padded. */
  function IsoFormat(d: Date): string
    requires ValidDate(d)
  {
    Pad(d.year, 4) + "-" + Pad(d.month, 2) + "-" + Pad(d.day, 2)
  }

  /** The three numeric fields of a `YYYY-MM-DD` text. */
  function IsoFields(t: string): Date
    requires |t| == 10
  {
    Date(DigitsValue(t[..4]), DigitsValue(t[5..7]), DigitsValue(t[8..]))
  }

  /** An ISO 8601 calendar date in extended format naming a real day. */
  predicate IsIsoDate(t: string) {
    && |t| == 10
    && t[4] == '-' && t[7] == '-'
    && AllDigits(t[..4]) && AllDigits(t[5..7]) && AllDigits(t[8..])
    && ValidDate(IsoFields(t))
  }

  lemma Pow10Small()
    ensures Pow10(2) == 100 && Pow10(4) == 10000
  {
  }

  /** `isoformat` produces a well-formed ISO date whose fields read back as the date. */
  lemma IsoFormatRoundTrip(d: Date)
    requires ValidDate(d)
    ensures IsIsoDate(IsoFormat(d))
    ensures IsoFields(IsoFormat(d)) == d
  {
    Pow10Small();
    PadFacts(d.year, 4);
    PadFacts(d.month, 2);
    PadFacts(d.day, 2);
    var y, m, dd := Pad(d.year, 4), Pad(d.month, 2), Pad(d.day, 2);
    var t := IsoFormat(d);
    assert t == y + "-" + m + "-" + dd;
    assert t[..4] == y;
    assert t[5..7] == m;
    assert t[8..] == dd;
  }

  /** Two valid dates with the same ISO text are the same date. */
  lemma IsoFormatInjective(a: Date, b: Date)
    requires ValidDate(a) && ValidDate(b)
    requires IsoFormat(a) == IsoFormat(b)
    ensures a == b
  {
    IsoFormatRoundTrip(a);
    IsoFormatRoundTrip(b);
  }

  /** The `%d` directive of `strptime`: one of `3[01]`, `[12]\d`, `0[1-9]`, `[1-9]`, ` [1-9]`. */
  function StrptimeDay(t: string): Option<int> {
    if |t| == 1 && '1' <= t[0] <= '9' then Some(DigitValue(t[0]))
    else if |t| == 2 && '1' <= t[1] <= '9' && (t[0] == '0' || t[0] == ' ') then Some(DigitValue(t[1]))
    else if |t| == 2 && (t[0] == '1' || t[0] == '2') && IsAsciiDigit(t[1]) then Some(DigitsValue(t))
    else if |t| == 2 && t[0] == '3' && (t[1] == '0' || t[1] == '1') then Some(DigitsValue(t))
    else None
  }

  /** The `%m` directive of `strptime`: one of `1[0-2]`, `0[1-9]`, `[1-9]`. */
  function StrptimeMonth(t: string): Option<int> {
    if |t| == 1 && '1' <= t[0] <= '9' then Some(DigitValue(t[0]))
    else if |t| == 2 && t[0] == '0' && '1' <= t[1] <= '9' then Some(DigitValue(t[1]))
    else if |t| == 2 && t[0] == '1' && '0' <= t[1] <= '2' then Some(DigitsValue(t))
    else None
  }

  /**
   * `datetime.strptime(s, "%d/%m/%Y").date()`; `None` stands for the
   * `ValueError` it raises.  The whole text must match.  Neither the day nor
   * the month directive can match a `/`, so in any match the day is the text
   * before the first `/` and the month the text before the second.
   */
  function StrptimeDmy(s: string): (r: Option<Date>)
    ensures r.Some? ==> ValidDate(r.value)
  {
    var p := IndexOf(s, '/');
    if p == |s| then None
    else
      var rest := s[p + 1..];
      var q := IndexOf(rest, '/');
      if q == |rest| then None
      else
        var yearText := rest[q + 1..];
        match (StrptimeDay(s[..p]), StrptimeMonth(rest[..q]))
        case (Some(day), Some(month)) =>
          if |yearText| == 4 && AllDigits(yearText) then MakeDate(DigitsValue(yearText), month, day) else None
        case _ => None
  }

  /** Fields small enough to be written day first with a year of `yearWidth` digits. */
  predicate FitsDayFirst(d: Date, yearWidth: nat) {
    && 1 <= yearWidth && 0 <= d.year < Pow10(yearWidth)
    && 0 <= d.month < 100 && 0 <= d.day < 100
  }

  /** A date written day first, `DD<sep>MM<sep>Y...Y`, as the market boards publish it. */
  function DayFirst(d: Date, sep: char, yearWidth: nat): string
    requires FitsDayFirst(d, yearWidth)
  {
    Pad(d.day, 2) + [sep] + Pad(d.month, 2) + [sep] + Pad(d.year, yearWidth)
  }

  /** Every valid date fits the four-digit day-first form. */
  lemma ValidFitsDayFirst(d: Date)
    requires ValidDate(d)
    ensures FitsDayFirst(d, 4)
  {
    Pow10Small();
  }

  /** The pieces of a day-first text: two digits, separator, two digits, separator, the year digits. */
  lemma DayFirstFacts(d: Date, sep: char, yearWidth: nat)
    requires FitsDayFirst(d, yearWidth)
    ensures var s := DayFirst(d, sep, yearWidth);
      && |s| == 6 + yearWidth && s[2] == sep && s[5] == sep
      && s[..2] == Pad(d.day, 2) && s[3..5] == Pad(d.month, 2) && s[6..] == Pad(d.year, yearWidth)
      && AllDigits(s[..2]) && AllDigits(s[3..5]) && AllDigits(s[6..])
      && DigitsValue(s[..2]) == d.day && DigitsValue(s[3..5]) == d.month && DigitsValue(s[6..]) == d.year
  {
    Pow10Small();
    PadFacts(d.year, yearWidth);
    PadFacts(d.month, 2);
    PadFacts(d.day, 2);
    var s := DayFirst(d, sep, yearWidth);
    assert s[..2] == Pad(d.day, 2);
    assert s[3..5] == Pad(d.month, 2);
    assert s[6..] == Pad(d.year, yearWidth);
  }

  /** Only the separators of a day-first text can be something other than a digit. */
  lemma DayFirstDigitsElsewhere(d: Date, sep: char, yearWidth: nat)
    requires FitsDayFirst(d, yearWidth)
    ensures var s := DayFirst(d, sep, yearWidth);
      forall i :: 0 <= i < |s| && i != 2 && i != 5 ==> IsAsciiDigit(s[i])
  {
    var s := DayFirst(d, sep, yearWidth);
    DayFirstFacts(d, sep, yearWidth);
    forall i | 0 <= i < |s| && i != 2 && i != 5 ensures IsAsciiDigit(s[i]) {
      if i < 2 { assert s[i] == s[..2][i]; }
      else if i < 5 { assert s[i] == s[3..5][i - 3]; }
      else { assert s[i] == s[6..][i - 6]; }
    }
  }

  /** Every zero-padded day of a valid date is accepted by `%d` with its own value. */
  lemma StrptimeDayPadded(day: int)
    requires 1 <= day <= 31
    ensures StrptimeDay(Pad(day, 2)) == Some(day)
  {
    Pow10Small();
    PadFacts(day, 2);
    var t := Pad(day, 2);
    assert t[..1] == [t[0]];
    assert DigitsValue(t) == DigitValue(t[0]) * 10 + DigitValue(t[1]);
  }

  /** Every zero-padded month is accepted by `%m` with its own value. */
  lemma StrptimeMonthPadded(month: int)
    requires 1 <= month <= 12
    ensures StrptimeMonth(Pad(month, 2)) == Some(month)
  {
    Pow10Small();
    PadFacts(month, 2);
    var t := Pad(month, 2);
    assert t[..1] == [t[0]];
    assert DigitsValue(t) == DigitValue(t[0]) * 10 + DigitValue(t[1]);
  }

  /** `strptime(..., "%d/%m/%Y")` reads back every valid date written `DD/MM/YYYY`. */
  lemma StrptimeDmyRoundTrip(d: Date)
    requires ValidDate(d)
    ensures FitsDayFirst(d, 4) && StrptimeDmy(DayFirst(d, '/', 4)) == Some(d)
  {
    ValidFitsDayFirst(d);
    var s := DayFirst(d, '/', 4);
    DayFirstFacts(d, '/', 4);
    assert IndexOf(s, '/') == 2;
    var rest := s[3..];
    assert rest[..2] == s[3..5] && rest[2] == '/';
    assert IndexOf(rest, '/') == 2;
    assert rest[3..] == s[6..];
    StrptimeDayPadded(d.day);
    StrptimeMonthPadded(d.month);
  }

  /** With `-` or `.` between the fields `strptime(..., "%d/%m/%Y")` raises. */
  lemma StrptimeDmyRejectsOtherSeparators(d: Date, sep: char)
    requires ValidDate(d) && sep != '/' && !IsAsciiDigit(sep)
    ensures FitsDayFirst(d, 4) && StrptimeDmy(DayFirst(d, sep, 4)) == None
  {
    ValidFitsDayFirst(d);
    var s := DayFirst(d, sep, 4);
    DayFirstFacts(d, sep, 4);
    DayFirstDigitsElsewhere(d, sep, 4);
    assert forall i :: 0 <= i < |s| ==> s[i] != '/';
  }
}
