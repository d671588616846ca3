/**
 * The two table parsers of fetch_real_marketdata.py.  Both walk the rows of a
 * price table in document order with one piece of state, the current date
 * (none at first), and emit one raw record per qualifying data row stamped
 * with that date:
 *
 *  - `parse_msamb_table` reads the fixed seven-column MSAMB layout;
 *  - `parse_generic_table_with_mapping` reads the columns a caller-supplied
 *    mapping names and may start with a date taken from elsewhere on the page.
 *
 * Each parser is a loop (a method) proved equal to a row-by-row specification
 * (`Scan` of a step function), and the properties of the parsers are lemmas
 * about that specification.
 */
module FetchTables {
  import opened Wrappers
  import opened PyText
  import opened PyDate
  import opened PyRegex
  import opened Tables
  import opened FetchParsing

  /** A parsed row before normalisation: the texts of its cells, stamped with the current ISO date. */
  datatype RawRow = RawRow(
    commodity: Option<string>,
    date: string,
    market: string,
    variety: string,
    unit: string,
    arrivalRaw: string,
    minRaw: string,
    maxRaw: string,
    modalRaw: string)

  /** A current date, when there is one, is an ISO calendar date. */
  predicate IsoOrNone(date: Option<string>) {
    date.Some? ==> IsIsoDate(date.value)
  }

  /** Every record carries an ISO calendar date. */
  predicate AllIso(out: seq<RawRow>) {
    forall k :: 0 <= k < |out| ==> IsIsoDate(out[k].date)
  }

  // ---------------------------------------------------------------------
  // parse_msamb_table
  // ---------------------------------------------------------------------

  /** A date row: a single cell, or a first cell with a `colspan`. */
  predicate IsMsambDateRow(row: Row) {
    |row| == 1 || (|row| >= 1 && row[0].hasColspan)
  }

  /** The date a date row's text gives: the text parsed whole, or else its first date-like substring parsed. */
  function MsambRowDate(text: string): (r: Option<string>)
    ensures r.Some? ==> IsIsoDate(r.value)
  {
    var parsed := ParseDateString(text);
    if parsed.Some? then parsed
    else
      match Search(DateLike, text)
      case None => None
      case Some(m) => ParseDateString(m.groups[0])
  }

  /** The record of a seven-column data row: market, variety, unit, arrival, minimum, maximum, modal. */
  function MsambRecord(name: string, date: string, row: Row): RawRow
    requires |row| >= 7
  {
    RawRow(Some(name), date, row[0].text, row[1].text, row[2].text, row[3].text,
           row[4].text, row[5].text, row[6].text)
  }

  /**
   * What one `<tr>` does to the MSAMB parse: a row without cells is skipped; a
   * date row sets the date when its text resolves and otherwise keeps the old
   * one, and is never emitted; any other row with at least seven cells is
   * emitted once a date is known.
   */
  function MsambStep(name: string, date: Option<string>, row: Row): (r: Scanned<Option<string>, RawRow>)
    ensures IsMsambDateRow(row) ==> r.out == []
    ensures r.out != [] <==> |row| >= 7 && !IsMsambDateRow(row) && date.Some?
    ensures r.out != [] ==> r.out == [MsambRecord(name, date.value, row)]
    ensures !IsMsambDateRow(row) ==> r.state == date
    ensures IsMsambDateRow(row) && MsambRowDate(row[0].text).None? ==> r.state == date
    ensures IsMsambDateRow(row) && MsambRowDate(row[0].text).Some? ==> r.state == MsambRowDate(row[0].text)
    ensures date.Some? ==> r.state.Some?
    ensures IsoOrNone(date) ==> IsoOrNone(r.state) && AllIso(r.out)
  {
    if |row| == 0 then Scanned(date, [])
    else if IsMsambDateRow(row) then
      var parsed := MsambRowDate(row[0].text);
      Scanned(if parsed.Some? then parsed else date, [])
    else if |row| >= 7 && date.Some? then
      Scanned(date, [MsambRecord(name, date.value, row)])
    else Scanned(date, [])
  }

  /** `parse_msamb_table(html, commodity_display_name)` on the rows of the page. */
  method ParseMsambTable(name: string, rows: seq<Row>) returns (rowsOut: seq<RawRow>)
    ensures rowsOut == Scan(MsambStep, name, None, rows).out
  {
    rowsOut := [];
    var currentDate: Option<string> := None;
    var i := 0;
    while i < |rows|
      invariant 0 <= i <= |rows|
      invariant Scan(MsambStep, name, None, rows[..i]) == Scanned(currentDate, rowsOut)
    {
      var tds := rows[i];
      ScanNext(MsambStep, name, None, rows, i);
      if |tds| == 0 {
      } else if |tds| == 1 || tds[0].hasColspan {
        var dateText := tds[0].text;
        var parsed := ParseDateString(dateText);
        if parsed.Some? {
          currentDate := parsed;
        } else {
          var dd := Search(DateLike, dateText);
          if dd.Some? {
            parsed := ParseDateString(dd.value.groups[0]);
            if parsed.Some? {
              currentDate := parsed;
            }
          }
        }
      } else if |tds| >= 7 && currentDate.Some? {
        rowsOut := rowsOut + [MsambRecord(name, currentDate.value, tds)];
      }
      i := i + 1;
    }
    assert rows[..i] == rows;
  }

  /** Until a date row resolves nothing is emitted: data rows before the first date are dropped. */
  lemma {:induction false} MsambNoDateNoRows(name: string, rows: seq<Row>)
    requires Scan(MsambStep, name, None, rows).state.None?
    ensures Scan(MsambStep, name, None, rows).out == []
  {
    if rows != [] {
      var n := |rows| - 1;
      var before := Scan(MsambStep, name, None, rows[..n]);
      MsambNoDateNoRows(name, rows[..n]);
    }
  }

  /** At most one record per row, every record carries an ISO date, and so does the date left at the end. */
  lemma {:induction false} MsambOutputFacts(name: string, rows: seq<Row>)
    ensures |Scan(MsambStep, name, None, rows).out| <= |rows|
    ensures AllIso(Scan(MsambStep, name, None, rows).out)
    ensures IsoOrNone(Scan(MsambStep, name, None, rows).state)
  {
    if rows != [] {
      var n := |rows| - 1;
      MsambOutputFacts(name, rows[..n]);
      var before := Scan(MsambStep, name, None, rows[..n]);
      var now := MsambStep(name, before.state, rows[n]);
      assert |now.out| <= 1;
      assert AllIso(before.out + now.out) by {
        forall k | 0 <= k < |before.out + now.out| ensures IsIsoDate((before.out + now.out)[k].date) {
          if k < |before.out| { assert (before.out + now.out)[k] == before.out[k]; }
          else { assert (before.out + now.out)[k] == now.out[k - |before.out|]; }
        }
      }
    }
  }

  /**
   * A date row whose text names no date changes nothing: the date before it
   * stays current, so the data rows after it carry that earlier date.
   */
  lemma MsambFailedDateKeepsDate(name: string, init: Option<string>, rows: seq<Row>, badRow: Row)
    requires IsMsambDateRow(badRow) && MsambRowDate(badRow[0].text).None?
    ensures Scan(MsambStep, name, init, rows + [badRow]) == Scan(MsambStep, name, init, rows)
  {
    var all := rows + [badRow];
    assert all[..|all| - 1] == rows;
    var before := Scan(MsambStep, name, init, rows);
    assert before.out + [] == before.out;
  }

  /** A date row reading `DD/MM/YYYY` sets the date to that day, whatever the date before it. */
  lemma MsambRowDateDayFirst(name: string, date: Option<string>, d: Date, row: Row)
    requires ValidDate(d) && IsMsambDateRow(row) && row[0].text == DayFirst(d, '/', 4)
    ensures FitsDayFirst(d, 4) && MsambRowDate(DayFirst(d, '/', 4)) == Some(IsoFormat(d))
    ensures MsambStep(name, date, row) == Scanned(Some(IsoFormat(d)), [])
  {
    ParseDateDayFirst(d, '/');
  }

  /**
   * The walk end to end: a `DD/MM/YYYY` date row, a data row, a date row that
   * names no date and another data row give both data rows, each stamped with
   * the one date that resolved.
   */
  lemma MsambDateCarriesOver(name: string, d: Date, dateRow: Row, a: Row, badRow: Row, b: Row)
    requires ValidDate(d) && IsMsambDateRow(dateRow) && dateRow[0].text == DayFirst(d, '/', 4)
    requires |a| >= 7 && !IsMsambDateRow(a) && |b| >= 7 && !IsMsambDateRow(b)
    requires IsMsambDateRow(badRow) && MsambRowDate(badRow[0].text).None?
    ensures Scan(MsambStep, name, None, [dateRow, a, badRow, b]).out
      == [MsambRecord(name, IsoFormat(d), a), MsambRecord(name, IsoFormat(d), b)]
  {
    var iso := IsoFormat(d);
    var first := [dateRow, a];
    MsambRowDateDayFirst(name, None, d, dateRow);
    MsambDateThenData(name, iso, dateRow, a);
    MsambFailedDateThenData(name, first, Some(iso), [MsambRecord(name, iso, a)], badRow, b);
    Displays(dateRow, a, badRow, b);
    Displays(MsambRecord(name, iso, a), MsambRecord(name, iso, b), MsambRecord(name, iso, a), MsambRecord(name, iso, b));
  }

  /** Sequence displays built up one element at a time. */
  lemma Displays<T>(w: T, x: T, y: T, z: T)
    ensures [w, x] + [y] + [z] == [w, x, y, z] && [w] + [x] == [w, x]
  {
  }

  /** A data row of seven cells under a known date is emitted with that date, which stays current. */
  lemma MsambDataRowStep(name: string, date: string, row: Row)
    requires |row| >= 7 && !IsMsambDateRow(row)
    ensures MsambStep(name, Some(date), row) == Scanned(Some(date), [MsambRecord(name, date, row)])
  {
  }

  /** A date row that names no date, then a data row: the row is stamped with the date from before. */
  lemma MsambFailedDateThenData(name: string, rows: seq<Row>, date: Option<string>, out: seq<RawRow>, badRow: Row, b: Row)
    requires Scan(MsambStep, name, None, rows) == Scanned(date, out) && date.Some?
    requires IsMsambDateRow(badRow) && MsambRowDate(badRow[0].text).None?
    requires |b| >= 7 && !IsMsambDateRow(b)
    ensures Scan(MsambStep, name, None, rows + [badRow] + [b]) == Scanned(date, out + [MsambRecord(name, date.value, b)])
  {
    MsambFailedDateKeepsDate(name, None, rows, badRow);
    MsambDataRowStep(name, date.value, b);
    MsambPushRow(name, rows + [badRow], b, Scanned(date, out), Scanned(date, [MsambRecord(name, date.value, b)]));
  }

  /** A first row that sets the date, then a data row stamped with that date. */
  lemma MsambDateThenData(name: string, iso: string, dateRow: Row, a: Row)
    requires MsambStep(name, None, dateRow) == Scanned(Some(iso), [])
    requires |a| >= 7 && !IsMsambDateRow(a)
    ensures Scan(MsambStep, name, None, [dateRow, a]) == Scanned(Some(iso), [MsambRecord(name, iso, a)])
  {
    MsambDataRowStep(name, iso, a);
    assert Scan(MsambStep, name, None, [dateRow]) == Scanned(Some(iso), []) by {
      MsambPushRow(name, [], dateRow, Scanned(None, []), Scanned(Some(iso), []));
      assert [] + [dateRow] == [dateRow];
    }
    MsambPushRow(name, [dateRow], a, Scanned(Some(iso), []), Scanned(Some(iso), [MsambRecord(name, iso, a)]));
    Displays(dateRow, a, a, a);
  }

  /** `ScanPush` for the MSAMB walk. */
  lemma MsambPushRow(name: string, rows: seq<Row>, row: Row, before: Scanned<Option<string>, RawRow>, now: Scanned<Option<string>, RawRow>)
    requires Scan(MsambStep, name, None, rows) == before && MsambStep(name, before.state, row) == now
    ensures Scan(MsambStep, name, None, rows + [row]) == Scanned(now.state, before.out + now.out)
  {
    ScanPush(MsambStep, name, None, rows, row, before, now);
  }

  /** A date row whose text has no digits resolves to nothing. */
  lemma MsambRowDateNeedsDigits(text: string)
    requires forall i :: 0 <= i < |text| ==> !IsAsciiDigit(text[i])
    ensures MsambRowDate(text) == None
  {
    ParseDateNeedsDigits(text);
    NoDigitNoMatch(DateLike, text);
  }

  // ---------------------------------------------------------------------
  // parse_generic_table_with_mapping
  // ---------------------------------------------------------------------

  /** `mapping.get(key, default)`. */
  function MapGet(mapping: map<string, int>, key: string, default: int): int {
    if key in mapping then mapping[key] else default
  }

  /**
   * `get_col(i)`: the stripped text of cell `i`, counting from the end when
   * `i` is negative, and `""` past the last cell; `None` stands for the
   * `IndexError` of an index before the first cell.
   */
  function GetCol(cols: Row, i: int): (r: Option<string>)
    ensures r.None? <==> i < -|cols|
    ensures 0 <= i < |cols| ==> r == Some(cols[i].text)
    ensures -|cols| <= i < 0 ==> r == Some(cols[|cols| + i].text)
    ensures i >= |cols| ==> r == Some("")
  {
    if i < |cols| then
      if i >= 0 then Some(cols[i].text)
      else if i >= -|cols| then Some(cols[|cols| + i].text)
      else None
    else Some("")
  }

  /** `len(cols) > max(mapping.values())` for a non-empty mapping: every mapped index is below the cell count. */
  predicate IndicesBelow(mapping: map<string, int>, n: int) {
    forall k :: k in mapping ==> mapping[k] < n
  }

  /** The seven columns of a mapped data row, or `None` when one of them raises `IndexError` (the row is then skipped). */
  function GenericRecord(mapping: map<string, int>, date: string, cols: Row): Option<RawRow> {
    var market := GetCol(cols, MapGet(mapping, "market", 0));
    var variety := GetCol(cols, MapGet(mapping, "variety", 1));
    var unit := GetCol(cols, MapGet(mapping, "unit", 2));
    var arrival := GetCol(cols, MapGet(mapping, "arrival", 3));
    var minPrice := GetCol(cols, MapGet(mapping, "min_price", 4));
    var maxPrice := GetCol(cols, MapGet(mapping, "max_price", 5));
    var modalPrice := GetCol(cols, MapGet(mapping, "modal_price", 6));
    if market.None? || variety.None? || unit.None? || arrival.None?
       || minPrice.None? || maxPrice.None? || modalPrice.None?
    then None
    else Some(RawRow(None, date, market.value, variety.value, unit.value, arrival.value,
                     minPrice.value, maxPrice.value, modalPrice.value))
  }

  /** A date row: exactly one cell, with a `colspan` or with a date-like substring in its unstripped text. */
  predicate IsGenericDateRow(cols: Row) {
    |cols| == 1 && (cols[0].hasColspan || Search(DateLike, cols[0].raw).Some?)
  }

  /**
   * What one row does to the mapped parse: a row without cells is skipped; a
   * date row sets the date when its stripped text resolves and is never
   * emitted; any other row is emitted when the mapping is non-empty, a date is
   * known, every mapped index is below the cell count and no column raises.
   */
  function GenericStep(mapping: map<string, int>, date: Option<string>, cols: Row): (r: Scanned<Option<string>, RawRow>)
    ensures IsGenericDateRow(cols) ==> r.out == []
    ensures r.out != [] <==>
      && |cols| > 0 && !IsGenericDateRow(cols) && |mapping| > 0 && date.Some?
      && IndicesBelow(mapping, |cols|) && GenericRecord(mapping, date.value, cols).Some?
    ensures r.out != [] ==> r.out == [GenericRecord(mapping, date.value, cols).value]
    ensures !IsGenericDateRow(cols) ==> r.state == date
    ensures IsGenericDateRow(cols) && ParseDateString(cols[0].text).None? ==> r.state == date
    ensures IsGenericDateRow(cols) && ParseDateString(cols[0].text).Some? ==> r.state == ParseDateString(cols[0].text)
    ensures date.Some? ==> r.state.Some?
    ensures IsoOrNone(date) ==> IsoOrNone(r.state) && AllIso(r.out)
  {
    if |cols| == 0 then Scanned(date, [])
    else if IsGenericDateRow(cols) then
      var maybe := ParseDateString(cols[0].text);
      Scanned(if maybe.Some? then maybe else date, [])
    else if |mapping| > 0 && date.Some? && IndicesBelow(mapping, |cols|) then
      match GenericRecord(mapping, date.value, cols)
      case Some(rec) => Scanned(date, [rec])
      case None => Scanned(date, [])
    else Scanned(date, [])
  }

  /** The date before the first row: the text of the page's date element, when there is one, resolved. */
  function GenericInitialDate(dateElementText: Option<string>): (r: Option<string>)
    ensures IsoOrNone(r)
    ensures dateElementText.None? ==> r.None?
    ensures dateElementText.Some? ==> r == ParseDateString(dateElementText.value)
  {
    match dateElementText
    case None => None
    case Some(t) => ParseDateString(t)
  }

  /**
   * `parse_generic_table_with_mapping(html, mapping, date_selector,
   * row_selector)` on the rows the row selector picks; `dateElementText` is
   * the stripped text of the element the date selector picks, if any.
   */
  method ParseGenericTable(mapping: map<string, int>, dateElementText: Option<string>, rows: seq<Row>)
    returns (rowsOut: seq<RawRow>)
    ensures rowsOut == Scan(GenericStep, mapping, GenericInitialDate(dateElementText), rows).out
  {
    rowsOut := [];
    var currentDate: Option<string> := None;
    if dateElementText.Some? {
      var d := ParseDateString(dateElementText.value);
      if d.Some? {
        currentDate := d;
      }
    }
    var init := currentDate;
    var i := 0;
    while i < |rows|
      invariant 0 <= i <= |rows|
      invariant Scan(GenericStep, mapping, init, rows[..i]) == Scanned(currentDate, rowsOut)
    {
      ghost var before := Scanned(currentDate, rowsOut);
      var date, out := GenericRow(mapping, currentDate, rows[i]);
      ScanSnoc(GenericStep, mapping, init, rows, i, before, Scanned(date, out));
      currentDate := date;
      rowsOut := rowsOut + out;
      i := i + 1;
    }
    assert rows[..i] == rows;
  }

  /** One row of the loop in `parse_generic_table_with_mapping`: a date row moves the current date, a data row may yield one record. */
  method GenericRow(mapping: map<string, int>, currentDate: Option<string>, cols: Row)
    returns (date: Option<string>, out: seq<RawRow>)
    ensures Scanned(date, out) == GenericStep(mapping, currentDate, cols)
  {
    date, out := currentDate, [];
    if |cols| == 0 {
    } else if |cols| == 1 && (cols[0].hasColspan || Search(DateLike, cols[0].raw).Some?) {
      var maybe := ParseDateString(cols[0].text);
      if maybe.Some? {
        date := maybe;
      }
    } else if |mapping| > 0 && currentDate.Some? && IndicesBelow(mapping, |cols|) {
      var rec := GenericRecord(mapping, currentDate.value, cols);
      if rec.Some? {
        out := [rec.value];
      }
    }
  }

  /** With an empty mapping the parser emits nothing. */
  lemma {:induction false} GenericEmptyMappingNoRows(init: Option<string>, rows: seq<Row>)
    ensures Scan(GenericStep, map[], init, rows).out == []
  {
    if rows != [] {
      GenericEmptyMappingNoRows(init, rows[..|rows| - 1]);
    }
  }

  /** Until a date is known nothing is emitted. */
  lemma {:induction false} GenericNoDateNoRows(mapping: map<string, int>, rows: seq<Row>)
    requires Scan(GenericStep, mapping, None, rows).state.None?
    ensures Scan(GenericStep, mapping, None, rows).out == []
  {
    if rows != [] {
      GenericNoDateNoRows(mapping, rows[..|rows| - 1]);
    }
  }

  /** At most one record per row, and every record carries an ISO date. */
  lemma {:induction false} GenericOutputFacts(mapping: map<string, int>, init: Option<string>, rows: seq<Row>)
    requires IsoOrNone(init)
    ensures |Scan(GenericStep, mapping, init, rows).out| <= |rows|
    ensures AllIso(Scan(GenericStep, mapping, init, rows).out)
    ensures IsoOrNone(Scan(GenericStep, mapping, init, rows).state)
  {
    if rows != [] {
      var n := |rows| - 1;
      GenericOutputFacts(mapping, init, rows[..n]);
      var before := Scan(GenericStep, mapping, init, rows[..n]);
      var now := GenericStep(mapping, before.state, rows[n]);
      assert |now.out| <= 1;
      assert AllIso(before.out + now.out) by {
        forall k | 0 <= k < |before.out + now.out| ensures IsIsoDate((before.out + now.out)[k].date) {
          if k < |before.out| { assert (before.out + now.out)[k] == before.out[k]; }
          else { assert (before.out + now.out)[k] == now.out[k - |before.out|]; }
        }
      }
    }
  }

  /** The mapping the generic parser is documented with: the MSAMB column order. */
  function StandardMapping(): map<string, int> {
    map["market" := 0, "variety" := 1, "unit" := 2, "arrival" := 3,
        "min_price" := 4, "max_price" := 5, "modal_price" := 6]
  }

  /**
   * With the standard mapping, a data row of seven or more cells reads the
   * same columns as the MSAMB parser; only the commodity is left unset.
   */
  lemma StandardMappingReadsMsambLayout(name: string, date: string, cols: Row)
    requires |cols| >= 7
    ensures IndicesBelow(StandardMapping(), |cols|)
    ensures GenericRecord(StandardMapping(), date, cols) == Some(MsambRecord(name, date, cols).(commodity := None))
  {
  }
}
