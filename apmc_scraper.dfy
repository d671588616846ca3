/**
 * apmc_scraper.py: the multi-state scraper's copy of the pipeline.  Its
 * parser takes a single non-empty cell as a date row and falls back to today
 * on a bad date, its number reader lets `float()` raise, its records are
 * normalised without skip rules, its upsert has no per-batch recovery, and a
 * run counts one error per failed commodity.  The orchestrator runs every
 * active source and fails only when no source succeeded.
 */
module ApmcScraper {
  import opened Wrappers
  import opened PyText
  import opened PyFloat
  import opened PyDate
  import opened Folds
  import opened Batches
  import opened Tables

  // ---------------------------------------------------------------------
  // build_url
  // ---------------------------------------------------------------------

  /** `s.rstrip("/")`. */
  function StripTrailingSlashes(s: string): (r: string)
    ensures r <= s && (r == [] || r[|r| - 1] != '/')
    ensures forall i :: |r| <= i < |s| ==> s[i] == '/'
  {
    if s != [] && s[|s| - 1] == '/' then StripTrailingSlashes(s[..|s| - 1]) else s
  }

  /** `s.lstrip("/")`. */
  function StripLeadingSlashes(s: string): (r: string)
    ensures |r| <= |s| && r == s[|s| - |r|..] && (r == [] || r[0] != '/')
    ensures forall i :: 0 <= i < |s| - |r| ==> s[i] == '/'
  {
    if s != [] && s[0] == '/' then StripLeadingSlashes(s[1..]) else s
  }

  /** `s.startswith("http")`. */
  predicate StartsWithHttp(s: string) {
    |s| >= 4 && s[..4] == "http"
  }

  /**
   * `build_url(base_url, path_or_url)`: a missing path raises `ValueError`, a
   * path starting with `http` is already a URL, and any other path is joined
   * to the base by `urljoin`, which is not part of this model and is passed
   * in as `join`.  The base handed to it ends in exactly one slash and the
   * path starts with none.
   */
  function BuildUrl(baseUrl: string, pathOrUrl: string, join: (string, string) -> string): (r: Try<string>)
    ensures pathOrUrl == "" <==> r.Raised?
    ensures StartsWithHttp(pathOrUrl) ==> r == Ok(pathOrUrl)
    ensures pathOrUrl != "" && !StartsWithHttp(pathOrUrl) ==>
      r == Ok(join(StripTrailingSlashes(baseUrl) + "/", StripLeadingSlashes(pathOrUrl)))
  {
    if pathOrUrl == "" then Raised
    else if StartsWithHttp(pathOrUrl) then Ok(pathOrUrl)
    else Ok(join(StripTrailingSlashes(baseUrl) + "/", StripLeadingSlashes(pathOrUrl)))
  }

  /** The two halves `build_url` hands to `urljoin`: the base ends in exactly one slash, the path starts with none. */
  lemma JoinedHalves(baseUrl: string, pathOrUrl: string)
    ensures var b := StripTrailingSlashes(baseUrl) + "/";
      b[|b| - 1] == '/' && (|b| == 1 || b[|b| - 2] != '/')
    ensures var p := StripLeadingSlashes(pathOrUrl);
      p == [] || p[0] != '/'
  {
    var b := StripTrailingSlashes(baseUrl) + "/";
    assert |b| == 1 || b[|b| - 2] == StripTrailingSlashes(baseUrl)[|b| - 2];
  }

  /** Building from a URL that was built from an absolute URL changes nothing. */
  lemma BuildUrlAbsoluteStable(baseUrl: string, url: string, join: (string, string) -> string)
    requires StartsWithHttp(url)
    ensures BuildUrl(baseUrl, BuildUrl(baseUrl, url, join).value, join) == Ok(url)
  {
  }

  /** The base URL's trailing slashes do not matter to the joined URL. */
  lemma BuildUrlIgnoresBaseSlashes(baseUrl: string, path: string, join: (string, string) -> string)
    requires path != "" && !StartsWithHttp(path)
    ensures BuildUrl(baseUrl + "/", path, join) == BuildUrl(baseUrl, path, join)
  {
    var s := baseUrl + "/";
    assert s[..|s| - 1] == baseUrl;
  }

  // ---------------------------------------------------------------------
  // MSAMBScraper.fetch_commodities
  // ---------------------------------------------------------------------

  /** An option is kept when its stripped value is a non-empty string of digits. */
  predicate KeepsDigitCode(opt: HtmlOption) {
    IsDigitString(OptionCode(opt))
  }

  function OptionName(opt: HtmlOption): string {
    opt.text
  }

  /** The assignments `commodities[code] = name` of the option loop, in document order. */
  function CommodityPairs(opts: seq<HtmlOption>): seq<(string, string)> {
    KeptPairs(opts, KeepsDigitCode, OptionCode, OptionName)
  }

  /**
   * `fetch_commodities()` on the options of the `drpCommodities` dropdown in
   * the saved page (opening and reading the file is not modelled).
   */
  method FetchCommodities(opts: seq<HtmlOption>) returns (commodities: map<string, string>)
    ensures commodities == FoldPairs(CommodityPairs(opts))
  {
    commodities := map[];
    var i := 0;
    while i < |opts|
      invariant 0 <= i <= |opts|
      invariant commodities == FoldPairs(CommodityPairs(opts[..i]))
    {
      var opt := opts[i];
      KeptFoldNext(opts, i, KeepsDigitCode, OptionCode, OptionName);
      var code := OptionCode(opt);
      if |code| > 0 && AllDigits(code) {
        commodities := commodities[code := opt.text];
      }
      i := i + 1;
    }
    assert opts[..i] == opts;
  }

  /** The dictionary's keys are exactly the all-digit codes of the options. */
  lemma FetchedCommodityCodes(opts: seq<HtmlOption>, code: string)
    ensures code in FoldPairs(CommodityPairs(opts))
        <==> exists i :: 0 <= i < |opts| && IsDigitString(OptionCode(opts[i])) && OptionCode(opts[i]) == code
    ensures code in FoldPairs(CommodityPairs(opts)) ==> IsDigitString(code)
  {
    KeptKeys(opts, KeepsDigitCode, OptionCode, OptionName, code);
  }

  /** A later option with the same code overwrites an earlier one. */
  lemma FetchedCommodityLastWins(opts: seq<HtmlOption>, i: nat)
    requires i < |opts| && KeepsDigitCode(opts[i])
    requires forall j :: i < j < |opts| && KeepsDigitCode(opts[j]) ==> OptionCode(opts[j]) != OptionCode(opts[i])
    ensures OptionCode(opts[i]) in FoldPairs(CommodityPairs(opts))
    ensures FoldPairs(CommodityPairs(opts))[OptionCode(opts[i])] == opts[i].text
  {
    KeptLastWins(opts, KeepsDigitCode, OptionCode, OptionName, i);
  }

  // ---------------------------------------------------------------------
  // MSAMBScraper._num and parse_date
  // ---------------------------------------------------------------------

  predicate IsDigitOrPoint(c: char) {
    IsAsciiDigit(c) || c == '.'
  }

  /**
   * `_num(v)`: the digits and points of `v`, nothing when none remain, their
   * value otherwise.  When `float()` rejects them (`.`, `1.2.3`) the
   * `ValueError` escapes.
   */
  function Num(v: string): (r: Try<Option<real>>)
    ensures r.Ok? && r.value.Some? ==> r.value.value >= 0.0
    ensures Filter(v, IsDigitOrPoint) == "" ==> r == Ok(None)
  {
    var cleaned := Filter(v, IsDigitOrPoint);
    if cleaned == "" then Ok(None)
    else
      assert IsDigitOrPoint(cleaned[0]);
      match ParseFloat(cleaned)
      case Some(x) => Ok(Some(x))
      case None => Raised
  }

  /** `_num` raises exactly when the kept characters are not a decimal. */
  lemma NumRaises(v: string)
    ensures Num(v).Raised? <==> Filter(v, IsDigitOrPoint) != "" && !IsDecimalText(Filter(v, IsDigitOrPoint))
  {
    var cleaned := Filter(v, IsDigitOrPoint);
    assert forall i :: 0 <= i < |cleaned| ==> IsNumberChar(cleaned[i]);
    ParseFloatAcceptsDecimalText(cleaned);
  }

  /** A whole number reads as itself. */
  lemma NumNatural(n: nat)
    ensures Num(NatToDigits(n)) == Ok(Some(n as real))
  {
    NatToDigitsRoundTrip(n);
    FilterKeepsAll(NatToDigits(n), IsDigitOrPoint);
    ParseFloatNatural(n);
  }

  /** A text of points alone keeps all of them, has no digit, and raises. */
  lemma NumPointsRaise(v: string)
    requires |v| > 0 && forall i :: 0 <= i < |v| ==> v[i] == '.'
    ensures Num(v) == Raised
  {
    FilterKeepsAll(v, IsDigitOrPoint);
    NumRaises(v);
    assert !HasDigit(v);
  }

  /** `parse_date(s)`: the stripped text read as `DD/MM/YYYY`, or `today` when that fails. */
  function ParseDate(s: string, today: Date): (d: Date)
    ensures StrptimeDmy(Strip(s)).Some? ==> d == StrptimeDmy(Strip(s)).value
    ensures StrptimeDmy(Strip(s)).None? ==> d == today
    ensures ValidDate(today) ==> ValidDate(d)
  {
    match StrptimeDmy(Strip(s))
    case Some(d) => d
    case None => today
  }

  /** A valid day written `DD/MM/YYYY` reads back as that day. */
  lemma ParseDateRoundTrip(d: Date, today: Date)
    requires ValidDate(d)
    ensures FitsDayFirst(d, 4) && ParseDate(DayFirst(d, '/', 4), today) == d
  {
    StrptimeDmyRoundTrip(d);
    DayFirstFacts(d, '/', 4);
    StripNoSpace(DayFirst(d, '/', 4));
  }

  // ---------------------------------------------------------------------
  // MSAMBScraper._parse
  // ---------------------------------------------------------------------

  /** A record of `_parse`. */
  datatype RawRecord = RawRecord(
    commodityCode: string,
    cropName: string,
    marketLocation: string,
    variety: string,
    unit: string,
    arrival: Option<real>,
    minPrice: Option<real>,
    maxPrice: Option<real>,
    modalPrice: Option<real>,
    priceDate: string)

  /** A date row: exactly one cell, whose stripped text is not empty. */
  predicate IsDateRow(row: Row) {
    |row| == 1 && row[0].text != ""
  }

  /** Reading the number in cell `c` raises. */
  predicate CellRaises(row: Row, c: nat)
    requires c < |row|
  {
    Num(row[c].raw).Raised?
  }

  /** The record of a data row stamped `date`; a cell whose number raises makes the whole call raise. */
  function RecordOf(code: string, name: string, date: Date, row: Row): (r: Try<RawRecord>)
    requires |row| >= 7 && ValidDate(date)
    ensures r.Raised? <==> CellRaises(row, 3) || CellRaises(row, 4) || CellRaises(row, 5) || CellRaises(row, 6)
    ensures r.Ok? ==> r.value.priceDate == IsoFormat(date)
    ensures r.Ok? ==> r.value.marketLocation == Strip(row[0].raw) && r.value.unit == Strip(row[2].raw)
    ensures r.Ok? ==> r.value.commodityCode == code && r.value.cropName == name
    ensures r.Ok? ==> r.value.variety == Strip(row[1].raw)
    ensures r.Ok? ==> r.value.arrival == Num(row[3].raw).value && r.value.minPrice == Num(row[4].raw).value
    ensures r.Ok? ==> r.value.modalPrice == Num(row[6].raw).value && r.value.maxPrice == Num(row[5].raw).value
  {
    var arrival := Num(row[3].raw);
    var minPrice := Num(row[4].raw);
    var maxPrice := Num(row[5].raw);
    var modalPrice := Num(row[6].raw);
    if arrival.Raised? || minPrice.Raised? || maxPrice.Raised? || modalPrice.Raised? then Raised
    else
      Ok(RawRecord(code, name, Strip(row[0].raw), Strip(row[1].raw), Strip(row[2].raw),
                   arrival.value, minPrice.value, maxPrice.value, modalPrice.value, IsoFormat(date)))
  }

  predicate DateOk(date: Option<Date>) {
    date.Some? ==> ValidDate(date.value)
  }

  /**
   * One row of `_parse`: a date row replaces the current date (by today's
   * date when its text does not parse); a row of at least seven cells yields a
   * record once a date is set; other rows are passed over.
   */
  function Step(code: string, name: string, today: Date, date: Option<Date>, row: Row)
    : (r: Try<Scanned<Option<Date>, RawRecord>>)
    requires ValidDate(today) && DateOk(date)
    ensures r.Ok? ==> DateOk(r.value.state)
    ensures IsDateRow(row) ==> r == Ok(Scanned(Some(ParseDate(row[0].raw, today)), []))
    ensures !IsDateRow(row) && r.Ok? ==> r.value.state == date
    ensures r.Ok? && |r.value.out| > 0 ==>
      |row| >= 7 && date.Some? && |r.value.out| == 1 && RecordOf(code, name, date.value, row) == Ok(r.value.out[0])
    ensures !IsDateRow(row) && (|row| < 7 || date.None?) ==> r == Ok(Scanned(date, []))
    ensures !IsDateRow(row) && |row| >= 7 && date.Some? ==>
      (r.Raised? <==> RecordOf(code, name, date.value, row).Raised?)
      && (r.Ok? ==> r.value.out == [RecordOf(code, name, date.value, row).value])
  {
    if IsDateRow(row) then Ok(Scanned(Some(ParseDate(row[0].raw, today)), []))
    else if |row| >= 7 && date.Some? then
      match RecordOf(code, name, date.value, row)
      case Ok(rec) => Ok(Scanned(date, [rec]))
      case Raised => Raised
    else Ok(Scanned(date, []))
  }

  /** The rows walked in order with `Step` from no date; the first row that raises ends the walk. */
  function Parse(code: string, name: string, today: Date, rows: seq<Row>): (r: Try<Scanned<Option<Date>, RawRecord>>)
    requires ValidDate(today)
    ensures r.Ok? ==> DateOk(r.value.state)
  {
    if rows == [] then Ok(Scanned(None, []))
    else
      match Parse(code, name, today, rows[..|rows| - 1])
      case Raised => Raised
      case Ok(before) =>
        match Step(code, name, today, before.state, rows[|rows| - 1])
        case Raised => Raised
        case Ok(now) => Ok(Scanned(now.state, before.out + now.out))
  }

  /** `_parse(html, code, name)` on the `<tr>` rows of the page. */
  method ParseTable(code: string, name: string, today: Date, rows: seq<Row>) returns (r: Try<seq<RawRecord>>)
    requires ValidDate(today)
    ensures r.Raised? <==> Parse(code, name, today, rows).Raised?
    ensures r.Ok? ==> r.value == Parse(code, name, today, rows).value.out
  {
    var records: seq<RawRecord> := [];
    var currentDate: Option<Date> := None;
    var i := 0;
    while i < |rows|
      invariant 0 <= i <= |rows|
      invariant Parse(code, name, today, rows[..i]) == Ok(Scanned(currentDate, records))
    {
      ParseNext(code, name, today, rows, i, Scanned(currentDate, records));
      var step := ParseRow(code, name, today, currentDate, rows[i]);
      if step.Raised? {
        RaisedStaysRaised(code, name, today, rows, i + 1);
        return Raised;
      }
      currentDate := step.value.state;
      records := records + step.value.out;
      i := i + 1;
    }
    assert rows[..i] == rows;
    return Ok(records);
  }

  /** One `<tr>` of `_parse`: a one-cell row with text sets the date, a row of seven or more cells yields a record once a date is set. */
  method ParseRow(code: string, name: string, today: Date, currentDate: Option<Date>, tds: Row)
    returns (r: Try<Scanned<Option<Date>, RawRecord>>)
    requires ValidDate(today) && DateOk(currentDate)
    ensures r == Step(code, name, today, currentDate, tds)
  {
    if |tds| == 1 && tds[0].text != "" {
      return Ok(Scanned(Some(ParseDate(tds[0].raw, today)), []));
    } else if |tds| >= 7 && currentDate.Some? {
      var rec := RecordOf(code, name, currentDate.value, tds);
      if rec.Raised? {
        return Raised;
      }
      return Ok(Scanned(currentDate, [rec.value]));
    }
    return Ok(Scanned(currentDate, []));
  }

  /** One more row after rows that did not raise: the walk raises with the row, or appends what it yields. */
  lemma ParseNext(code: string, name: string, today: Date, rows: seq<Row>, i: nat, before: Scanned<Option<Date>, RawRecord>)
    requires ValidDate(today) && i < |rows| && Parse(code, name, today, rows[..i]) == Ok(before)
    ensures DateOk(before.state)
    ensures Step(code, name, today, before.state, rows[i]).Raised? ==> Parse(code, name, today, rows[..i + 1]).Raised?
    ensures Step(code, name, today, before.state, rows[i]).Ok? ==>
      var now := Step(code, name, today, before.state, rows[i]).value;
      Parse(code, name, today, rows[..i + 1]) == Ok(Scanned(now.state, before.out + now.out))
  {
    var grown := rows[..i + 1];
    assert grown[..|grown| - 1] == rows[..i] && grown[|grown| - 1] == rows[i];
  }

  /** Once a prefix raises, the whole walk raises. */
  lemma {:induction false} RaisedStaysRaised(code: string, name: string, today: Date, rows: seq<Row>, i: nat)
    requires ValidDate(today) && i <= |rows| && Parse(code, name, today, rows[..i]).Raised?
    ensures Parse(code, name, today, rows).Raised?
    decreases |rows| - i
  {
    if i < |rows| {
      assert rows[..i + 1][..i] == rows[..i];
      RaisedStaysRaised(code, name, today, rows, i + 1);
    } else {
      assert rows[..i] == rows;
    }
  }

  /** Without a date row nothing is emitted; the rows of two to six cells never yield anything. */
  lemma {:induction false} NoDateNoRecords(code: string, name: string, today: Date, rows: seq<Row>)
    requires ValidDate(today)
    requires forall k :: 0 <= k < |rows| ==> !IsDateRow(rows[k])
    ensures Parse(code, name, today, rows) == Ok(Scanned(None, []))
  {
    if rows != [] {
      var n := |rows| - 1;
      assert forall k :: 0 <= k < n ==> rows[..n][k] == rows[k];
      NoDateNoRecords(code, name, today, rows[..n]);
      assert !IsDateRow(rows[n]);
      assert Step(code, name, today, None, rows[n]) == Ok(Scanned(None, []));
      var none: seq<RawRecord> := [];
      assert Parse(code, name, today, rows) == Ok(Scanned(None, none + none));
      assert none + none == none;
    }
  }

  /** Every emitted record carries an ISO calendar date, and there is at most one per row. */
  lemma {:induction false} ParseOutputFacts(code: string, name: string, today: Date, rows: seq<Row>)
    requires ValidDate(today) && Parse(code, name, today, rows).Ok?
    ensures |Parse(code, name, today, rows).value.out| <= |rows|
    ensures forall k :: 0 <= k < |Parse(code, name, today, rows).value.out| ==>
      IsIsoDate(Parse(code, name, today, rows).value.out[k].priceDate)
  {
    if rows != [] {
      var n := |rows| - 1;
      var before := Parse(code, name, today, rows[..n]).value;
      ParseOutputFacts(code, name, today, rows[..n]);
      StepOutputIso(code, name, today, before.state, rows[n]);
    }
  }

  lemma StepOutputIso(code: string, name: string, today: Date, date: Option<Date>, row: Row)
    requires ValidDate(today) && DateOk(date) && Step(code, name, today, date, row).Ok?
    ensures |Step(code, name, today, date, row).value.out| <= 1
    ensures forall k :: 0 <= k < |Step(code, name, today, date, row).value.out| ==>
      IsIsoDate(Step(code, name, today, date, row).value.out[k].priceDate)
  {
    if |Step(code, name, today, date, row).value.out| > 0 {
      IsoFormatRoundTrip(date.value);
    }
  }

  // ---------------------------------------------------------------------
  // BaseAPMCScraper.normalize_record and _spread
  // ---------------------------------------------------------------------

  /** The scraper's configuration fields a record copies. */
  datatype Scraper = Scraper(organization: string, stateCode: Option<string>, sourceId: Option<string>)

  /** A normalised record (timestamps, `district` and `metadata` are not modelled). */
  datatype PriceRecord = PriceRecord(
    sourceId: Option<string>,
    commodityCode: string,
    cropName: string,
    variety: string,
    unit: string,
    marketLocation: string,
    state: Option<string>,
    priceDate: string,
    arrival: Option<real>,
    minPrice: Option<real>,
    maxPrice: Option<real>,
    modalPrice: Option<real>,
    pricePerUnit: Option<real>,
    spread: Option<real>,
    source: string,
    priceType: string,
    status: string)

  predicate TruthyNumber(v: Option<real>) {
    v.Some? && v.value != 0.0
  }

  /** `_spread(r)`: `max_price - min_price` when both are truthy, so a zero price counts as absent. */
  function Spread(min: Option<real>, max: Option<real>): (s: Option<real>)
    ensures s.Some? <==> TruthyNumber(min) && TruthyNumber(max)
    ensures s.Some? ==> min.value + s.value == max.value
  {
    if TruthyNumber(min) && TruthyNumber(max) then Some(max.value - min.value) else None
  }

  /**
   * `normalize_record(raw)` for a record of `_parse`: the price per unit is
   * the modal price or else the maximum, the spread is `_spread`, and the
   * source is the lower-cased organisation with `_scraper`.  The record
   * always carries a `unit` key, so the `quintal` default never applies.
   */
  function NormalizeRecord(s: Scraper, raw: RawRecord): (r: PriceRecord)
    ensures TruthyNumber(raw.modalPrice) ==> r.pricePerUnit == raw.modalPrice
    ensures !TruthyNumber(raw.modalPrice) ==> r.pricePerUnit == raw.maxPrice
    ensures r.spread == Spread(raw.minPrice, raw.maxPrice)
    ensures r.unit == raw.unit && r.priceDate == raw.priceDate && r.marketLocation == raw.marketLocation
    ensures r.sourceId == s.sourceId && r.state == s.stateCode
    ensures r.commodityCode == raw.commodityCode && r.cropName == raw.cropName && r.variety == raw.variety
    ensures r.arrival == raw.arrival && r.minPrice == raw.minPrice
    ensures r.maxPrice == raw.maxPrice && r.modalPrice == raw.modalPrice
    ensures r.source == Lower(s.organization) + "_scraper"
    ensures r.priceType == "wholesale" && r.status == "ready"
  {
    PriceRecord(
      s.sourceId, raw.commodityCode, raw.cropName, raw.variety, raw.unit, raw.marketLocation,
      s.stateCode, raw.priceDate, raw.arrival, raw.minPrice, raw.maxPrice, raw.modalPrice,
      if TruthyNumber(raw.modalPrice) then raw.modalPrice else raw.maxPrice,
      Spread(raw.minPrice, raw.maxPrice),
      Lower(s.organization) + "_scraper", "wholesale", "ready")
  }

  /** Unlike the ingest normaliser, no record is dropped: one without any price keeps no price per unit. */
  lemma NormalizeKeepsPricelessRecords(s: Scraper, raw: RawRecord)
    requires raw.modalPrice.None? && raw.maxPrice.None?
    ensures NormalizeRecord(s, raw).pricePerUnit.None?
  {
  }

  // ---------------------------------------------------------------------
  // ScraperFactory.create
  // ---------------------------------------------------------------------

  /** A source row of `agri_market_sources`, reduced to what the orchestrator and the factory read. */
  datatype SourceRow = SourceRow(active: Option<bool>, organization: Option<string>, stateCode: Option<string>, id: Option<string>)

  /** `ScraperFactory.create(config)`: only the `MSAMB` organisation has a scraper; any other raises `ValueError`. */
  function Create(src: SourceRow): (r: Try<Scraper>)
    ensures r.Ok? <==> src.organization == Some("MSAMB")
    ensures r.Ok? ==> r.value.organization == "MSAMB" && r.value.sourceId == src.id && r.value.stateCode == src.stateCode
  {
    if src.organization == Some("MSAMB") then Ok(Scraper("MSAMB", src.stateCode, src.id)) else Raised
  }

  /** Every record of a scraper the factory builds is tagged `msamb_scraper`. */
  lemma CreatedScraperSource(src: SourceRow, raw: RawRecord)
    requires Create(src).Ok?
    ensures NormalizeRecord(Create(src).value, raw).source == "msamb_scraper"
  {
    assert Lower("MSAMB") == "msamb";
  }

  // ---------------------------------------------------------------------
  // BaseAPMCScraper._upsert
  // ---------------------------------------------------------------------

  /**
   * `_upsert(rows, batch)`, the store accepting or raising on batch `k` as
   * `accepts(k)` says.  `sent` lists the batches handed to the store; the
   * first exception escapes.  A zero batch size makes `range` raise; a
   * negative one sends nothing.
   */
  method Upsert<T>(rows: seq<T>, batch: int, accepts: nat -> bool) returns (r: Try<()>, sent: seq<seq<T>>)
    ensures batch == 0 ==> r == Raised && sent == []
    ensures batch < 0 ==> r == Ok(()) && sent == []
    ensures batch > 0 ==> sent == SentUntilRefused(Chunks(rows, batch), accepts)
    ensures batch > 0 ==> (r.Ok? <==> forall k :: 0 <= k < |sent| ==> accepts(k))
  {
    if batch == 0 {
      return Raised, [];
    }
    if batch < 0 {
      return Ok(()), [];
    }
    r, sent := SendBatches(rows, batch, accepts);
  }

  /** The loop of `_upsert` for a positive batch size. */
  method SendBatches<T>(rows: seq<T>, bs: nat, accepts: nat -> bool) returns (r: Try<()>, sent: seq<seq<T>>)
    requires bs > 0
    ensures sent == SentUntilRefused(Chunks(rows, bs), accepts)
    ensures r.Ok? <==> forall k :: 0 <= k < |sent| ==> accepts(k)
  {
    sent := [];
    ghost var cs := Chunks(rows, bs);
    var i := 0;
    var k := 0;
    while i < |rows|
      invariant k <= |cs| && i == k * bs
      invariant k == |cs| ==> i >= |rows|
      invariant sent == cs[..k]
      invariant forall j :: 0 <= j < k ==> accepts(j)
    {
      var slice := Slice(rows, i, i + bs);
      BatchNext(rows, bs, k);
      MulStep(k, bs);
      sent := sent + [slice];
      if !accepts(k) {
        SentUntilRefusedAt(cs, accepts, k);
        return Raised, sent;
      }
      i := i + bs;
      k := k + 1;
    }
    BatchesDone(rows, bs, k);
    SentUntilRefusedAll(cs, accepts);
    return Ok(()), sent;
  }

  /** When every batch is accepted, the batches sent hold every row, in order. */
  lemma UpsertSendsEveryRow<T>(rows: seq<T>, batch: nat, accepts: nat -> bool)
    requires batch > 0 && forall k :: 0 <= k < |Chunks(rows, batch)| ==> accepts(k)
    ensures Flatten(SentUntilRefused(Chunks(rows, batch), accepts)) == rows
  {
    ChunksFlatten(rows, batch);
  }

  // ---------------------------------------------------------------------
  // BaseAPMCScraper.run
  // ---------------------------------------------------------------------

  /** The counters of `run` (times and the error message are not modelled). */
  datatype RunStats = RunStats(commoditiesFetched: nat, recordsScraped: nat, recordsUpserted: nat, errors: nat, success: bool)

  /**
   * What one commodity contributes: its normalised records, or an exception
   * from the request or from `_parse`.  `fetch(code)` is the page's rows for
   * a successful request (none for a non-200 status) or `Raised`.
   */
  function CommodityRecords(s: Scraper, today: Date, code: string, name: string, fetch: string -> Try<seq<Row>>)
    : (r: Try<seq<PriceRecord>>)
    requires ValidDate(today)
  {
    match fetch(code)
    case Raised => Raised
    case Ok(rows) =>
      match Parse(code, name, today, rows)
      case Raised => Raised
      case Ok(parsed) => Ok(NormalizeAll(s, parsed.out))
  }

  function NormalizeAll(s: Scraper, raws: seq<RawRecord>): (r: seq<PriceRecord>)
    ensures |r| == |raws| && forall k :: 0 <= k < |raws| ==> r[k] == NormalizeRecord(s, raws[k])
  {
    seq(|raws|, k requires 0 <= k < |raws| => NormalizeRecord(s, raws[k]))
  }

  /** The records collected over the commodities, in order, and the number of commodities that raised. */
  function Collected(s: Scraper, today: Date, commodities: seq<(string, string)>, fetch: string -> Try<seq<Row>>)
    : (r: (seq<PriceRecord>, nat))
    requires ValidDate(today)
    ensures r.1 <= |commodities|
  {
    if commodities == [] then ([], 0)
    else
      var (records, errors) := Collected(s, today, commodities[..|commodities| - 1], fetch);
      var (code, name) := commodities[|commodities| - 1];
      match CommodityRecords(s, today, code, name, fetch)
      case Raised => (records, errors + 1)
      case Ok(more) => (records + more, errors)
  }

  /**
   * `run()`: `commodities` is what `fetch_commodities` returned (in
   * dictionary order) or `Raised`, `fetch` the outcome of each commodity's
   * request, and `accepts` the store's answer per upsert batch.
   */
  method Run(s: Scraper, today: Date, commodities: Try<seq<(string, string)>>, fetch: string -> Try<seq<Row>>,
             accepts: nat -> bool) returns (stats: RunStats)
    requires ValidDate(today)
    ensures commodities.Raised? ==> stats == RunStats(0, 0, 0, 0, false)
    ensures commodities.Ok? ==>
      var (records, errors) := Collected(s, today, commodities.value, fetch);
      && stats.commoditiesFetched == |commodities.value|
      && stats.recordsScraped == |records|
      && stats.errors == errors
      && (stats.success <==> |records| > 0 && forall k :: 0 <= k < |Chunks(records, 100)| ==> accepts(k))
      && stats.recordsUpserted == (if stats.success then |records| else 0)
  {
    stats := RunStats(0, 0, 0, 0, false);
    if commodities.Raised? {
      return;
    }
    var items := commodities.value;
    stats := stats.(commoditiesFetched := |items|);
    var allRecords: seq<PriceRecord> := [];
    var i := 0;
    while i < |items|
      invariant 0 <= i <= |items|
      invariant (allRecords, stats.errors) == Collected(s, today, items[..i], fetch)
      invariant stats == RunStats(|items|, 0, 0, stats.errors, false)
    {
      assert items[..i + 1][..i] == items[..i];
      var (code, name) := items[i];
      var page := fetch(code);
      if page.Raised? {
        stats := stats.(errors := stats.errors + 1);
      } else {
        var records := ParseTable(code, name, today, page.value);
        if records.Raised? {
          stats := stats.(errors := stats.errors + 1);
        } else if |records.value| > 0 {
          var normalized := NormalizeAll(s, records.value);
          allRecords := allRecords + normalized;
        } else {
          assert NormalizeAll(s, records.value) == [];
          assert allRecords + [] == allRecords;
        }
      }
      i := i + 1;
    }
    assert items[..i] == items;
    stats := stats.(recordsScraped := |allRecords|);
    if |allRecords| > 0 {
      var outcome, sent := Upsert(allRecords, 100, accepts);
      if outcome.Ok? {
        stats := stats.(recordsUpserted := |allRecords|, success := true);
      }
    }
  }

  /** When every request fails, nothing is collected and each commodity counts one error. */
  lemma EveryFailureIsAnError(s: Scraper, today: Date, commodities: seq<(string, string)>, fetch: string -> Try<seq<Row>>)
    requires ValidDate(today)
    requires forall k :: 0 <= k < |commodities| ==> fetch(commodities[k].0).Raised?
    ensures Collected(s, today, commodities, fetch) == ([], |commodities|)
  {
    if commodities != [] {
      var n := |commodities| - 1;
      EveryFailureIsAnError(s, today, commodities[..n], fetch);
    }
  }

  /**
   * Two commodities, the first request raising and the second page giving
   * records: the run collects the second commodity's records and counts one
   * error.
   */
  lemma OneFailedOneScraped(s: Scraper, today: Date, first: (string, string), second: (string, string),
                            fetch: string -> Try<seq<Row>>, records: seq<PriceRecord>)
    requires ValidDate(today)
    requires fetch(first.0).Raised?
    requires CommodityRecords(s, today, second.0, second.1, fetch) == Ok(records)
    ensures Collected(s, today, [first, second], fetch) == (records, 1)
  {
    assert CommodityRecords(s, today, first.0, first.1, fetch) == Raised;
    CollectedNext(s, today, [], first, fetch);
    assert [] + [first] == [first];
    CollectedNext(s, today, [first], second, fetch);
    assert [first] + [second] == [first, second];
    assert [] + records == records;
  }

  /** One more commodity adds its records, or one error when it raises. */
  lemma CollectedNext(s: Scraper, today: Date, commodities: seq<(string, string)>, c: (string, string),
                      fetch: string -> Try<seq<Row>>)
    requires ValidDate(today)
    ensures var (records, errors) := Collected(s, today, commodities, fetch);
      var more := CommodityRecords(s, today, c.0, c.1, fetch);
      Collected(s, today, commodities + [c], fetch)
        == if more.Raised? then (records, errors + 1) else (records + more.value, errors)
  {
    assert (commodities + [c])[..|commodities|] == commodities;
  }

  // ---------------------------------------------------------------------
  // APMCOrchestrator.run_all
  // ---------------------------------------------------------------------

  /** `r.get("active") is True`: the column holds the boolean `true`; a missing value or `false` is inactive. */
  predicate IsActive(src: SourceRow) {
    src.active == Some(true)
  }

  /**
   * Whether one source's run succeeded: the factory builds its scraper and
   * `run(src)` (which stands for constructing the scraper, which may raise,
   * and `run()`) reports success.
   */
  predicate Succeeded(src: SourceRow, run: SourceRow -> Try<RunStats>) {
    Create(src).Ok? && run(src).Ok? && run(src).value.success
  }

  /** The success flags of the active sources, in order. */
  function Results(sources: seq<SourceRow>, run: SourceRow -> Try<RunStats>): (r: seq<bool>)
    ensures |r| <= |sources|
  {
    if sources == [] then []
    else
      var src := sources[|sources| - 1];
      Results(sources[..|sources| - 1], run) + (if IsActive(src) then [Succeeded(src, run)] else [])
  }

  /** `run_all()`: the success flags of the active sources, and whether the process exits with status 1. */
  method RunAll(sources: seq<SourceRow>, run: SourceRow -> Try<RunStats>) returns (results: seq<bool>, exitsNonZero: bool)
    ensures results == Results(sources, run)
    ensures exitsNonZero <==> |results| > 0 && forall k :: 0 <= k < |results| ==> !results[k]
  {
    results := [];
    var i := 0;
    while i < |sources|
      invariant 0 <= i <= |sources|
      invariant results == Results(sources[..i], run)
    {
      assert sources[..i + 1][..i] == sources[..i];
      var src := sources[i];
      if src.active == Some(true) {
        var success := false;
        var scraper := Create(src);
        if scraper.Ok? {
          var stats := run(src);
          if stats.Ok? {
            success := stats.value.success;
          }
        }
        results := results + [success];
      }
      i := i + 1;
    }
    assert sources[..i] == sources;
    exitsNonZero := false;
    if |results| > 0 {
      exitsNonZero := true;
      var k := 0;
      while k < |results|
        invariant 0 <= k <= |results|
        invariant exitsNonZero <==> forall j :: 0 <= j < k ==> !results[j]
      {
        if results[k] {
          exitsNonZero := false;
        }
        k := k + 1;
      }
    }
  }

  /** The flags follow the active sources one for one: inactive sources never count, whatever they would report. */
  lemma {:induction false} ResultsOfActive(sources: seq<SourceRow>, run: SourceRow -> Try<RunStats>)
    ensures |Results(sources, run)| == |set k | 0 <= k < |sources| && IsActive(sources[k])|
  {
    if sources != [] {
      var n := |sources| - 1;
      ResultsOfActive(sources[..n], run);
      var before := set k | 0 <= k < n && IsActive(sources[..n][k]);
      var now := set k | 0 <= k < |sources| && IsActive(sources[k]);
      assert before == set k | 0 <= k < n && IsActive(sources[k]);
      if IsActive(sources[n]) {
        assert now == before + {n};
      } else {
        assert now == before;
      }
    }
  }

  /** A source that succeeded keeps the orchestrator from failing. */
  lemma OneSuccessSuffices(sources: seq<SourceRow>, run: SourceRow -> Try<RunStats>, i: nat)
    requires i < |sources| && IsActive(sources[i]) && Succeeded(sources[i], run)
    ensures exists k :: 0 <= k < |Results(sources, run)| && Results(sources, run)[k]
  {
    var n := |sources| - 1;
    var before := Results(sources[..n], run);
    if i == n {
      assert Results(sources, run)[|before|];
    } else {
      assert sources[..n][i] == sources[i];
      OneSuccessSuffices(sources[..n], run, i);
      var k :| 0 <= k < |before| && before[k];
      assert Results(sources, run)[k];
    }
  }
}
