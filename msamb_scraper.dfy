/**
 * msamb_scraper.py: the MSAMB scraper's own copy of the pipeline.  Its
 * parser reads a date row with `strptime("%d/%m/%Y")` and falls back to
 * today's date, its cleaner keeps only digits and points, its records are
 * normalised through the commodity-master index, and its upsert stops at the
 * first batch the store refuses.
 *
 * `MSAMBScraper` and `SupabaseManager` only set their fields when they are
 * built, so the scraper's configuration is a value (`Context`) handed to the
 * operations that read it.
 */
module MsambScraper {
  import opened Wrappers
  import opened PyText
  import opened PyFloat
  import opened PyDate
  import opened Folds
  import opened Batches
  import opened Tables

  // ---------------------------------------------------------------------
  // clean_numeric
  // ---------------------------------------------------------------------

  /** The characters `re.sub(r'[^0-9.]', '', value)` keeps. */
  predicate IsDigitOrPoint(c: char) {
    IsAsciiDigit(c) || c == '.'
  }

  /**
   * `clean_numeric(value)`: nothing for an empty cell or a lone dash;
   * otherwise the digits and points of the cell read as a decimal, nothing
   * when none remain or when `float()` rejects them (the `except` branch).
   */
  function CleanNumeric(value: string): (r: Option<real>)
    ensures r.Some? ==> r.value >= 0.0
    ensures value == "" || value == "-" ==> r.None?
  {
    if value == "" || value == "-" then None
    else
      var cleaned := Filter(value, IsDigitOrPoint);
      if cleaned == "" then None
      else
        assert IsDigitOrPoint(cleaned[0]);
        ParseFloat(cleaned)
  }

  /** The grammar `clean_numeric` accepts: the kept characters hold one point at most and a digit. */
  lemma CleanNumericAccepts(value: string)
    ensures CleanNumeric(value).Some? <==>
      value != "" && value != "-" && IsDecimalText(Filter(value, IsDigitOrPoint))
  {
    var cleaned := Filter(value, IsDigitOrPoint);
    assert forall i :: 0 <= i < |cleaned| ==> IsNumberChar(cleaned[i]);
    ParseFloatAcceptsDecimalText(cleaned);
  }

  /** A whole number reads as itself. */
  lemma CleanNumericNatural(n: nat)
    ensures CleanNumeric(NatToDigits(n)) == Some(n as real)
  {
    var s := NatToDigits(n);
    NatToDigitsRoundTrip(n);
    FilterKeepsAll(s, IsDigitOrPoint);
    ParseFloatNatural(n);
  }

  /** A leading minus is dropped with the other characters: `-5` reads as `5`. */
  lemma CleanNumericDropsMinus(n: nat)
    ensures CleanNumeric("-" + NatToDigits(n)) == Some(n as real)
  {
    var minus := "-";
    var s := NatToDigits(n);
    NatToDigitsRoundTrip(n);
    FilterAppend(minus, s, IsDigitOrPoint);
    assert Filter(minus, IsDigitOrPoint) == [] + Filter(minus[1..], IsDigitOrPoint);
    FilterKeepsAll(s, IsDigitOrPoint);
    assert Filter(minus + s, IsDigitOrPoint) == s;
    ParseFloatNatural(n);
  }

  /** Two points make `float()` fail, and the failure reads as nothing. */
  lemma CleanNumericTwoPoints(a: string, b: string, c: string)
    requires AllDigits(a) && AllDigits(b) && AllDigits(c)
    ensures CleanNumeric(a + "." + b + "." + c) == None
  {
    var s := a + "." + b + "." + c;
    assert forall i :: 0 <= i < |s| ==> IsDigitOrPoint(s[i]);
    FilterKeepsAll(s, IsDigitOrPoint);
    CleanNumericAccepts(s);
    assert s[|a|] == '.' && s[|a| + 1 + |b|] == '.';
  }

  // ---------------------------------------------------------------------
  // parse_date
  // ---------------------------------------------------------------------

  /** `parse_date(date_str)` with the default format: the `DD/MM/YYYY` date, or `today` when that fails. */
  function ParseDate(dateStr: string, today: Date): (d: Date)
    ensures StrptimeDmy(dateStr).Some? ==> d == StrptimeDmy(dateStr).value
    ensures StrptimeDmy(dateStr).None? ==> d == today
    ensures ValidDate(today) ==> ValidDate(d)
  {
    match StrptimeDmy(dateStr)
    case Some(d) => d
    case None => today
  }

  /** A valid day written `DD/MM/YYYY` reads back as that day, whatever today is. */
  lemma ParseDateRoundTrip(d: Date, today: Date)
    requires ValidDate(d)
    ensures FitsDayFirst(d, 4) && ParseDate(DayFirst(d, '/', 4), today) == d
  {
    StrptimeDmyRoundTrip(d);
  }

  /** The same day written with another separator falls back to today. */
  lemma ParseDateOtherSeparator(d: Date, sep: char, today: Date)
    requires ValidDate(d) && sep != '/' && !IsAsciiDigit(sep)
    ensures FitsDayFirst(d, 4) && ParseDate(DayFirst(d, sep, 4), today) == today
  {
    StrptimeDmyRejectsOtherSeparators(d, sep);
  }

  // ---------------------------------------------------------------------
  // SupabaseManager.get_commodity_mapping and normalize_commodity
  // ---------------------------------------------------------------------

  /** A `commodity_master` row whose name and aliases are text, as the index files it. */
  datatype MasterCommodity = MasterCommodity(
    globalCode: Option<string>, name: string, aliases: seq<string>, unit: Option<string>, category: Option<string>)

  /**
   * A `commodity_master` row as the query returns it.  `name` is `None` when
   * the column holds no text, and so is an alias that is not text.  `aliases`
   * is empty when the column is empty or not a list, since the loop then
   * reads no alias.
   */
  datatype MasterEntry = MasterEntry(
    globalCode: Option<string>, name: Option<string>, aliases: seq<Option<string>>, unit: Option<string>, category: Option<string>)

  /** `.lower()` succeeds on the name and on every alias. */
  predicate Lowerable(e: MasterEntry) {
    e.name.Some? && forall j :: 0 <= j < |e.aliases| ==> e.aliases[j].Some?
  }

  predicate AllLowerable(entries: seq<MasterEntry>) {
    forall i :: 0 <= i < |entries| ==> Lowerable(entries[i])
  }

  /** The text of an alias; only read for aliases that are text. */
  function AliasText(a: Option<string>): string {
    if a.Some? then a.value else ""
  }

  /** The row the index stores for an entry with a text name. */
  function AsCommodity(e: MasterEntry): (c: MasterCommodity)
    requires e.name.Some?
    ensures c.name == e.name.value && |c.aliases| == |e.aliases|
    ensures forall j :: 0 <= j < |e.aliases| && e.aliases[j].Some? ==> c.aliases[j] == e.aliases[j].value
  {
    MasterCommodity(e.globalCode, e.name.value,
      seq(|e.aliases|, j requires 0 <= j < |e.aliases| => AliasText(e.aliases[j])), e.unit, e.category)
  }

  /** The rows of a query whose names and aliases are all text. */
  function Commodities(entries: seq<MasterEntry>): (rows: seq<MasterCommodity>)
    requires AllLowerable(entries)
    ensures |rows| == |entries| && forall i :: 0 <= i < |entries| ==> rows[i] == AsCommodity(entries[i])
  {
    seq(|entries|, i requires 0 <= i < |entries| => AsCommodity(entries[i]))
  }

  function LowerAll(names: seq<string>): (r: seq<string>)
    ensures |r| == |names| && forall i :: 0 <= i < |names| ==> r[i] == Lower(names[i])
  {
    if names == [] then [] else LowerAll(names[..|names| - 1]) + [Lower(names[|names| - 1])]
  }

  // `MasterKeys` and `MasterRow` give the loop the shape of `GroupPairs`:
  // the unit context stands for a loop that reads nothing but the row, and
  // the value filed under every key is the row itself.

  /** The keys a master row is filed under: its lower-cased name, then its lower-cased aliases. */
  function MasterKeys(u: (), row: MasterCommodity): seq<string> {
    [Lower(row.name)] + LowerAll(row.aliases)
  }

  function MasterRow(row: MasterCommodity): MasterCommodity {
    row
  }

  /** The assignments `mapping[key] = row` of the loop, in order. */
  function MasterPairs(rows: seq<MasterCommodity>): seq<(string, MasterCommodity)> {
    GroupPairs((), rows, MasterKeys, MasterRow)
  }

  /**
   * `get_commodity_mapping()` over the rows of `commodity_master`: a name or
   * alias that is not text makes `.lower()` raise, and the exception handler
   * returns an empty dictionary.
   */
  method GetCommodityMapping(entries: seq<MasterEntry>) returns (mapping: map<string, MasterCommodity>)
    ensures AllLowerable(entries) ==> mapping == FoldPairs(MasterPairs(Commodities(entries)))
    ensures !AllLowerable(entries) ==> mapping == map[]
  {
    mapping := map[];
    var i := 0;
    while i < |entries|
      invariant 0 <= i <= |entries| && AllLowerable(entries[..i])
      invariant mapping == FoldPairs(MasterPairs(Commodities(entries[..i])))
    {
      var filed := FileMasterRow(mapping, MasterPairs(Commodities(entries[..i])), entries[i]);
      if filed.Raised? {
        return map[];
      }
      CommoditiesNext(entries, i);
      mapping := filed.value;
      i := i + 1;
    }
    assert entries[..i] == entries;
  }

  /** One more lowerable entry extends the index's assignments by that row's. */
  lemma CommoditiesNext(entries: seq<MasterEntry>, i: nat)
    requires i < |entries| && AllLowerable(entries[..i]) && Lowerable(entries[i])
    ensures AllLowerable(entries[..i + 1])
    ensures var row := AsCommodity(entries[i]);
      MasterPairs(Commodities(entries[..i + 1]))
        == MasterPairs(Commodities(entries[..i])) + PairsWith(MasterKeys((), row), row)
  {
    var cs := Commodities(entries[..i + 1]);
    assert cs[..i] == Commodities(entries[..i]);
    GroupPairsNext((), cs, MasterKeys, MasterRow, i);
    assert cs[..i + 1] == cs;
  }

  /** The first `j` aliases are text. */
  predicate AliasesTextBelow(aliases: seq<Option<string>>, j: nat) {
    forall k :: 0 <= k < j && k < |aliases| ==> aliases[k].Some?
  }

  lemma AliasesTextNext(aliases: seq<Option<string>>, j: nat)
    requires AliasesTextBelow(aliases, j) && j < |aliases| && aliases[j].Some?
    ensures AliasesTextBelow(aliases, j + 1)
  {
  }

  lemma MasterKeysOfEntry(e: MasterEntry)
    requires e.name.Some?
    ensures var keys := MasterKeys((), AsCommodity(e));
      |keys| == |e.aliases| + 1 && keys[0] == Lower(e.name.value)
      && forall j :: 0 <= j < |e.aliases| && e.aliases[j].Some? ==> keys[j + 1] == Lower(e.aliases[j].value)
  {
  }

  /**
   * One row of `get_commodity_mapping()`: the row filed under its lower-cased
   * name, then under each lower-cased alias; a name or alias that is not text
   * raises.
   */
  method FileMasterRow(mapping: map<string, MasterCommodity>, ghost done: seq<(string, MasterCommodity)>, e: MasterEntry)
    returns (r: Try<map<string, MasterCommodity>>)
    requires mapping == FoldPairs(done)
    ensures r.Raised? <==> !Lowerable(e)
    ensures r.Ok? ==> Lowerable(e) && r.value == FoldPairs(done + PairsWith(MasterKeys((), AsCommodity(e)), AsCommodity(e)))
  {
    if e.name.None? {
      return Raised;
    }
    var row := AsCommodity(e);
    var keys := MasterKeys((), row);
    MasterKeysOfEntry(e);
    assert done + PairsWith(keys[..0], row) == done;
    PairsWithNext(done, keys, row, 0);
    var m := mapping[Lower(e.name.value) := row];
    var j := 0;
    while j < |e.aliases|
      invariant 0 <= j <= |e.aliases|
      invariant AliasesTextBelow(e.aliases, j)
      invariant m == FoldPairs(done + PairsWith(keys[..j + 1], row))
    {
      if e.aliases[j].None? {
        return Raised;
      }
      AliasesTextNext(e.aliases, j);
      m := FileUnderAlias(m, done, keys, row, j, e.aliases[j].value);
      j := j + 1;
    }
    assert keys[..j + 1] == keys;
    assert Lowerable(e);
    return Ok(m);
  }

  /** `mapping[alias.lower()] = row` for alias `j` of the row. */
  method FileUnderAlias(m: map<string, MasterCommodity>, ghost done: seq<(string, MasterCommodity)>,
                        ghost keys: seq<string>, row: MasterCommodity, j: nat, alias: string)
    returns (m': map<string, MasterCommodity>)
    requires j + 1 < |keys| && keys[j + 1] == Lower(alias)
    requires m == FoldPairs(done + PairsWith(keys[..j + 1], row))
    ensures m' == FoldPairs(done + PairsWith(keys[..j + 2], row))
  {
    PairsWithNext(done, keys, row, j + 1);
    m' := m[Lower(alias) := row];
  }

  /** Every entry of the index is a master row filed under that key. */
  lemma CommodityMappingEntry(rows: seq<MasterCommodity>, key: string)
    requires key in FoldPairs(MasterPairs(rows))
    ensures exists i :: 0 <= i < |rows| && key in MasterKeys((), rows[i]) && FoldPairs(MasterPairs(rows))[key] == rows[i]
  {
    GroupValueFrom((), rows, MasterKeys, MasterRow, key);
  }

  /** A key of a row that no later row shares finds that row. */
  lemma CommodityMappingLastWins(rows: seq<MasterCommodity>, i: nat, key: string)
    requires i < |rows| && key in MasterKeys((), rows[i])
    requires forall j :: i < j < |rows| ==> key !in MasterKeys((), rows[j])
    ensures key in FoldPairs(MasterPairs(rows)) && FoldPairs(MasterPairs(rows))[key] == rows[i]
  {
    GroupLastWins((), rows, MasterKeys, MasterRow, i, key);
  }

  /** What `normalize_commodity` returns. */
  datatype Normalized = Normalized(globalCode: Option<string>, name: string, category: Option<string>)

  /**
   * `normalize_commodity(name)`: the master row filed under the lower-cased,
   * stripped name, or the name itself with no code or category.
   */
  function NormalizeCommodity(mapping: map<string, MasterCommodity>, name: string): (r: Normalized)
    ensures Strip(Lower(name)) !in mapping ==> r == Normalized(None, name, None)
    ensures Strip(Lower(name)) in mapping ==>
      var row := mapping[Strip(Lower(name))];
      r.globalCode == row.globalCode && r.name == row.name && r.category == row.category
  {
    var key := Strip(Lower(name));
    if key in mapping then
      var mapped := mapping[key];
      Normalized(mapped.globalCode, mapped.name, mapped.category)
    else Normalized(None, name, None)
  }

  /**
   * Normalising through the index: a name whose lower-cased, stripped form is
   * a key of one row only (no later row shares it) gets that row's code,
   * canonical name and category.
   */
  lemma NormalizeThroughIndex(rows: seq<MasterCommodity>, i: nat, name: string)
    requires i < |rows| && Strip(Lower(name)) in MasterKeys((), rows[i])
    requires forall j :: i < j < |rows| ==> Strip(Lower(name)) !in MasterKeys((), rows[j])
    ensures NormalizeCommodity(FoldPairs(MasterPairs(rows)), name)
      == Normalized(rows[i].globalCode, rows[i].name, rows[i].category)
  {
    CommodityMappingLastWins(rows, i, Strip(Lower(name)));
  }

  /** A name that no row is filed under passes through unmapped. */
  lemma NormalizeUnknown(rows: seq<MasterCommodity>, name: string)
    requires forall i :: 0 <= i < |rows| ==> Strip(Lower(name)) !in MasterKeys((), rows[i])
    ensures NormalizeCommodity(FoldPairs(MasterPairs(rows)), name) == Normalized(None, name, None)
  {
    GroupKeys((), rows, MasterKeys, MasterRow, Strip(Lower(name)));
  }

  // ---------------------------------------------------------------------
  // load_commodities_from_html
  // ---------------------------------------------------------------------

  /** `code and code.isdigit() and len(code) == 5`. */
  predicate IsCommodityCode(code: string) {
    code != "" && AllDigits(code) && |code| == 5
  }

  predicate KeepsCommodityOption(opt: HtmlOption) {
    IsCommodityCode(OptionCode(opt))
  }

  function OptionName(opt: HtmlOption): string {
    opt.text
  }

  /** The assignments `commodities[code] = name` of the option loop, in document order. */
  function CommodityPairs(opts: seq<HtmlOption>): seq<(string, string)> {
    KeptPairs(opts, KeepsCommodityOption, OptionCode, OptionName)
  }

  /**
   * `load_commodities_from_html()` on the options of the dropdown, `None`
   * when the page has no `<select>` (the exception is caught and the result
   * is empty).
   */
  method LoadCommoditiesFromHtml(options: Option<seq<HtmlOption>>) returns (commodities: map<string, string>)
    ensures options.None? ==> commodities == map[]
    ensures options.Some? ==> commodities == FoldPairs(CommodityPairs(options.value))
  {
    commodities := map[];
    if options.None? {
      return;
    }
    var opts := options.value;
    var i := 0;
    while i < |opts|
      invariant 0 <= i <= |opts|
      invariant commodities == FoldPairs(CommodityPairs(opts[..i]))
    {
      var opt := opts[i];
      KeptFoldNext(opts, i, KeepsCommodityOption, OptionCode, OptionName);
      var code := OptionCode(opt);
      if code != "" && AllDigits(code) && |code| == 5 {
        commodities := commodities[code := opt.text];
      }
      i := i + 1;
    }
    assert opts[..i] == opts;
  }

  /** The dropdown dictionary's keys are exactly the five-digit codes of the options. */
  lemma CommodityCodes(opts: seq<HtmlOption>, code: string)
    ensures code in FoldPairs(CommodityPairs(opts))
        <==> exists i :: 0 <= i < |opts| && IsCommodityCode(OptionCode(opts[i])) && OptionCode(opts[i]) == code
    ensures code in FoldPairs(CommodityPairs(opts)) ==> |code| == 5 && AllDigits(code)
  {
    KeptKeys(opts, KeepsCommodityOption, OptionCode, OptionName, code);
  }

  /** A later option with the same code overwrites an earlier one. */
  lemma CommodityLastOptionWins(opts: seq<HtmlOption>, i: nat)
    requires i < |opts| && KeepsCommodityOption(opts[i])
    requires forall j :: i < j < |opts| && KeepsCommodityOption(opts[j]) ==> OptionCode(opts[j]) != OptionCode(opts[i])
    ensures OptionCode(opts[i]) in FoldPairs(CommodityPairs(opts))
    ensures FoldPairs(CommodityPairs(opts))[OptionCode(opts[i])] == opts[i].text
  {
    KeptLastWins(opts, KeepsCommodityOption, OptionCode, OptionName, i);
  }

  // ---------------------------------------------------------------------
  // fetch_commodity_data: request parameters
  // ---------------------------------------------------------------------

  const CodePlaceholder := "{commodity_code}"

  /** A configured parameter value, with the placeholder replaced by the commodity code. */
  function Substitute(value: string, code: string): string {
    if value == CodePlaceholder then code else value
  }

  /** The assignments `params[key] = ...` of the loop over the configured parameters, in order. */
  function SubstitutedPairs(configured: seq<(string, string)>, code: string): (ps: seq<(string, string)>)
    ensures |ps| == |configured|
    ensures forall i :: 0 <= i < |ps| ==> ps[i] == (configured[i].0, Substitute(configured[i].1, code))
  {
    if configured == [] then []
    else
      var (key, value) := configured[|configured| - 1];
      SubstitutedPairs(configured[..|configured| - 1], code) + [(key, Substitute(value, code))]
  }

  /** The request parameters for one commodity; `configured` lists the configured parameters in dictionary order. */
  method RequestParams(configured: seq<(string, string)>, code: string) returns (params: map<string, string>)
    ensures params == FoldPairs(SubstitutedPairs(configured, code))
  {
    params := map[];
    var i := 0;
    while i < |configured|
      invariant 0 <= i <= |configured|
      invariant params == FoldPairs(SubstitutedPairs(configured[..i], code))
    {
      var (key, value) := configured[i];
      assert configured[..i + 1][..i] == configured[..i];
      FoldPairsSnoc(SubstitutedPairs(configured[..i], code), key, Substitute(value, code));
      if value == CodePlaceholder {
        params := params[key := code];
      } else {
        params := params[key := value];
      }
      i := i + 1;
    }
    assert configured[..i] == configured;
  }

  /**
   * The parameters have the configured keys; a parameter configured as the
   * placeholder carries the commodity code and every other keeps its value.
   */
  lemma RequestParamValue(configured: seq<(string, string)>, code: string, i: nat)
    requires i < |configured|
    requires forall j, k :: 0 <= j < k < |configured| ==> configured[j].0 != configured[k].0
    ensures configured[i].0 in FoldPairs(SubstitutedPairs(configured, code))
    ensures FoldPairs(SubstitutedPairs(configured, code))[configured[i].0]
      == if configured[i].1 == CodePlaceholder then code else configured[i].1
  {
    LastWriteWins(SubstitutedPairs(configured, code), i);
  }

  // ---------------------------------------------------------------------
  // parse_html_table
  // ---------------------------------------------------------------------

  /** What `parse_html_table` reads besides the rows: the configuration, the index and today's date. */
  datatype Context = Context(
    sourceId: Option<string>,
    stateCode: string,
    stateId: Option<string>,
    countryId: Option<string>,
    commodityCode: string,
    commodityName: string,
    mapping: map<string, MasterCommodity>,
    today: Date)

  /** A record of `parse_html_table` (timestamps and constant columns are not modelled). */
  datatype PriceRecord = PriceRecord(
    sourceId: string,
    commodityCode: string,
    cropName: string,
    variety: Option<string>,
    unit: string,
    marketLocation: string,
    stateCode: string,
    priceDate: string,
    arrival: Option<real>,
    minPrice: Option<real>,
    maxPrice: Option<real>,
    modalPrice: Option<real>,
    pricePerUnit: Option<real>,
    spread: Option<real>,
    normalized: Normalized,
    stateId: Option<string>,
    countryId: Option<string>)

  /** Python truthiness of an optional number: present and non-zero. */
  predicate TruthyNumber(v: Option<real>) {
    v.Some? && v.value != 0.0
  }

  /** `modal_price or max_price`: a modal price of zero falls through to the maximum. */
  function PricePerUnit(modal: Option<real>, max: Option<real>): (u: Option<real>)
    ensures TruthyNumber(modal) ==> u == modal
    ensures !TruthyNumber(modal) ==> u == max
  {
    if TruthyNumber(modal) then modal else max
  }

  /** `max_price - min_price` when both are truthy: a zero price counts as absent. */
  function Spread(min: Option<real>, max: Option<real>): (s: Option<real>)
    ensures s.Some? <==> TruthyNumber(min) && TruthyNumber(max)
    ensures s.Some? ==> min.value + s.value == max.value
  {
    if TruthyNumber(min) && TruthyNumber(max) then Some(max.value - min.value) else None
  }

  /** A date row: exactly one cell, or at least seven with a `colspan` on the first. */
  predicate IsDateRow(row: Row) {
    |row| == 1 || (|row| >= 7 && row[0].hasColspan)
  }

  /** The record for a data row of at least seven cells, `None` when the configuration has no `id` (the row is skipped). */
  function RecordOf(ctx: Context, date: Date, row: Row): (r: Option<PriceRecord>)
    requires |row| >= 7 && ValidDate(date)
    ensures r.Some? <==> ctx.sourceId.Some?
    ensures r.Some? ==>
      && r.value.priceDate == IsoFormat(date)
      && r.value.marketLocation == row[0].text
      && r.value.unit != "" && (row[2].text != "" ==> r.value.unit == row[2].text)
      && (row[2].text == "" ==> r.value.unit == "quintal")
      && (r.value.variety.None? <==> row[1].text == "")
      && (r.value.variety.Some? ==> r.value.variety.value == row[1].text)
      && r.value.arrival == CleanNumeric(row[3].text)
      && r.value.minPrice == CleanNumeric(row[4].text)
      && r.value.maxPrice == CleanNumeric(row[5].text)
      && r.value.modalPrice == CleanNumeric(row[6].text)
      && r.value.pricePerUnit == PricePerUnit(r.value.modalPrice, r.value.maxPrice)
      && r.value.spread == Spread(r.value.minPrice, r.value.maxPrice)
      && r.value.normalized == NormalizeCommodity(ctx.mapping, ctx.commodityName)
      && r.value.sourceId == ctx.sourceId.value && r.value.commodityCode == ctx.commodityCode
      && r.value.cropName == ctx.commodityName && r.value.stateCode == ctx.stateCode
      && r.value.stateId == ctx.stateId && r.value.countryId == ctx.countryId
  {
    if ctx.sourceId.None? then None
    else
      var minPrice := CleanNumeric(row[4].text);
      var maxPrice := CleanNumeric(row[5].text);
      var modalPrice := CleanNumeric(row[6].text);
      Some(PriceRecord(
        ctx.sourceId.value, ctx.commodityCode, ctx.commodityName,
        if row[1].text == "" then None else Some(row[1].text),
        if row[2].text == "" then "quintal" else row[2].text,
        row[0].text, ctx.stateCode, IsoFormat(date),
        CleanNumeric(row[3].text), minPrice, maxPrice, modalPrice,
        PricePerUnit(modalPrice, maxPrice), Spread(minPrice, maxPrice),
        NormalizeCommodity(ctx.mapping, ctx.commodityName),
        ctx.stateId, ctx.countryId))
  }

  /** Today's date is a calendar date; every date the parser holds then is one too. */
  predicate DateOk(date: Option<Date>) {
    date.Some? ==> ValidDate(date.value)
  }

  /**
   * One row of `parse_html_table`: a date row with text replaces the
   * current date (by today's date when the text does not parse); a data row
   * of at least seven cells yields a record once a date is set.
   */
  function Step(ctx: Context, date: Option<Date>, row: Row): (r: Scanned<Option<Date>, PriceRecord>)
    requires ValidDate(ctx.today) && DateOk(date)
    ensures DateOk(r.state)
    ensures IsDateRow(row) ==> r.out == []
    ensures IsDateRow(row) && row[0].text == "" ==> r.state == date
    ensures IsDateRow(row) && row[0].text != "" ==> r.state == Some(ParseDate(row[0].text, ctx.today))
    ensures !IsDateRow(row) ==> r.state == date
    ensures |r.out| > 0 <==> !IsDateRow(row) && |row| >= 7 && date.Some? && ctx.sourceId.Some?
    ensures |r.out| > 0 ==> r.out == [RecordOf(ctx, date.value, row).value]
  {
    if IsDateRow(row) then
      if row[0].text != "" then Scanned(Some(ParseDate(row[0].text, ctx.today)), [])
      else Scanned(date, [])
    else if |row| >= 7 && date.Some? then
      var rec := RecordOf(ctx, date.value, row);
      Scanned(date, if rec.Some? then [rec.value] else [])
    else Scanned(date, [])
  }

  /** The rows walked in order with `Step`, from no date. */
  function Parse(ctx: Context, rows: seq<Row>): (r: Scanned<Option<Date>, PriceRecord>)
    requires ValidDate(ctx.today)
    ensures DateOk(r.state)
  {
    if rows == [] then Scanned(None, [])
    else
      var before := Parse(ctx, rows[..|rows| - 1]);
      var now := Step(ctx, before.state, rows[|rows| - 1]);
      Scanned(now.state, before.out + now.out)
  }

  /** One more row, given what the rows before it left and what the row itself yields. */
  lemma ParseNext(ctx: Context, rows: seq<Row>, i: nat, before: Scanned<Option<Date>, PriceRecord>,
                  now: Scanned<Option<Date>, PriceRecord>)
    requires ValidDate(ctx.today) && i < |rows|
    requires Parse(ctx, rows[..i]) == before && DateOk(before.state)
    requires Step(ctx, before.state, rows[i]) == now
    ensures Parse(ctx, rows[..i + 1]) == Scanned(now.state, before.out + now.out)
  {
    assert rows[..i + 1][..i] == rows[..i];
  }

  /** The parser emits at most one record per row, each stamped with an ISO calendar date. */
  lemma {:induction false} ParseOutputFacts(ctx: Context, rows: seq<Row>)
    requires ValidDate(ctx.today)
    ensures |Parse(ctx, rows).out| <= |rows|
    ensures forall k :: 0 <= k < |Parse(ctx, rows).out| ==> IsIsoDate(Parse(ctx, rows).out[k].priceDate)
  {
    if rows != [] {
      var n := |rows| - 1;
      ParseOutputFacts(ctx, rows[..n]);
      var before := Parse(ctx, rows[..n]);
      var now := Step(ctx, before.state, rows[n]);
      StepOutputIso(ctx, before.state, rows[n]);
      assert Parse(ctx, rows) == Scanned(now.state, before.out + now.out);
    }
  }

  lemma StepOutputIso(ctx: Context, date: Option<Date>, row: Row)
    requires ValidDate(ctx.today) && DateOk(date)
    ensures |Step(ctx, date, row).out| <= 1
    ensures forall k :: 0 <= k < |Step(ctx, date, row).out| ==> IsIsoDate(Step(ctx, date, row).out[k].priceDate)
  {
    if |Step(ctx, date, row).out| > 0 {
      IsoFormatRoundTrip(date.value);
    }
  }

  /** `parse_html_table(html, code, name)` on the `<tr>` rows of the page. */
  method ParseHtmlTable(ctx: Context, rows: seq<Row>) returns (records: seq<PriceRecord>)
    requires ValidDate(ctx.today)
    ensures records == Parse(ctx, rows).out
  {
    records := [];
    var currentDate: Option<Date> := None;
    var i := 0;
    while i < |rows|
      invariant 0 <= i <= |rows|
      invariant Parse(ctx, rows[..i]) == Scanned(currentDate, records)
    {
      var tds := rows[i];
      assert rows[..i + 1][..i] == rows[..i];
      if |tds| == 1 || (|tds| >= 7 && tds[0].hasColspan) {
        var dateText := tds[0].text;
        if dateText != "" {
          currentDate := Some(ParseDate(dateText, ctx.today));
        }
      } else if |tds| >= 7 && currentDate.Some? {
        var rec := RecordOf(ctx, currentDate.value, tds);
        if rec.Some? {
          records := records + [rec.value];
        }
      }
      i := i + 1;
    }
    assert rows[..i] == rows;
  }

  /** Data rows before the first date row yield nothing. */
  lemma {:induction false} NoDateNoRecords(ctx: Context, rows: seq<Row>)
    requires ValidDate(ctx.today)
    requires forall k :: 0 <= k < |rows| ==> !IsDateRow(rows[k])
    ensures Parse(ctx, rows) == Scanned(None, [])
  {
    if rows != [] {
      NoDateNoRecords(ctx, rows[..|rows| - 1]);
    }
  }

  /**
   * Unlike the parser of fetch_real_marketdata.py, a date row whose text does
   * not parse moves the date to today: the rows after it are stamped today.
   */
  lemma FailedDateIsToday(ctx: Context, rows: seq<Row>, badRow: Row)
    requires ValidDate(ctx.today)
    requires IsDateRow(badRow) && badRow[0].text != "" && StrptimeDmy(badRow[0].text).None?
    ensures Parse(ctx, rows + [badRow]) == Scanned(Some(ctx.today), Parse(ctx, rows).out)
  {
    var all := rows + [badRow];
    assert all[..|all| - 1] == rows;
    var before := Parse(ctx, rows);
    assert before.out + [] == before.out;
  }

  /** A modal price of zero is no price: the record's price per unit is then the maximum. */
  lemma ZeroModalFallsToMax(ctx: Context, date: Date, row: Row)
    requires |row| >= 7 && ValidDate(date) && ctx.sourceId.Some?
    requires CleanNumeric(row[6].text) == Some(0.0)
    ensures RecordOf(ctx, date, row).value.pricePerUnit == CleanNumeric(row[5].text)
  {
  }

  // ---------------------------------------------------------------------
  // SupabaseManager.upsert_market_prices
  // ---------------------------------------------------------------------

  /**
   * `upsert_market_prices(records, batch_size)`, the store accepting or
   * raising on batch `k` as `accepts(k)` says.  `sent` lists the batches
   * handed to the store.  A zero batch size makes `range` raise; a negative
   * one sends nothing; otherwise the batches go out in order until one
   * raises, and the exception is re-raised.
   */
  method UpsertMarketPrices<T>(records: seq<T>, batchSize: int, accepts: nat -> bool)
    returns (r: Try<nat>, sent: seq<seq<T>>)
    ensures |records| == 0 ==> r == Ok(0) && sent == []
    ensures |records| > 0 && batchSize == 0 ==> r == Raised && sent == []
    ensures |records| > 0 && batchSize < 0 ==> r == Ok(0) && sent == []
    ensures |records| > 0 && batchSize > 0 ==>
      && sent == SentUntilRefused(Chunks(records, batchSize), accepts)
      && (r == Ok(|records|) <==> forall k :: 0 <= k < |sent| ==> accepts(k))
      && (r != Ok(|records|) ==> r == Raised)
  {
    sent := [];
    if |records| == 0 {
      return Ok(0), sent;
    }
    if batchSize == 0 {
      return Raised, sent;
    }
    if batchSize < 0 {
      return Ok(0), sent;
    }
    var bs := batchSize as nat;
    ghost var cs := Chunks(records, bs);
    var total := 0;
    var i := 0;
    var k := 0;
    while i < |records|
      invariant k <= |cs| && i == k * bs
      invariant k == |cs| ==> i >= |records|
      invariant sent == cs[..k] && total == |Flatten(sent)|
      invariant forall j :: 0 <= j < k ==> accepts(j)
    {
      var batch := Slice(records, i, i + bs);
      BatchNext(records, bs, k);
      MulStep(k, bs);
      sent := sent + [batch];
      if !accepts(k) {
        SentUntilRefusedAt(cs, accepts, k);
        return Raised, sent;
      }
      total := total + |batch|;
      i := i + bs;
      k := k + 1;
    }
    BatchesDone(records, bs, k);
    return Ok(total), sent;
  }
}
