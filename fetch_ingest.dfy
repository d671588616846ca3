/**
 * What fetch_real_marketdata.py does around its parsers: the commodity
 * dropdown and the alias table read into dictionaries, the global code a
 * source code maps to, the normalisation of a parsed row into a price
 * record, and the batched upsert of the records.
 */
module FetchIngest {
  import opened Wrappers
  import opened PyText
  import opened Folds
  import opened Batches
  import opened Tables
  import opened FetchParsing
  import opened FetchTables

  // ---------------------------------------------------------------------
  // load_commodities_from_local / load_commodities_from_remote
  // ---------------------------------------------------------------------

  /** The placeholder codes of a dropdown, compared in lower case. */
  predicate IsPlaceholder(code: string) {
    var low := Lower(code);
    low == "select" || low == "0" || low == ""
  }

  /** An option whose code becomes a dictionary key. */
  predicate KeepsOption(opt: HtmlOption) {
    var code := OptionCode(opt);
    code != "" && !IsPlaceholder(code)
  }

  function OptionText(opt: HtmlOption): string {
    opt.text
  }

  /** The assignments `mapping[code] = name` the option loop performs, in document order. */
  function OptionPairs(opts: seq<HtmlOption>): seq<(string, string)> {
    KeptPairs(opts, KeepsOption, OptionCode, OptionText)
  }

  /** The option loop shared by both loaders: the code-to-name dictionary. */
  method LoadCommodityOptions(opts: seq<HtmlOption>) returns (mapping: map<string, string>)
    ensures mapping == FoldPairs(OptionPairs(opts))
  {
    mapping := map[];
    var i := 0;
    while i < |opts|
      invariant 0 <= i <= |opts|
      invariant mapping == FoldPairs(OptionPairs(opts[..i]))
    {
      var opt := opts[i];
      KeptFoldNext(opts, i, KeepsOption, OptionCode, OptionText);
      var code := OptionCode(opt);
      if code != "" && !IsPlaceholder(code) {
        mapping := mapping[code := opt.text];
      }
      i := i + 1;
    }
    assert opts[..i] == opts;
  }

  /**
   * The dropdown dictionary holds exactly the codes of the options that are
   * neither empty nor a placeholder (`select`, `0` in any case).
   */
  lemma CommodityOptionKeys(opts: seq<HtmlOption>, code: string)
    ensures code in FoldPairs(OptionPairs(opts))
        <==> exists i :: 0 <= i < |opts| && KeepsOption(opts[i]) && OptionCode(opts[i]) == code
  {
    KeptKeys(opts, KeepsOption, OptionCode, OptionText, code);
  }

  /** A key of the dropdown dictionary is never empty or a placeholder, and carries no surrounding whitespace. */
  lemma CommodityOptionKeysAreCodes(opts: seq<HtmlOption>, code: string)
    requires code in FoldPairs(OptionPairs(opts))
    ensures code != "" && !IsPlaceholder(code)
    ensures !IsSpace(code[0]) && !IsSpace(code[|code| - 1])
  {
    CommodityOptionKeys(opts, code);
    var i :| 0 <= i < |opts| && KeepsOption(opts[i]) && OptionCode(opts[i]) == code;
    var raw := if opts[i].value.Some? then opts[i].value.value else "";
    var left := StripLeft(raw);
    assert code == StripRight(left);
    assert code == left[..|code|];
  }

  /** The name stored for a code is the text of the last kept option with that code. */
  lemma CommodityOptionLastWins(opts: seq<HtmlOption>, i: nat)
    requires i < |opts| && KeepsOption(opts[i])
    requires forall j :: i < j < |opts| && KeepsOption(opts[j]) ==> OptionCode(opts[j]) != OptionCode(opts[i])
    ensures OptionCode(opts[i]) in FoldPairs(OptionPairs(opts))
    ensures FoldPairs(OptionPairs(opts))[OptionCode(opts[i])] == opts[i].text
  {
    KeptLastWins(opts, KeepsOption, OptionCode, OptionText, i);
  }

  // ---------------------------------------------------------------------
  // process_source: source alias, alias map, global code
  // ---------------------------------------------------------------------

  /** Python truthiness of an optional string: present and non-empty. */
  predicate Truthy(s: Option<string>) {
    s.Some? && s.value != ""
  }

  /** `(organization or "").strip().lower() or "msamb"`. */
  function SourceAlias(organization: Option<string>): (alias: string)
    ensures alias != ""
    ensures forall i :: 0 <= i < |alias| ==> LowerChar(alias[i]) == alias[i]
    ensures !Truthy(organization) ==> alias == "msamb"
  {
    var low := Lower(Strip(if Truthy(organization) then organization.value else ""));
    if low == "" then "msamb" else low
  }

  /** An organisation name made only of lower-case letters is its own alias. */
  lemma SourceAliasOfLowerName(name: string)
    requires name != "" && forall i :: 0 <= i < |name| ==> 'a' <= name[i] <= 'z'
    ensures SourceAlias(Some(name)) == name
  {
    assert NoSpace(name) by {
      forall i | 0 <= i < |name| ensures !IsSpace(name[i]) {}
    }
    StripNoSpace(name);
    var low := Lower(name);
    assert low == name;
  }

  /** The alias entry of a `commodity_master` row for one source: one code, or a list of codes. */
  datatype AliasEntry = OneCode(code: string) | CodeList(codes: seq<string>)

  /**
   * A `commodity_master` row: its `global_code` (`None` for SQL `NULL`) and
   * its `aliases` object, `None` when that is empty, `NULL` or not an object.
   */
  datatype MasterRow = MasterRow(globalCode: Option<string>, aliases: Option<map<string, AliasEntry>>)

  /** The codes a row assigns for `alias`, in order. */
  function RowAliasCodes(alias: string, row: MasterRow): seq<string> {
    if row.aliases.Some? && alias in row.aliases.value then
      match row.aliases.value[alias]
      case OneCode(c) => [c]
      case CodeList(cs) => cs
    else []
  }

  function RowGlobalCode(row: MasterRow): Option<string> {
    row.globalCode
  }

  /** The assignments `mapping[str(code)] = r["global_code"]` over all rows, in order. */
  function AliasPairs(rows: seq<MasterRow>, alias: string): seq<(string, Option<string>)> {
    GroupPairs(alias, rows, RowAliasCodes, RowGlobalCode)
  }

  /** `load_commodity_alias_map(source_alias)` over the rows of `commodity_master`. */
  method LoadAliasMap(rows: seq<MasterRow>, alias: string) returns (mapping: map<string, Option<string>>)
    ensures mapping == FoldPairs(AliasPairs(rows, alias))
  {
    mapping := map[];
    var i := 0;
    while i < |rows|
      invariant 0 <= i <= |rows|
      invariant mapping == FoldPairs(AliasPairs(rows[..i], alias))
    {
      GroupPairsNext(alias, rows, RowAliasCodes, RowGlobalCode, i);
      mapping := FileAliasRow(mapping, AliasPairs(rows[..i], alias), alias, rows[i]);
      i := i + 1;
    }
    assert rows[..i] == rows;
  }

  /** One row of `load_commodity_alias_map`: each code the row lists for the source is mapped to its global code. */
  method FileAliasRow(mapping: map<string, Option<string>>, ghost done: seq<(string, Option<string>)>, alias: string, r: MasterRow)
    returns (m: map<string, Option<string>>)
    requires mapping == FoldPairs(done)
    ensures m == FoldPairs(done + PairsWith(RowAliasCodes(alias, r), r.globalCode))
  {
    m := mapping;
    var codes := RowAliasCodes(alias, r);
    var j := 0;
    assert done + PairsWith(codes[..0], r.globalCode) == done;
    while j < |codes|
      invariant 0 <= j <= |codes|
      invariant m == FoldPairs(done + PairsWith(codes[..j], r.globalCode))
    {
      PairsWithNext(done, codes, r.globalCode, j);
      m := m[codes[j] := r.globalCode];
      j := j + 1;
    }
    assert codes[..j] == codes;
  }

  /** The alias map's codes are exactly the codes some row lists for the source. */
  lemma AliasMapKeys(rows: seq<MasterRow>, alias: string, code: string)
    ensures code in FoldPairs(AliasPairs(rows, alias))
        <==> exists i :: 0 <= i < |rows| && code in RowAliasCodes(alias, rows[i])
  {
    GroupKeys(alias, rows, RowAliasCodes, RowGlobalCode, code);
  }

  /** Rows without an entry for the source add nothing to its alias map. */
  lemma AliasMapIgnoresOtherSources(rows: seq<MasterRow>, alias: string)
    requires forall i :: 0 <= i < |rows| ==> rows[i].aliases.None? || alias !in rows[i].aliases.value
    ensures FoldPairs(AliasPairs(rows, alias)) == map[]
  {
    forall code | code in FoldPairs(AliasPairs(rows, alias)) ensures false {
      AliasMapKeys(rows, alias, code);
    }
  }

  /** A row listing a code, with no later row listing it, maps that code to its global code. */
  lemma AliasLastRowWins(rows: seq<MasterRow>, alias: string, i: nat, code: string)
    requires i < |rows| && code in RowAliasCodes(alias, rows[i])
    requires forall j :: i < j < |rows| ==> code !in RowAliasCodes(alias, rows[j])
    ensures code in FoldPairs(AliasPairs(rows, alias))
    ensures FoldPairs(AliasPairs(rows, alias))[code] == rows[i].globalCode
  {
    GroupLastWins(alias, rows, RowAliasCodes, RowGlobalCode, i, code);
  }

  /**
   * `alias_map.get(code) or f"{(organization or 'SRC').upper()}_{code}"`:
   * the mapped global code when it is present and non-empty, otherwise a code
   * made from the organisation.
   */
  function GlobalCode(aliasMap: map<string, Option<string>>, organization: Option<string>, code: string): (g: string)
    ensures code in aliasMap && Truthy(aliasMap[code]) ==> g == aliasMap[code].value
    ensures !(code in aliasMap && Truthy(aliasMap[code])) ==>
      var prefix := Upper(if Truthy(organization) then organization.value else "SRC");
      g == prefix + "_" + code && g[..|prefix|] == prefix && g[|prefix| + 1..] == code
    ensures g != ""
  {
    if code in aliasMap && Truthy(aliasMap[code]) then aliasMap[code].value
    else Upper(if Truthy(organization) then organization.value else "SRC") + "_" + code
  }

  /** Without an organisation and an alias, the global code is `SRC_<code>`. */
  lemma GlobalCodeFallback(code: string)
    ensures GlobalCode(map[], None, code) == "SRC_" + code
  {
    assert Upper("SRC") == "SRC";
  }

  // ---------------------------------------------------------------------
  // process_source: normalisation of parsed rows
  // ---------------------------------------------------------------------

  /** The `agri_market_sources` fields a payload copies. */
  datatype Source = Source(id: string, countryId: Option<string>, stateId: Option<string>, organization: Option<string>)

  /** The four cleaned numbers of a row. */
  datatype Prices = Prices(arrival: Option<real>, minPrice: Option<real>, maxPrice: Option<real>, modalPrice: Option<real>)

  /** A `market_prices` record (the constant and clock-derived columns are not modelled). */
  datatype Payload = Payload(
    sourceId: string,
    countryId: Option<string>,
    stateId: Option<string>,
    commodityCode: string,
    globalCode: string,
    cropName: Option<string>,
    variety: Option<string>,
    unit: string,
    prices: Prices,
    spread: Option<real>,
    pricePerUnit: real,
    marketLocation: string,
    priceDate: string,
    source: Option<string>,
    raw: RawRow,
    displayName: string)

  /** An absent price, or one that is at least 0. */
  predicate NotNegative(v: Option<real>) {
    v.Some? ==> v.value >= 0.0
  }

  /** `clean_number` applied to the four raw cells. */
  function CleanPrices(pr: RawRow): (p: Prices)
    ensures NotNegative(p.arrival) && NotNegative(p.minPrice) && NotNegative(p.maxPrice) && NotNegative(p.modalPrice)
  {
    Prices(CleanNumber(Some(pr.arrivalRaw)), CleanNumber(Some(pr.minRaw)),
           CleanNumber(Some(pr.maxRaw)), CleanNumber(Some(pr.modalRaw)))
  }

  /**
   * The price per unit: the modal price, else the midpoint of minimum and
   * maximum, else whichever of the two is present.
   */
  function PricePerUnit(p: Prices): (u: Option<real>)
    ensures u.None? <==> p.modalPrice.None? && p.minPrice.None? && p.maxPrice.None?
    ensures p.modalPrice.Some? ==> u == p.modalPrice
    ensures p.modalPrice.None? && p.minPrice.Some? && p.maxPrice.Some? ==>
      u == Some((p.minPrice.value + p.maxPrice.value) / 2.0)
    ensures p.modalPrice.None? && p.minPrice.Some? && p.maxPrice.None? ==> u == p.minPrice
    ensures p.modalPrice.None? && p.minPrice.None? ==> u == p.maxPrice
  {
    if p.modalPrice.Some? then p.modalPrice
    else if p.minPrice.Some? && p.maxPrice.Some? then Some((p.minPrice.value + p.maxPrice.value) / 2.0)
    else if p.minPrice.Some? then p.minPrice
    else p.maxPrice
  }

  /** Without a modal price, the price per unit lies between the minimum and the maximum. */
  lemma PricePerUnitBetween(p: Prices)
    requires p.modalPrice.None? && p.minPrice.Some? && p.maxPrice.Some?
    ensures var u := PricePerUnit(p).value;
      var lo := p.minPrice.value; var hi := p.maxPrice.value;
      (lo <= hi ==> lo <= u <= hi) && (hi <= lo ==> hi <= u <= lo)
  {
  }

  /** The price per unit is one of the present prices, or the midpoint of minimum and maximum. */
  lemma PricePerUnitFromPrices(p: Prices)
    requires PricePerUnit(p).Some?
    ensures var u := PricePerUnit(p).value;
      Some(u) in [p.modalPrice, p.minPrice, p.maxPrice]
      || (p.minPrice.Some? && p.maxPrice.Some? && u == (p.minPrice.value + p.maxPrice.value) / 2.0)
  {
  }

  /** `max_p - min_p` when both are present; nothing bounds it below. */
  function Spread(p: Prices): (s: Option<real>)
    ensures s.Some? <==> p.minPrice.Some? && p.maxPrice.Some?
    ensures s.Some? ==> p.minPrice.value + s.value == p.maxPrice.value
  {
    if p.minPrice.Some? && p.maxPrice.Some? then Some(p.maxPrice.value - p.minPrice.value) else None
  }

  /** A row whose minimum exceeds its maximum gets a negative spread: the spread is not clamped. */
  lemma SpreadNotClamped(p: Prices)
    requires p.minPrice.Some? && p.maxPrice.Some? && p.minPrice.value > p.maxPrice.value
    ensures Spread(p).Some? && Spread(p).value < 0.0
  {
  }

  /** `value or None` for a text cell. */
  function NonEmpty(s: string): (r: Option<string>)
    ensures r.None? <==> s == ""
    ensures r.Some? ==> r.value == s
  {
    if s == "" then None else Some(s)
  }

  /**
   * The payload for one parsed row of commodity `code`, or `None` when the row
   * is skipped: no date, no market, or no positive price per unit.
   */
  function NormalizeRow(src: Source, aliasMap: map<string, Option<string>>, code: string, displayName: string, pr: RawRow)
    : (r: Option<Payload>)
    ensures r.Some? <==>
      pr.date != "" && pr.market != "" && PricePerUnit(CleanPrices(pr)).Some? && PricePerUnit(CleanPrices(pr)).value > 0.0
    ensures r.Some? ==>
      var p := r.value;
      && p.pricePerUnit > 0.0
      && Some(p.pricePerUnit) == PricePerUnit(p.prices)
      && p.prices == CleanPrices(pr)
      && p.spread == Spread(p.prices)
      && p.priceDate == pr.date && p.marketLocation == pr.market
      && p.commodityCode == code && p.globalCode == GlobalCode(aliasMap, src.organization, code)
      && p.cropName == pr.commodity
      && p.unit != "" && (pr.unit != "" ==> p.unit == pr.unit) && (pr.unit == "" ==> p.unit == "quintal")
      && p.variety == NonEmpty(pr.variety)
      && (p.source.Some? <==> Truthy(src.organization))
      && (p.source.Some? ==> p.source == src.organization)
      && p.sourceId == src.id && p.countryId == src.countryId && p.stateId == src.stateId
      && p.raw == pr && p.displayName == displayName
  {
    if pr.date == "" || pr.market == "" then None
    else
      var prices := CleanPrices(pr);
      var unitPrice := PricePerUnit(prices);
      if unitPrice.None? || unitPrice.value <= 0.0 then None
      else
        Some(Payload(
          src.id, src.countryId, src.stateId, code,
          GlobalCode(aliasMap, src.organization, code),
          pr.commodity, NonEmpty(pr.variety),
          if pr.unit == "" then "quintal" else pr.unit,
          prices, Spread(prices), unitPrice.value, pr.market, pr.date,
          if Truthy(src.organization) then src.organization else None,
          pr, displayName))
  }

  /** A row with a date, a market and a positive whole modal price keeps that price as its price per unit. */
  lemma NormalizeRowModalPrice(src: Source, aliasMap: map<string, Option<string>>, code: string, displayName: string,
                               pr: RawRow, n: nat)
    requires pr.date != "" && pr.market != "" && n > 0 && pr.modalRaw == NatToDigits(n)
    ensures NormalizeRow(src, aliasMap, code, displayName, pr).Some?
    ensures NormalizeRow(src, aliasMap, code, displayName, pr).value.pricePerUnit == n as real
  {
    CleanNumberNatural(n);
    var prices := CleanPrices(pr);
    assert prices.modalPrice == Some(n as real);
    assert PricePerUnit(prices) == Some(n as real);
  }

  /** A row whose three price cells are dashes is skipped. */
  lemma NormalizeRowNoPrices(src: Source, aliasMap: map<string, Option<string>>, code: string, displayName: string, pr: RawRow)
    requires pr.minRaw == "-" && pr.maxRaw == "-" && pr.modalRaw == "-"
    ensures NormalizeRow(src, aliasMap, code, displayName, pr) == None
  {
    DashIsNoNumber(pr.minRaw);
    DashIsNoNumber(pr.maxRaw);
    DashIsNoNumber(pr.modalRaw);
  }

  lemma DashIsNoNumber(t: string)
    requires t == "-"
    ensures CleanNumber(Some(t)) == None
  {
    assert NoSpace(t);
    StripNoSpace(t);
    var sentinels := ["--", "-", "\U{2014}", "NA", "N/A", "n/a", ""];
    assert sentinels[1] == t;
  }

  /** The payloads of the rows that survive normalisation, in row order. */
  function Normalized(src: Source, aliasMap: map<string, Option<string>>, code: string, displayName: string, rows: seq<RawRow>)
    : (out: seq<Payload>)
    ensures |out| <= |rows|
    ensures forall k :: 0 <= k < |out| ==> out[k].pricePerUnit > 0.0 && out[k].commodityCode == code
  {
    if rows == [] then []
    else
      Normalized(src, aliasMap, code, displayName, rows[..|rows| - 1])
        + RowPayloads(src, aliasMap, code, displayName, rows[|rows| - 1])
  }

  /** The payload of one row as a list: empty when the row is skipped. */
  function RowPayloads(src: Source, aliasMap: map<string, Option<string>>, code: string, displayName: string, pr: RawRow)
    : (out: seq<Payload>)
    ensures |out| <= 1
    ensures forall k :: 0 <= k < |out| ==> out[k].pricePerUnit > 0.0 && out[k].commodityCode == code && out[k].raw == pr
  {
    var r := NormalizeRow(src, aliasMap, code, displayName, pr);
    if r.Some? then [r.value] else []
  }

  /** The normalisation loop over the parsed rows of one commodity. */
  method NormalizeRows(src: Source, aliasMap: map<string, Option<string>>, code: string, displayName: string, rows: seq<RawRow>)
    returns (payloads: seq<Payload>)
    ensures payloads == Normalized(src, aliasMap, code, displayName, rows)
  {
    payloads := [];
    var i := 0;
    while i < |rows|
      invariant 0 <= i <= |rows|
      invariant payloads == Normalized(src, aliasMap, code, displayName, rows[..i])
    {
      NormalizedNext(src, aliasMap, code, displayName, rows, i);
      var payload := NormalizeRow(src, aliasMap, code, displayName, rows[i]);
      if payload.Some? {
        payloads := payloads + [payload.value];
      }
      i := i + 1;
    }
    assert rows[..i] == rows;
  }

  lemma NormalizedNext(src: Source, aliasMap: map<string, Option<string>>, code: string, displayName: string,
                       rows: seq<RawRow>, i: nat)
    requires i < |rows|
    ensures var r := NormalizeRow(src, aliasMap, code, displayName, rows[i]);
      Normalized(src, aliasMap, code, displayName, rows[..i + 1])
        == Normalized(src, aliasMap, code, displayName, rows[..i]) + (if r.Some? then [r.value] else [])
  {
    assert rows[..i + 1][..i] == rows[..i];
  }

  /** Every payload comes from a row with the same date and market. */
  lemma {:induction false} NormalizedFromRows(src: Source, aliasMap: map<string, Option<string>>, code: string,
                                              displayName: string, rows: seq<RawRow>, k: nat)
    requires k < |Normalized(src, aliasMap, code, displayName, rows)|
    ensures var p := Normalized(src, aliasMap, code, displayName, rows)[k];
      exists i :: 0 <= i < |rows| && p.raw == rows[i] && p.priceDate == rows[i].date && p.marketLocation == rows[i].market
  {
    var n := |rows| - 1;
    var before := Normalized(src, aliasMap, code, displayName, rows[..n]);
    var out := Normalized(src, aliasMap, code, displayName, rows);
    if k < |before| {
      assert out[k] == before[k];
      NormalizedFromRows(src, aliasMap, code, displayName, rows[..n], k);
      var i :| 0 <= i < n && before[k].raw == rows[..n][i] && before[k].priceDate == rows[..n][i].date
        && before[k].marketLocation == rows[..n][i].market;
      assert rows[..n][i] == rows[i];
    } else {
      assert out[k] == NormalizeRow(src, aliasMap, code, displayName, rows[n]).value;
    }
  }

  // ---------------------------------------------------------------------
  // process_source: one commodity
  // ---------------------------------------------------------------------

  /** `if not r.get("commodity"): r["commodity"] = display_name`. */
  function WithCommodity(r: RawRow, displayName: string): (f: RawRow)
    ensures Truthy(r.commodity) ==> f == r
    ensures f == r.(commodity := f.commodity)
    ensures displayName != "" ==> Truthy(f.commodity)
  {
    if Truthy(r.commodity) then r else r.(commodity := Some(displayName))
  }

  /** The loop that fills in the commodity of the mapped parser's rows. */
  method FillCommodity(rows: seq<RawRow>, displayName: string) returns (filled: seq<RawRow>)
    ensures |filled| == |rows|
    ensures forall k :: 0 <= k < |rows| ==> filled[k] == WithCommodity(rows[k], displayName)
  {
    filled := rows;
    var i := 0;
    while i < |rows|
      invariant 0 <= i <= |rows| && |filled| == |rows|
      invariant forall k :: 0 <= k < i ==> filled[k] == WithCommodity(rows[k], displayName)
      invariant forall k :: i <= k < |rows| ==> filled[k] == rows[k]
    {
      var r := filled[i];
      if !(r.commodity.Some? && r.commodity.value != "") {
        filled := filled[i := r.(commodity := Some(displayName))];
      }
      i := i + 1;
    }
  }

  function Filled(rows: seq<RawRow>, displayName: string): (filled: seq<RawRow>)
    ensures |filled| == |rows| && forall k :: 0 <= k < |rows| ==> filled[k] == WithCommodity(rows[k], displayName)
  {
    seq(|rows|, k requires 0 <= k < |rows| => WithCommodity(rows[k], displayName))
  }

  /** A fetched price page: the text of the element the date selector picks, and the table rows. */
  datatype Page = Page(dateText: Option<string>, rows: seq<Row>)

  /**
   * The parsed rows of one commodity page: the mapped parser (commodity
   * filled with the display name) when the source has a non-empty column
   * mapping, the MSAMB parser otherwise.
   */
  function ParsedRows(mapping: map<string, int>, displayName: string, page: Page): seq<RawRow> {
    if |mapping| > 0 then
      Filled(Scan(GenericStep, mapping, GenericInitialDate(page.dateText), page.rows).out, displayName)
    else Scan(MsambStep, displayName, None, page.rows).out
  }

  /**
   * The payloads of every commodity of the dropdown, in dictionary order;
   * `fetch(code)` is the page for a commodity, `None` when the request failed
   * or came back empty.
   */
  function SourcePayloads(src: Source, aliasMap: map<string, Option<string>>, mapping: map<string, int>,
                          commodities: seq<(string, string)>, fetch: string -> Option<Page>): seq<Payload>
  {
    if commodities == [] then []
    else
      var (code, name) := commodities[|commodities| - 1];
      SourcePayloads(src, aliasMap, mapping, commodities[..|commodities| - 1], fetch)
        + (if code == "" || fetch(code).None? then []
           else Normalized(src, aliasMap, code, name, ParsedRows(mapping, name, fetch(code).value)))
  }

  /** The commodity loop of `process_source`, after the commodity and alias dictionaries are loaded. */
  method CollectPayloads(src: Source, aliasMap: map<string, Option<string>>, mapping: map<string, int>,
                         commodities: seq<(string, string)>, fetch: string -> Option<Page>)
    returns (payloads: seq<Payload>)
    ensures payloads == SourcePayloads(src, aliasMap, mapping, commodities, fetch)
  {
    payloads := [];
    var i := 0;
    while i < |commodities|
      invariant 0 <= i <= |commodities|
      invariant payloads == SourcePayloads(src, aliasMap, mapping, commodities[..i], fetch)
    {
      SourcePayloadsNext(src, aliasMap, mapping, commodities, fetch, i);
      var (code, name) := commodities[i];
      var more := CommodityPayloads(src, aliasMap, mapping, code, name, fetch);
      payloads := payloads + more;
      i := i + 1;
    }
    assert commodities[..i] == commodities;
  }

  lemma SourcePayloadsNext(src: Source, aliasMap: map<string, Option<string>>, mapping: map<string, int>,
                           commodities: seq<(string, string)>, fetch: string -> Option<Page>, i: nat)
    requires i < |commodities|
    ensures var (code, name) := commodities[i];
      SourcePayloads(src, aliasMap, mapping, commodities[..i + 1], fetch)
        == SourcePayloads(src, aliasMap, mapping, commodities[..i], fetch)
          + (if code == "" || fetch(code).None? then []
             else Normalized(src, aliasMap, code, name, ParsedRows(mapping, name, fetch(code).value)))
  {
    assert commodities[..i + 1][..i] == commodities[..i];
  }

  /** The payloads of one commodity: none when its code is empty or its page did not arrive. */
  method CommodityPayloads(src: Source, aliasMap: map<string, Option<string>>, mapping: map<string, int>,
                           code: string, name: string, fetch: string -> Option<Page>)
    returns (more: seq<Payload>)
    ensures more == if code == "" || fetch(code).None? then []
                    else Normalized(src, aliasMap, code, name, ParsedRows(mapping, name, fetch(code).value))
  {
    more := [];
    if code != "" {
      var page := fetch(code);
      if page.Some? {
        var parsed: seq<RawRow>;
        if |mapping| > 0 {
          var rows := ParseGenericTable(mapping, page.value.dateText, page.value.rows);
          parsed := FillCommodity(rows, name);
          assert parsed == Filled(rows, name);
        } else {
          parsed := ParseMsambTable(name, page.value.rows);
        }
        more := NormalizeRows(src, aliasMap, code, name, parsed);
      }
    }
  }

  /** Every payload of a source carries a positive price and the non-empty code of one of its commodities. */
  lemma {:induction false} SourcePayloadsFacts(src: Source, aliasMap: map<string, Option<string>>, mapping: map<string, int>,
                                               commodities: seq<(string, string)>, fetch: string -> Option<Page>, k: nat)
    requires k < |SourcePayloads(src, aliasMap, mapping, commodities, fetch)|
    ensures var p := SourcePayloads(src, aliasMap, mapping, commodities, fetch)[k];
      p.pricePerUnit > 0.0 && p.commodityCode != ""
      && exists i :: 0 <= i < |commodities| && commodities[i].0 == p.commodityCode
  {
    var n := |commodities| - 1;
    var init := commodities[..n];
    var before := SourcePayloads(src, aliasMap, mapping, init, fetch);
    var all := SourcePayloads(src, aliasMap, mapping, commodities, fetch);
    if k < |before| {
      assert all[k] == before[k];
      SourcePayloadsFacts(src, aliasMap, mapping, init, fetch, k);
      var i :| 0 <= i < |init| && init[i].0 == before[k].commodityCode;
      assert commodities[i] == init[i];
    } else {
      var (code, name) := commodities[n];
      assert all[k].commodityCode == code;
    }
  }

  // ---------------------------------------------------------------------
  // upsert_batch
  // ---------------------------------------------------------------------

  /**
   * `upsert_batch(payloads, batch_size)`, the store answering batch `i` with
   * `store(i)`.  An empty list credits nothing; a zero batch size raises
   * `ZeroDivisionError`; a negative one makes `math.ceil` non-positive, so no
   * batch is sent.  Otherwise every batch is sent, a failing one credits
   * nothing and the loop goes on.
   */
  method UpsertBatch<T>(payloads: seq<T>, batchSize: int, store: nat -> StoreReply) returns (r: Try<nat>)
    ensures |payloads| == 0 ==> r == Ok(0)
    ensures |payloads| > 0 && batchSize == 0 ==> r == Raised
    ensures |payloads| > 0 && batchSize < 0 ==> r == Ok(0)
    ensures |payloads| > 0 && batchSize > 0 ==> r == Ok(Credits(Chunks(payloads, batchSize), store))
  {
    if |payloads| == 0 {
      return Ok(0);
    }
    if batchSize == 0 {
      return Raised;
    }
    var chunks := if batchSize > 0 then CeilDiv(|payloads|, batchSize) else 0;
    var total := 0;
    if batchSize > 0 {
      ChunksCount(payloads, batchSize);
    }
    var i := 0;
    while i < chunks
      invariant 0 <= i <= chunks
      invariant batchSize > 0 ==> chunks == |Chunks(payloads, batchSize)|
      invariant batchSize > 0 ==> total == Credits(Chunks(payloads, batchSize)[..i], store)
      invariant batchSize < 0 ==> total == 0
    {
      var bs := batchSize as nat;
      var start := i * bs;
      var chunk := Slice(payloads, start, start + bs);
      CreditsNext(payloads, bs, store, i);
      total := total + Credit(store(i), |chunk|);
      i := i + 1;
    }
    if batchSize > 0 {
      assert Chunks(payloads, batchSize)[..i] == Chunks(payloads, batchSize);
    }
    return Ok(total);
  }

  /** One more batch: batch `i` is the slice at `i * bs`, and its credit is added. */
  lemma CreditsNext<T>(payloads: seq<T>, bs: nat, store: nat -> StoreReply, i: nat)
    requires bs > 0 && i < |Chunks(payloads, bs)|
    ensures Credits(Chunks(payloads, bs)[..i + 1], store)
      == Credits(Chunks(payloads, bs)[..i], store) + Credit(store(i), |Slice(payloads, i * bs, i * bs + bs)|)
  {
    var cs := Chunks(payloads, bs);
    var prefix := cs[..i + 1];
    assert prefix[..i] == cs[..i];
    assert prefix[i] == cs[i];
    assert Credits(prefix, store) == Credits(prefix[..i], store) + Credit(store(i), |prefix[i]|);
    ChunkAt(payloads, bs, i);
    StartIsProduct(i, bs);
  }

  /** When every batch is stored and its reply reports nothing or the whole batch, every record is counted. */
  lemma UpsertCountsEveryRecord<T>(payloads: seq<T>, batchSize: nat, store: nat -> StoreReply)
    requires batchSize > 0
    requires forall i :: 0 <= i < |Chunks(payloads, batchSize)| ==>
      store(i) == Stored(0) || store(i) == Stored(|Chunks(payloads, batchSize)[i]|)
    ensures Credits(Chunks(payloads, batchSize), store) == |payloads|
  {
    CreditsAllAccepted(Chunks(payloads, batchSize), store);
    ChunksFlatten(payloads, batchSize);
  }

  /** When no reply reports more rows than its batch held, the count never exceeds the number of records. */
  lemma UpsertCountBounded<T>(payloads: seq<T>, batchSize: nat, store: nat -> StoreReply)
    requires batchSize > 0
    requires forall i :: 0 <= i < |Chunks(payloads, batchSize)| ==>
      store(i).Stored? ==> store(i).returned <= |Chunks(payloads, batchSize)[i]|
    ensures Credits(Chunks(payloads, batchSize), store) <= |payloads|
  {
    CreditsBounded(Chunks(payloads, batchSize), store);
    ChunksFlatten(payloads, batchSize);
  }
}
