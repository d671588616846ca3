# Market-price ingestion core, modelled in Dafny

This project models the parse → normalise → batch pipeline that
agricultural market boards' price pages go through. The boards are MSAMB
and the other APMC boards. The pipeline turns their HTML tables into
`market_prices` records and writes those records to the store in batches.
Three Python scripts each carry their own copy of the pipeline, and the
copies differ from one another. Each copy is modelled separately, so that
the differences between them show up as different, proved contracts:

- `fetch_real_marketdata.py`
  - `clean_number`;
  - the three-stage `parse_date_string`;
  - the MSAMB table parser and the column-mapped table parser;
  - the dropdown filters;
  - the alias-map fold;
  - the per-row normalisation and commodity loop of `process_source`;
  - `upsert_batch`, which skips a failing batch and goes on.
- `msamb_scraper.py`
  - `clean_numeric`;
  - `parse_date` with a fallback to today;
  - the commodity-master index and `normalize_commodity`;
  - the five-digit dropdown filter;
  - request-parameter substitution;
  - `parse_html_table`;
  - `upsert_market_prices`, which aborts on the first failure and re-raises.
- `apmc_scraper.py`
  - `build_url`;
  - `_num`, which lets `float()` raise;
  - `parse_date`;
  - `_parse`;
  - `normalize_record` and `_spread`;
  - `ScraperFactory.create`;
  - `_upsert`;
  - the statistics of `run`;
  - the exit decision of `run_all`.

Python's own behaviour is modelled once, in small library modules:

| module | file | what it models |
|---|---|---|
| `Wrappers` | wrappers.dfy | `Option`, and `Try` (an exception as a value) |
| `PyText` | text.dfy | `strip`, ASCII `lower`/`upper`, filtering with `re.sub`, and digits |
| `PyFloat` | decimal.dfy | `float()` on a decimal grammar, with the value as a real |
| `PyDate` | dates.dfy | `datetime.date`, `isoformat` and `strptime("%d/%m/%Y")` |
| `PyRegex` | regex.dfy | the date patterns of the core, as a leftmost-match `re.search` |
| `Batches` | batches.dfy | slicing into consecutive batches, and the store's replies |
| `Folds` | folds.dfy | a dictionary filled in a loop, where the last write wins |
| `Tables` | table_scan.dfy | rows already split into cells, and the row-by-row walk |

The pipeline modules are:

- `FetchParsing` (fetch_parsing.dfy), `FetchTables` (fetch_tables.dfy) and
  `FetchIngest` (fetch_ingest.dfy), for the first script;
- `MsambScraper` (msamb_scraper.dfy);
- `ApmcScraper` (apmc_scraper.dfy).

Code that works by mutation is modelled as methods with loops, each proved
against a specification function. That covers:

- the table parsers, with `current_date` and the output list;
- the dictionary loaders;
- the normalisation and commodity loops;
- the upserts, with batch offsets and totals;
- `run` and `run_all`.

Pure helpers are modelled as functions. Both scraper classes set their
fields only in their constructors, so the classes are modelled as values
(`Context`, `Scraper`) that are passed to these functions and methods.

Everything outside the pipeline becomes a parameter:

- the HTTP responses become a page or an error for each commodity;
- the store becomes a reply, or a yes/no, for each batch;
- `urljoin` becomes an uninterpreted function;
- `date.today()` becomes a `today` date.

Points where the code behaves in ways a reader might not expect, all of
which the model follows:

- The spread is `max - min` and is never clamped (`SpreadNotClamped`).
- No copy deduplicates records, and none keeps per-commodity resume
  watermarks, so neither is modelled.
- The copies disagree on what a date row is, and on what a date row whose
  text does not parse does:
  - `fetch_real_marketdata.py` keeps the previous date;
  - `msamb_scraper.py` and `apmc_scraper.py` replace it with today.
- In `msamb_scraper.py` and `apmc_scraper.py` a record may have no price per
  unit.
- In `msamb_scraper.py` the index is keyed by `name.lower()` without
  stripping, while the lookup strips its key.
- In `apmc_scraper.py` the `quintal` default of `normalize_record` never
  applies to the records `_parse` makes, because they always carry a
  `unit` key.

## Model

| member | source | states |
|---|---|---|
| PyText.Filter | msamb_scraper.py:375 | The result keeps only characters that satisfy the predicate, and it is never longer than the input. |
| PyText.FilterKeepsAll | apmc_scraper.py:267 | A text made only of kept characters comes through the filter unchanged. |
| PyText.FilterSnoc | msamb_scraper.py:375 | One more character is appended to the result exactly when it is kept. With `FilterAppend` this pins the result to the kept characters, in order. |
| PyText.StripLeft | msamb_scraper.py:382 | Only leading whitespace is removed, and the result starts with no whitespace. |
| PyText.StripRight | msamb_scraper.py:382 | Only trailing whitespace is removed, and the result ends with no whitespace. |
| PyText.Lower | msamb_scraper.py:89 | Every character is mapped to ASCII lower case, and the length is kept. |
| PyText.NatToDigitsRoundTrip | msamb_scraper.py:376 | The decimal rendering of a natural number is a digit string, and reading it back gives the number. |
| PyText.PadFacts | fetch_real_marketdata.py:131 | Zero-padding gives exactly the requested width of digits, and reads back as the number. |
| PyFloat.ParseFloat | msamb_scraper.py:376 | `float()` on cleaned text: a negative result needs a leading minus sign. |
| PyFloat.ParseFloatAcceptsDecimalText | fetch_real_marketdata.py:114 | On texts over digits, `.` and `-`, `float()` succeeds exactly when the text matches the decimal grammar. |
| PyFloat.ParseFloatNatural | fetch_real_marketdata.py:114 | `float(str(n))` is `n`. |
| PyFloat.ParseFloatDecimal | msamb_scraper.py:376 | `float("a.b")` for digit strings `a` and `b`, not both empty, is `a + b / 10^|b|`. |
| PyFloat.ParseFloatNegativeDecimal | msamb_scraper.py:376 | `float("-a.b")` is minus that value. |
| PyDate.IsoFormatRoundTrip | fetch_real_marketdata.py:131 | `isoformat` gives a well-formed ISO 8601 calendar date whose fields read back as the date. |
| PyDate.IsoFormatInjective | fetch_real_marketdata.py:131 | Two valid dates with the same ISO text are the same date. |
| PyDate.StrptimeDmy | msamb_scraper.py:364 | Any date returned is a valid calendar date. |
| PyDate.StrptimeDmyRoundTrip | msamb_scraper.py:364 | Every valid date written `DD/MM/YYYY` is read back as itself. |
| PyDate.StrptimeDmyRejectsOtherSeparators | msamb_scraper.py:364 | The same date written with `-` or `.` is rejected. |
| PyRegex.Search | fetch_real_marketdata.py:126 | `re.search` returns the leftmost match: no earlier position matches. |
| PyRegex.NoDigitNoMatch | fetch_real_marketdata.py:126-147 | No date pattern matches a text without a digit. |
| PyRegex.NoSpaceNoTextualMatch | fetch_real_marketdata.py:136 | The textual-month pattern never matches a text without whitespace. |
| Batches.CeilDiv | fetch_real_marketdata.py:431 | The result is the least `k` with `k * bs >= n`, which is `math.ceil(n / bs)`. |
| Batches.ChunkSizes | apmc_scraper.py:157-158 | Every batch is non-empty and holds at most `bs` records. |
| Batches.ChunksFlatten | apmc_scraper.py:157-158 | Concatenated, the batches are exactly the records, in order. |
| Batches.ChunksCount | fetch_real_marketdata.py:431-435 | There are `ceil(n / bs)` batches. |
| Batches.ChunkAt | fetch_real_marketdata.py:433-434 | Batch `k` is the slice `[k*bs : k*bs + bs]`. |
| Batches.CreditsAllAccepted | fetch_real_marketdata.py:443-446 | When every batch is stored and every reply reports nothing or the whole batch, the total is the number of records. |
| Batches.CreditsBounded | fetch_real_marketdata.py:443-446 | When no reply reports more rows than its batch held, the total never exceeds the number of records. |
| Batches.SentUntilRefused | msamb_scraper.py:113-137 | With no refusal, every batch is sent. Otherwise the batches up to and including the first refused one are sent, and that one is the last sent. |
| Batches.SentUntilRefusedAt | msamb_scraper.py:113-137 | When batch `k` is the first refused one, exactly batches `0..k` are sent. |
| Batches.BatchNext | msamb_scraper.py:113-125 | The offset `k*bs` inside the records names batch `k`, and that batch adds its size to the records sent. |
| Batches.BatchesDone | msamb_scraper.py:113 | Once the offset passes the end, every batch has been sent, and together they hold every record. |
| Folds.FoldPairs | msamb_scraper.py:87-93 | The keys of the filled dictionary are exactly the keys assigned. |
| Folds.LastWriteWins | msamb_scraper.py:87-93 | A key holds the value of its last assignment. |
| Folds.KeptKeys | fetch_real_marketdata.py:214-218 | The keys of a filtered loop's dictionary are exactly the keys of the kept elements. |
| Folds.KeptLastWins | fetch_real_marketdata.py:214-218 | A key holds the value of the last kept element with that key. |
| Folds.GroupKeys | fetch_real_marketdata.py:405-414 | The keys of a nested loop's dictionary are the keys of all its elements. |
| Folds.GroupLastWins | fetch_real_marketdata.py:405-414 | A key that no later element has holds the value of the element that has it. |
| Folds.GroupValueFrom | fetch_real_marketdata.py:405-414 | Every entry holds the value of some element that has its key. |
| Tables.ScanSnoc | fetch_real_marketdata.py:263 | One more row extends the walk: the row's records are appended, and its state is carried on. |
| FetchParsing.CleanNumber | fetch_real_marketdata.py:101-117 | The result is `None` for a missing or blank text, a sentinel, or a cleaned text of `""`, `.` or `-`. Any value returned is at least 0. |
| FetchParsing.CleanNumberAccepts | fetch_real_marketdata.py:105-117 | A value comes back exactly when the text is no sentinel, the cleaned text is a decimal and its value is not negative. The value is then the decimal's. |
| FetchParsing.CleanNumberNatural | fetch_real_marketdata.py:101-117 | A natural number's digits read back as that number. |
| FetchParsing.CleanNumberThousands | fetch_real_marketdata.py:109 | A comma between digit groups is ignored, so `1,234` reads as `1234`. |
| FetchParsing.CleanNumberRejectsNegative | fetch_real_marketdata.py:115 | `-n` for a positive `n` gives `None`. |
| FetchParsing.Pivot | fetch_real_marketdata.py:150-151 | A two-digit year below 70 falls in the 2000s, and any other in the 1900s. |
| FetchParsing.StrptimeTextual | fetch_real_marketdata.py:139-144 | Any date returned is a valid calendar date. |
| FetchParsing.ParseDateString | fetch_real_marketdata.py:119-158 | The result is `None` for empty text, and any date it returns is an ISO calendar date. A later stage runs only when the earlier ones failed. |
| FetchParsing.ParseDateDayFirst | fetch_real_marketdata.py:126-133 | `DD/MM/YYYY`, `DD-MM-YYYY` or `DD.MM.YYYY` resolves day-first to the ISO text of that day. |
| FetchParsing.ParseDateRejectsImpossibleDay | fetch_real_marketdata.py:126-158 | A day-first text naming no real day, such as `31/02/2024`, resolves to `None`, and no later stage picks up part of it. |
| FetchParsing.ParseDateTwoDigitYear | fetch_real_marketdata.py:146-156 | `DD/MM/YY` resolves to that day and month in the year given by the pivot at 70. |
| FetchParsing.ParseDateTextualMonth | fetch_real_marketdata.py:135-144 | `DD Mon YYYY` and `DD Month YYYY`, in any case, resolve to the ISO text of that day. |
| FetchParsing.ParseDateNeedsDigits | fetch_real_marketdata.py:119-158 | A text without digits never resolves. |
| FetchParsing.NoYear2MatchInYear4Text | fetch_real_marketdata.py:146-147 | The two-digit-year pattern finds nothing in a day-first text with a four-digit year. |
| FetchParsing.NoYear4MatchInYear2Text | fetch_real_marketdata.py:126-127 | The four-digit-year pattern finds nothing in a day-first text with a two-digit year. |
| FetchTables.MsambRowDate | fetch_real_marketdata.py:270-280 | A date row's text resolves as a whole, or else through its first date-like substring. The result is an ISO date. |
| FetchTables.MsambStep | fetch_real_marketdata.py:263-305 | A date row is never emitted. When its text resolves, that date becomes the current date; when it fails, the old date is kept. A non-date row of at least 7 cells is emitted with cells 0-6 once a date is known. |
| FetchTables.ParseMsambTable | fetch_real_marketdata.py:257-310 | The loop's output is the row walk of `MsambStep`. |
| FetchTables.MsambNoDateNoRows | fetch_real_marketdata.py:284 | Data rows before the first resolved date are dropped. |
| FetchTables.MsambOutputFacts | fetch_real_marketdata.py:257-310 | There is at most one record per row, and every record carries an ISO date. |
| FetchTables.MsambFailedDateKeepsDate | fetch_real_marketdata.py:269-281 | A date row that fails to resolve leaves the parse as it was, so the data rows after it keep the earlier date. |
| FetchTables.MsambRowDateDayFirst | fetch_real_marketdata.py:270-273 | A date row reading `DD/MM/YYYY` makes that day the current date, whatever the date before it, and emits nothing. |
| FetchTables.MsambDateCarriesOver | fetch_real_marketdata.py:263-305 | For any valid day: a `DD/MM/YYYY` date row, a data row, a date row that names no date and another data row give both data rows, each stamped with that day. |
| FetchTables.GetCol | fetch_real_marketdata.py:350-351 | A negative index counts from the end, an index past the last cell reads as `""`, and an index before the first cell raises. |
| FetchTables.GenericStep | fetch_real_marketdata.py:336-372 | A single-cell row with a colspan or a date-like text is a date row. When its stripped text resolves, that date becomes the current date; when it fails, the old date is kept. A data row needs a non-empty mapping, a date, and every mapped index below the cell count. |
| FetchTables.GenericInitialDate | fetch_real_marketdata.py:322-327 | The date before the first row is the date element's text, resolved. |
| FetchTables.ParseGenericTable | fetch_real_marketdata.py:312-377 | The loop's output is the row walk of `GenericStep` from the initial date. |
| FetchTables.GenericRow | fetch_real_marketdata.py:336-372 | One row of the mapped parser gives the new date and the records that `GenericStep` prescribes. |
| FetchTables.GenericEmptyMappingNoRows | fetch_real_marketdata.py:348 | An empty mapping emits nothing. |
| FetchTables.GenericNoDateNoRows | fetch_real_marketdata.py:348 | Nothing is emitted until a date is known. |
| FetchTables.GenericOutputFacts | fetch_real_marketdata.py:312-377 | There is at most one record per row, and every record carries an ISO date. |
| FetchTables.StandardMappingReadsMsambLayout | fetch_real_marketdata.py:353-359 | With the documented mapping, a data row reads the same columns as the MSAMB parser. |
| FetchIngest.LoadCommodityOptions | fetch_real_marketdata.py:214-218 | The loop fills the dictionary the filtered options assign. |
| FetchIngest.CommodityOptionKeys | fetch_real_marketdata.py:242-247 | The keys are exactly the codes that are neither empty nor `select`/`0` in any case. |
| FetchIngest.CommodityOptionKeysAreCodes | fetch_real_marketdata.py:215-217 | A key is never empty or a placeholder, and carries no surrounding whitespace. |
| FetchIngest.CommodityOptionLastWins | fetch_real_marketdata.py:218 | A code holds the text of the last kept option with that code. |
| FetchIngest.SourceAlias | fetch_real_marketdata.py:516 | The alias is non-empty and lower-case, and it is `msamb` when there is no organisation. |
| FetchIngest.LoadAliasMap | fetch_real_marketdata.py:405-414 | The nested loop fills the dictionary that maps each listed code to its row's global code. |
| FetchIngest.FileAliasRow | fetch_real_marketdata.py:407-414 | One master row maps each code it lists for the source, as one code or as a list, to its global code, on top of the dictionary so far. |
| FetchIngest.AliasMapKeys | fetch_real_marketdata.py:407-414 | The codes are exactly those some row lists for the source, as one code or as a list. |
| FetchIngest.AliasMapIgnoresOtherSources | fetch_real_marketdata.py:408 | Rows without an entry for the source add nothing. |
| FetchIngest.AliasLastRowWins | fetch_real_marketdata.py:405-414 | A code that no later row lists maps to its row's global code. |
| FetchIngest.GlobalCode | fetch_real_marketdata.py:616 | The result is the mapped code when truthy, and otherwise `ORG_code`, with the organisation upper-cased or `SRC`. |
| FetchIngest.GlobalCodeFallback | fetch_real_marketdata.py:616 | With no organisation and no alias, the code is `SRC_<code>`. |
| FetchIngest.CleanPrices | fetch_real_marketdata.py:593-596 | Every cleaned price is absent or at least 0. |
| FetchIngest.PricePerUnit | fetch_real_marketdata.py:599-607 | The modal price when there is one. Otherwise the midpoint of minimum and maximum when both are present, and else whichever of the two is present. The result is absent only when every price is absent. |
| FetchIngest.PricePerUnitBetween | fetch_real_marketdata.py:599-607 | Without a modal price, the price per unit lies between the minimum and the maximum. |
| FetchIngest.PricePerUnitFromPrices | fetch_real_marketdata.py:599-607 | The result is a present price or the midpoint of the minimum and maximum. |
| FetchIngest.Spread | fetch_real_marketdata.py:613 | A spread exists exactly when both the minimum and the maximum do, and then `min + spread == max`. |
| FetchIngest.SpreadNotClamped | fetch_real_marketdata.py:613 | Any minimum above the maximum gives a negative spread. |
| FetchIngest.NonEmpty | fetch_real_marketdata.py:627 | `value or None`. |
| FetchIngest.NormalizeRow | fetch_real_marketdata.py:585-657 | A payload exists exactly when the row has a date, a market and a positive price per unit. It then carries the cleaned prices, the spread, the global code, the source's ids, the row's date, market, commodity and variety, the unit or `quintal` when the unit is empty, and the organisation as `source` when it is truthy. |
| FetchIngest.NormalizeRowModalPrice | fetch_real_marketdata.py:599-610 | A positive modal price becomes the price per unit. |
| FetchIngest.NormalizeRowNoPrices | fetch_real_marketdata.py:610 | A row whose price cells are dashes is skipped. |
| FetchIngest.NormalizeRows | fetch_real_marketdata.py:585-657 | The loop's payloads are those of the rows that survive normalisation, in order. |
| FetchIngest.NormalizedFromRows | fetch_real_marketdata.py:585-657 | Every payload comes from a row with the same date and market, and has a positive price. |
| FetchIngest.FillCommodity | fetch_real_marketdata.py:567-569 | A row without a commodity gets the display name, and nothing else changes. |
| FetchIngest.CollectPayloads | fetch_real_marketdata.py:536-580 | The commodity loop gathers, in order, the payloads of every commodity whose code is non-empty and whose page arrived. |
| FetchIngest.CommodityPayloads | fetch_real_marketdata.py:557-580 | One commodity yields nothing when its code is empty or its page is missing. Otherwise it yields the normalised rows of the mapped parser, with the commodity filled in, or of the MSAMB parser when the mapping is empty. |
| FetchIngest.SourcePayloadsFacts | fetch_real_marketdata.py:536-657 | Every payload carries a positive price and the non-empty code of a commodity of the source. |
| FetchIngest.UpsertBatch | fetch_real_marketdata.py:425-453 | Empty input gives 0, a zero batch size raises, and a negative batch size gives 0, since the chunk count `math.ceil(n / batch_size)` is then not positive. With a positive batch size the result is the sum of the batch credits: a failed batch gives 0, and a stored one gives its reply's size, or the batch's size when the reply is empty. |
| FetchIngest.UpsertCountsEveryRecord | fetch_real_marketdata.py:425-453 | When every batch is stored, every record is counted. |
| FetchIngest.UpsertCountBounded | fetch_real_marketdata.py:425-453 | The count never exceeds the number of records when no reply overreports. |
| MsambScraper.CleanNumeric | msamb_scraper.py:369-378 | The result is `None` for `""` and `-`, and any value is at least 0. |
| MsambScraper.CleanNumericAccepts | msamb_scraper.py:373-378 | A value comes back exactly when the digits and points of the text form a decimal. |
| MsambScraper.CleanNumericNatural | msamb_scraper.py:369-378 | A natural number's digits read back as that number. |
| MsambScraper.CleanNumericDropsMinus | msamb_scraper.py:375 | `-5` reads as `5`. |
| MsambScraper.CleanNumericTwoPoints | msamb_scraper.py:376-378 | Two points give `None` through the caught exception. |
| MsambScraper.ParseDate | msamb_scraper.py:359-367 | The result is the `DD/MM/YYYY` date, or today when that fails. |
| MsambScraper.ParseDateRoundTrip | msamb_scraper.py:359-367 | A valid day written `DD/MM/YYYY` reads back as itself. |
| MsambScraper.ParseDateOtherSeparator | msamb_scraper.py:364-367 | The same day written with `-` gives today. |
| MsambScraper.GetCommodityMapping | msamb_scraper.py:79-99 | When every name and alias is text, the loop files each row under its lower-cased name and each lower-cased alias. Otherwise `.lower()` raises and the result is the empty dictionary. |
| MsambScraper.FileMasterRow | msamb_scraper.py:88-93 | One master row is filed under its lower-cased name and then under each lower-cased alias, on top of the dictionary so far. It raises exactly when the name or an alias is not text. |
| MsambScraper.FileUnderAlias | msamb_scraper.py:93 | Filing under one more alias extends the dictionary by that assignment. |
| MsambScraper.CommodityMappingEntry | msamb_scraper.py:87-93 | Every entry is a master row that has that key. |
| MsambScraper.CommodityMappingLastWins | msamb_scraper.py:87-93 | A key that no later row shares finds its row. |
| MsambScraper.NormalizeCommodity | msamb_scraper.py:380-397 | A hit on the lower-cased, stripped name gives the row's code, name and category. A miss gives no code, the original name and no category. |
| MsambScraper.NormalizeThroughIndex | msamb_scraper.py:380-390 | A name whose key belongs to one row only is normalised to that row. |
| MsambScraper.NormalizeUnknown | msamb_scraper.py:391-397 | A name that no row is filed under passes through unmapped. |
| MsambScraper.LoadCommoditiesFromHtml | msamb_scraper.py:198-225 | The result is the dictionary of the five-digit options, and empty when there is no `<select>`. |
| MsambScraper.CommodityCodes | msamb_scraper.py:214-218 | The keys are exactly the five-digit codes of the options. |
| MsambScraper.CommodityLastOptionWins | msamb_scraper.py:218 | A later option with the same code overwrites an earlier one. |
| MsambScraper.RequestParams | msamb_scraper.py:254-259 | The loop's parameters are the configured ones after substitution. |
| MsambScraper.RequestParamValue | msamb_scraper.py:254-259 | The placeholder becomes the commodity code, and every other value is kept. |
| MsambScraper.PricePerUnit | msamb_scraper.py:315 | The result is the modal price when it is truthy, and otherwise the maximum. |
| MsambScraper.Spread | msamb_scraper.py:311-313 | A spread exists exactly when both prices are truthy, and then `min + spread == max`. |
| MsambScraper.RecordOf | msamb_scraper.py:295-355 | A record exists exactly when the configuration has an `id`, since the `KeyError` otherwise skips the row. The record carries the ISO date, the market cell, and the four cleaned price cells. An empty unit becomes `quintal`, and an empty variety becomes `None`. It also carries the configuration's ids and codes and the commodity's normalisation. Its price per unit and spread follow `PricePerUnit` and `Spread`. |
| MsambScraper.Step | msamb_scraper.py:284-355 | A date row is never emitted. With text it always replaces the date, with today when the text fails, and an empty date row keeps it. A record is emitted exactly for a non-date row of at least 7 cells once a date is set and the configuration has an `id`. |
| MsambScraper.ParseHtmlTable | msamb_scraper.py:278-357 | The loop's output is the row walk of `Step`. |
| MsambScraper.ParseOutputFacts | msamb_scraper.py:278-357 | There is at most one record per row, each with an ISO date. |
| MsambScraper.NoDateNoRecords | msamb_scraper.py:295 | Data rows before the first date row yield nothing. |
| MsambScraper.FailedDateIsToday | msamb_scraper.py:287-292 | A non-empty date row that fails to parse moves the current date to today and emits nothing, so the data rows after it are stamped today. |
| MsambScraper.ZeroModalFallsToMax | msamb_scraper.py:315 | A modal price of 0 gives the maximum as the price per unit. |
| MsambScraper.UpsertMarketPrices | msamb_scraper.py:101-137 | Empty input gives 0, and a zero batch size raises. Batches go out in order until one raises, and then the call raises. Otherwise it returns the record count. |
| ApmcScraper.BuildUrl | apmc_scraper.py:20-27 | An empty path raises, and a path starting with `http` is returned unchanged. Any other path goes to `urljoin` with the base's trailing slashes replaced by one `/`, and with its own leading slashes removed. |
| ApmcScraper.JoinedHalves | apmc_scraper.py:27 | The base handed to `urljoin` ends in exactly one `/`, and the path starts with none. |
| ApmcScraper.BuildUrlAbsoluteStable | apmc_scraper.py:24-25 | Building from an absolute URL again gives the same URL. |
| ApmcScraper.BuildUrlIgnoresBaseSlashes | apmc_scraper.py:27 | A trailing slash on the base does not change the result. |
| ApmcScraper.FetchCommodities | apmc_scraper.py:212-217 | The loop fills the dictionary of the options whose code is all digits. |
| ApmcScraper.FetchedCommodityCodes | apmc_scraper.py:213-216 | The keys are exactly the all-digit codes of the options. |
| ApmcScraper.FetchedCommodityLastWins | apmc_scraper.py:217 | A later option with the same code overwrites an earlier one. |
| ApmcScraper.Num | apmc_scraper.py:264-268 | The result is `None` when no digit or point remains, and any value is at least 0. |
| ApmcScraper.NumRaises | apmc_scraper.py:267-268 | The call raises exactly when the kept characters are not a decimal. |
| ApmcScraper.NumNatural | apmc_scraper.py:264-268 | A natural number's digits read back as that number. |
| ApmcScraper.NumPointsRaise | apmc_scraper.py:264-268 | A text made only of points raises. |
| ApmcScraper.ParseDate | apmc_scraper.py:258-262 | The result is the `DD/MM/YYYY` date of the stripped text, or today. |
| ApmcScraper.ParseDateRoundTrip | apmc_scraper.py:258-262 | A valid day written `DD/MM/YYYY` reads back as itself. |
| ApmcScraper.RecordOf | apmc_scraper.py:240-253 | The call raises exactly when one of the four number cells raises. Otherwise the record carries the ISO date, the stripped market, variety and unit cells, and the four cells' numbers. |
| ApmcScraper.Step | apmc_scraper.py:234-253 | A single non-empty cell always replaces the date, with today when the text fails. Any other row of at least 7 cells under a date raises exactly when its record does, and otherwise emits that record. Shorter rows, or rows before any date, emit nothing. |
| ApmcScraper.ParseTable | apmc_scraper.py:230-256 | The loop raises exactly when the row walk does, and otherwise returns its records. |
| ApmcScraper.ParseRow | apmc_scraper.py:236-253 | One row gives the date and records that `Step` prescribes, and it raises exactly when `Step` does. |
| ApmcScraper.RaisedStaysRaised | apmc_scraper.py:230-256 | Once a prefix of the rows raises, the whole parse raises. |
| ApmcScraper.NoDateNoRecords | apmc_scraper.py:234-240 | Without a date row the parse yields nothing, so rows of 2-6 cells never yield anything. |
| ApmcScraper.ParseOutputFacts | apmc_scraper.py:230-256 | There is at most one record per row, each with an ISO date. |
| ApmcScraper.Spread | apmc_scraper.py:105-108 | A spread exists exactly when both prices are truthy, and then `min + spread == max`. |
| ApmcScraper.NormalizeRecord | apmc_scraper.py:80-108 | The source id and state come from the scraper. The codes, names, variety, unit, market, date and the four prices are copied from the record. The price per unit is the modal price when it is truthy, and otherwise the maximum. The source is the lower-cased organisation plus `_scraper`, with the price type `wholesale` and the status `ready`. |
| ApmcScraper.NormalizeKeepsPricelessRecords | apmc_scraper.py:95 | A record without prices keeps no price per unit and is not dropped. |
| ApmcScraper.Create | apmc_scraper.py:278-282 | A scraper is built exactly for the organisation `MSAMB`, and any other raises. |
| ApmcScraper.CreatedScraperSource | apmc_scraper.py:99 | A built scraper tags its records `msamb_scraper`. |
| ApmcScraper.Upsert | apmc_scraper.py:156-161 | A zero batch size raises, and a negative one sends nothing. Batches go out in order until one raises, and the call succeeds exactly when all that were sent were accepted. |
| ApmcScraper.SendBatches | apmc_scraper.py:157-161 | The loop sends the batches of `batch` rows in order up to and including the first refused one, and it succeeds exactly when all sent were accepted. |
| ApmcScraper.UpsertSendsEveryRow | apmc_scraper.py:157-161 | When every batch is accepted, the sent batches hold every row, in order. |
| ApmcScraper.NormalizeAll | apmc_scraper.py:133 | Each record is normalised, in order. |
| ApmcScraper.Collected | apmc_scraper.py:129-137 | There are never more errors than commodities. |
| ApmcScraper.CollectedNext | apmc_scraper.py:129-137 | Each further commodity adds exactly one error when its request or parse raises, and otherwise appends its records in order with the error count unchanged. |
| ApmcScraper.Run | apmc_scraper.py:110-154 | A failed commodity list gives all zeros. Otherwise: one error per failed commodity, `records_scraped` is the number of collected records, success exactly when there are records and every batch is accepted, and `records_upserted` is the record count on success and 0 otherwise. |
| ApmcScraper.EveryFailureIsAnError | apmc_scraper.py:129-137 | When every request fails, nothing is collected and each commodity counts one error. |
| ApmcScraper.OneFailedOneScraped | apmc_scraper.py:129-137 | When one request raises and another page gives records, those records are collected with one error. |
| ApmcScraper.Results | apmc_scraper.py:300-310 | There is at most one result per source. |
| ApmcScraper.RunAll | apmc_scraper.py:292-315 | The results are the success flags of the sources whose `active` is exactly `True`. The process exits non-zero exactly when there are results and none succeeded. |
| ApmcScraper.ResultsOfActive | apmc_scraper.py:300 | There is one result per active source. |
| ApmcScraper.OneSuccessSuffices | apmc_scraper.py:313-315 | An active source that succeeds gives a successful result, so the exit status is 0. |

## Left out

- HTTP is not modelled. That covers `fetch_text`, `post_text`, the sessions,
  `establish_session`/`_establish_session`, and the request in
  `fetch_commodity_data`/`fetch_commodity_prices`. Each commodity's page
  arrives as a parameter instead: a page, or none, or an exception.
- No Supabase call is modelled. That covers `load_sources`,
  `get_source_config`, `get_state_id`, `get_country_id`,
  `update_source_last_checked`, `_update_source`, and reading
  `commodity_master` and `agri_market_sources`. The store's answer per batch
  is a parameter.
- BeautifulSoup is not modelled: neither its tokenising, nor its CSS
  selectors, nor `str(tr)` (`raw_html`). The parsers receive rows already
  split into cells, each with its stripped text, its unstripped text and
  whether it has a `colspan`.
- `urljoin` is a parameter, because it is a library whose code is outside
  this model. The data URL that `process_source` builds by concatenation
  is not modelled either.
- Clocks are not modelled. The `fetched_at`, `ingested_at` and duration
  timestamps are left out, and `date.today()` is a parameter. `time.sleep`
  is left out.
- IEEE floating point is not modelled. Numbers are reals, the midpoint
  `(min + max) / 2` is exact, and `float()` is modelled only on the decimal
  grammar, since the cleaners leave nothing else.
- `\d`, `\s`, `\b`, `isdigit` and `lower`/`upper` are modelled on ASCII
  (and Python's whitespace set), not on all of Unicode.
- Only `strptime`'s default `%d/%m/%Y` is modelled, not a configured
  `date_format`. The configurable `commodity_value_attr` and dropdown
  selector are left out too.
- Dictionary iteration order is not modelled. Wherever the code loops over
  a dictionary (the commodity map, configured request parameters), the
  items are a sequence given in iteration order.
- `load_commodities_from_local`/`_remote` are reduced to their option loop.
  Reading the file, fetching the page and selecting the options are I/O.
- apmc `fetch_commodities` is reduced to its option loop. Opening the HTML
  file is I/O.
- The module-level caches, logging, configuration and environment loading,
  `main`, and the `sys.exit` call are left out. `RunAll` returns whether the
  exit status is non-zero.
- The summary counters of `process_source` (`rows_fetched`,
  `commodities_processed`, the error list) are left out. Its loops are
  modelled through the payloads they produce.
- The `metadata`, `district` and other constant columns of the records are
  left out, except where a contract states them.
- IsActive: only boolean values of the `active` column are modelled. A
  string or a number there is not, and since `is True` holds only for the
  boolean `True`, such a row would be as inactive as a missing value.
- ApmcScraper.Run: a failure while normalising a record is not modelled,
  because `normalize_record` cannot raise for the scraper `Create` builds.
  Constructing the scraper, which may raise while it establishes a
  session, is part of the `run` parameter of `RunAll`.
- ApmcScraper.Run: the commodities are a sequence, not the dictionary that
  `fetch_commodities` returns. Tying the two together would need the
  dictionary's insertion order.
