/**
 * The HTML tables the parsers read, already split into rows and cells, and
 * the row-by-row walk every parser performs: a state (the current date)
 * carried from row to row, and the output records each row contributes.
 */
module Tables {
  import opened Wrappers
  import opened PyText

  /**
   * A `<td>` (or `<th>`) cell: `text` is `get_text(strip=True)`, `raw` is
   * `get_text()` (the same as `.text`), and `hasColspan` says whether the cell
   * carries a `colspan` attribute.
   */
  datatype Cell = Cell(text: string, raw: string, hasColspan: bool)

  type Row = seq<Cell>

  /** An `<option>` of a dropdown: its `value` attribute, if any, and its text with surrounding whitespace stripped. */
  datatype HtmlOption = HtmlOption(value: Option<string>, text: string)

  /** The option's `value` attribute with surrounding whitespace stripped, empty when the attribute is missing. */
  function OptionCode(opt: HtmlOption): string {
    Strip(if opt.value.Some? then opt.value.value else "")
  }

  /** The state after some rows and the records they produced, in row order. */
  datatype Scanned<S, R> = Scanned(state: S, out: seq<R>)

  /**
   * Walking `rows` in document order: each row is handed to `step` with the
   * context and the state left by the rows before it; the step's records are
   * appended to the output.
   */
  function Scan<C, S, R>(step: (C, S, Row) -> Scanned<S, R>, ctx: C, init: S, rows: seq<Row>): Scanned<S, R> {
    if rows == [] then Scanned(init, [])
    else
      var before := Scan(step, ctx, init, rows[..|rows| - 1]);
      var now := step(ctx, before.state, rows[|rows| - 1]);
      Scanned(now.state, before.out + now.out)
  }

  /** One more row: what the parsing loops do per iteration. */
  lemma ScanNext<C, S, R>(step: (C, S, Row) -> Scanned<S, R>, ctx: C, init: S, rows: seq<Row>, i: nat)
    requires i < |rows|
    ensures Scan(step, ctx, init, rows[..i + 1])
      == var before := Scan(step, ctx, init, rows[..i]);
         var now := step(ctx, before.state, rows[i]);
         Scanned(now.state, before.out + now.out)
  {
    assert rows[..i + 1][..i] == rows[..i];
  }

  /** A row appended to the rows walked so far. */
  lemma ScanPush<C, S, R>(step: (C, S, Row) -> Scanned<S, R>, ctx: C, init: S, rows: seq<Row>, row: Row,
                          before: Scanned<S, R>, now: Scanned<S, R>)
    requires Scan(step, ctx, init, rows) == before && step(ctx, before.state, row) == now
    ensures Scan(step, ctx, init, rows + [row]) == Scanned(now.state, before.out + now.out)
  {
    assert (rows + [row])[..|rows|] == rows;
  }

  /** One more row, given what the rows before it left and what the row itself yields. */
  lemma ScanSnoc<C, S, R>(step: (C, S, Row) -> Scanned<S, R>, ctx: C, init: S, rows: seq<Row>, i: nat,
                          before: Scanned<S, R>, now: Scanned<S, R>)
    requires i < |rows| && Scan(step, ctx, init, rows[..i]) == before
    requires step(ctx, before.state, rows[i]) == now
    ensures Scan(step, ctx, init, rows[..i + 1]) == Scanned(now.state, before.out + now.out)
  {
    ScanNext(step, ctx, init, rows, i);
  }
}
