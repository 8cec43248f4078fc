/**
 The workbook preflight: counters incremented cell by cell and partition by partition, against the
 closed form of what a set of tables needs.
 */
module WorkbookCapacity {
  import opened Wrappers
  import Utf8

  const MAX_ROWS_PER_SHEET: nat := 1_000
  const MAX_TOTAL_ROWS: nat := 30_000
  const MAX_TOTAL_CELLS: nat := 210_000
  const MAX_TOTAL_TEXT_BYTES: nat := 16_777_216
  const MAX_SHEETS: nat := 64
  const MAX_COLUMNS: nat := 100
  const MAX_CELL_UTF16_UNITS: nat := 32_767
  const MAX_REQUEST_BODY_BYTES: nat := 8_388_608

  datatype Table = Table(name: string, headers: seq<string>, rows: seq<seq<string>>)

  datatype Refusal = ResourceLimit | TextInvalid

  datatype Totals = Totals(rows: nat, cells: nat, bytes: nat, sheets: nat)

  // -- Literals -------------------------------------------------------------

  function Utf16Units(s: string): nat {
    if s == [] then 0 else (if s[0] as int >= 0x10000 then 2 else 1) + Utf16Units(s[1..])
  }

  predicate Printable(s: string) {
    forall k :: 0 <= k < |s| ==> s[k] as int >= 32 || s[k] in "\t\r\n"
  }

  /** `validate_literal` */
  function LiteralRefusal(s: string): Option<Refusal> {
    if Utf16Units(s) > MAX_CELL_UTF16_UNITS then Some(ResourceLimit)
    else if !Printable(s) then Some(TextInvalid)
    else None
  }

  predicate Literals(values: seq<string>) {
    values == [] || (Literals(values[..|values| - 1]) && LiteralRefusal(values[|values| - 1]).None?)
  }

  function Text(values: seq<string>): nat {
    if values == [] then 0 else Text(values[..|values| - 1]) + |Utf8.Encode(values[|values| - 1])|
  }

  // -- What a table takes ---------------------------------------------------

  predicate Starts(k: nat) {
    k > 0 && k % MAX_ROWS_PER_SHEET == 0
  }

  /** What row `k` adds, with the headers of the sheet it may start. */
  function RowNeeds(headers: seq<string>, row: seq<string>, starts: bool): Totals {
    if starts then Totals(1, |headers| + |headers|, Text(headers) + Text(row), 1)
    else Totals(1, |headers|, Text(row), 0)
  }

  /** A first sheet with its headers, then row after row. */
  function Needs(headers: seq<string>, rows: seq<seq<string>>): Totals {
    if rows == [] then Totals(0, |headers|, Text(headers), 1)
    else
      var k := |rows| - 1;
      Plus(Needs(headers, rows[..k]), RowNeeds(headers, rows[k], Starts(k)))
  }

  function Plus(a: Totals, b: Totals): Totals {
    Totals(a.rows + b.rows, a.cells + b.cells, a.bytes + b.bytes, a.sheets + b.sheets)
  }

  predicate AtMost(a: Totals, b: Totals) {
    a.rows <= b.rows && a.cells <= b.cells && a.bytes <= b.bytes && a.sheets <= b.sheets
  }

  const LIMITS: Totals := Totals(MAX_TOTAL_ROWS, MAX_TOTAL_CELLS, MAX_TOTAL_TEXT_BYTES, MAX_SHEETS)

  predicate Shaped(t: Table) {
    && 0 < |t.headers| <= MAX_COLUMNS
    && Literals(t.headers)
    && RowsShaped(|t.headers|, t.rows)
  }

  predicate RowsShaped(width: nat, rows: seq<seq<string>>) {
    rows == [] || (RowsShaped(width, rows[..|rows| - 1]) && RowShaped(width, rows[|rows| - 1]))
  }

  predicate RowShaped(width: nat, row: seq<string>) {
    |row| == width && Literals(row)
  }

  lemma {:induction false} ShapedPrefix(width: nat, rows: seq<seq<string>>, k: nat)
    requires k < |rows|
    ensures RowsShaped(width, rows[..k + 1]) <==> RowsShaped(width, rows[..k]) && RowShaped(width, rows[k])
    ensures RowsShaped(width, rows) ==> RowsShaped(width, rows[..k + 1])
    decreases |rows| - k
  {
    assert rows[..k + 1][..k] == rows[..k];
    if k + 1 == |rows| {
      assert rows[..k + 1] == rows;
    } else {
      ShapedPrefix(width, rows, k + 1);
    }
  }

  lemma {:induction false} LiteralPrefix(values: seq<string>, k: nat)
    requires k < |values|
    ensures Literals(values[..k + 1]) <==> Literals(values[..k]) && LiteralRefusal(values[k]).None?
    ensures Literals(values) ==> Literals(values[..k + 1])
    decreases |values| - k
  {
    assert values[..k + 1][..k] == values[..k];
    if k + 1 == |values| {
      assert values[..k + 1] == values;
    } else {
      LiteralPrefix(values, k + 1);
    }
  }

  predicate AllShaped(tables: seq<Table>) {
    tables == [] || (AllShaped(tables[..|tables| - 1]) && Shaped(tables[|tables| - 1]))
  }

  function AllNeed(tables: seq<Table>): Totals {
    if tables == [] then Totals(0, 0, 0, 0)
    else
      var last := tables[|tables| - 1];
      Plus(AllNeed(tables[..|tables| - 1]), Needs(last.headers, last.rows))
  }

  // -- Closed form ----------------------------------------------------------

  /** One sheet per started partition of rows, and one even for no rows. */
  function SheetsFor(n: nat): nat {
    if n == 0 then 1 else (n + MAX_ROWS_PER_SHEET - 1) / MAX_ROWS_PER_SHEET
  }

  function RowsText(rows: seq<seq<string>>): nat {
    if rows == [] then 0 else RowsText(rows[..|rows| - 1]) + Text(rows[|rows| - 1])
  }

  /** A new sheet starts at row `k` exactly when the code says so. */
  lemma SheetStarts(k: nat)
    ensures SheetsFor(k + 1) == SheetsFor(k) + if Starts(k) then 1 else 0
  {
    var m := MAX_ROWS_PER_SHEET;
    if k > 0 {
      assert k + m == (k / m) * m + k % m + m;
      var q, r := (k + m - 1) / m, (k + m - 1) % m;
      assert k + m - 1 == q * m + r;
    }
  }

  lemma Distribute(w: nat, n: nat)
    ensures w * (n + 1) == w * n + w && w * (n + 2) == w * n + w + w
    ensures (n + 1) * w == n * w + w
  {
  }

  /** Every sheet repeats the headers. */
  function ClosedForm(headers: seq<string>, rows: seq<seq<string>>): Totals {
    var n, w, sheets := |rows|, |headers|, SheetsFor(|rows|);
    Totals(n, w * (sheets + n), sheets * Text(headers) + RowsText(rows), sheets)
  }

  lemma {:induction false} NeedsClosedForm(headers: seq<string>, rows: seq<seq<string>>)
    ensures Needs(headers, rows) == ClosedForm(headers, rows)
  {
    if rows != [] {
      var k := |rows| - 1;
      NeedsClosedForm(headers, rows[..k]);
      SheetStarts(k);
      Distribute(|headers|, SheetsFor(k) + k);
      Distribute(Text(headers), SheetsFor(k));
    }
  }

  function AllClosedForm(tables: seq<Table>): Totals {
    if tables == [] then Totals(0, 0, 0, 0)
    else
      var last := tables[|tables| - 1];
      Plus(AllClosedForm(tables[..|tables| - 1]), ClosedForm(last.headers, last.rows))
  }

  /** What the counters reach, cell by cell, is the sum of the tables' closed forms. */
  lemma {:induction false} CountersHaveAClosedForm(tables: seq<Table>)
    ensures AllNeed(tables) == AllClosedForm(tables)
  {
    if tables != [] {
      var last := tables[|tables| - 1];
      CountersHaveAClosedForm(tables[..|tables| - 1]);
      NeedsClosedForm(last.headers, last.rows);
    }
  }

  // -- Growth ---------------------------------------------------------------

  /** Counters after the next row, seen from before the table and against the whole of it. */
  lemma NextRow(was: Totals, headers: seq<string>, rows: seq<seq<string>>, k: nat)
    requires k < |rows|
    ensures var next := Plus(Plus(was, Needs(headers, rows[..k])), RowNeeds(headers, rows[k], Starts(k)));
            next == Plus(was, Needs(headers, rows[..k + 1])) && AtMost(next, Plus(was, Needs(headers, rows)))
  {
    assert rows[..k + 1][..k] == rows[..k];
    NeedsGrow(headers, rows, k + 1);
  }

  lemma {:induction false} NeedsGrow(headers: seq<string>, rows: seq<seq<string>>, k: nat)
    requires k <= |rows|
    ensures AtMost(Needs(headers, rows[..k]), Needs(headers, rows))
    decreases |rows| - k
  {
    if k == |rows| {
      assert rows[..k] == rows;
    } else {
      assert rows[..k + 1][..k] == rows[..k];
      NeedsGrow(headers, rows, k + 1);
    }
  }

  lemma {:induction false} TablesGrow(tables: seq<Table>, k: nat)
    requires k <= |tables|
    ensures AtMost(AllNeed(tables[..k]), AllNeed(tables))
    ensures AllShaped(tables) ==> AllShaped(tables[..k])
    decreases |tables| - k
  {
    if k == |tables| {
      assert tables[..k] == tables;
    } else {
      assert tables[..k + 1][..k] == tables[..k];
      TablesGrow(tables, k + 1);
    }
  }

  lemma NextTable(tables: seq<Table>, k: nat)
    requires k < |tables|
    ensures var next := Plus(AllNeed(tables[..k]), Needs(tables[k].headers, tables[k].rows));
            next == AllNeed(tables[..k + 1]) && AtMost(next, AllNeed(tables))
    ensures AllShaped(tables[..k + 1]) <==> AllShaped(tables[..k]) && Shaped(tables[k])
    ensures AllShaped(tables) ==> Shaped(tables[k])
  {
    assert tables[..k + 1][..k] == tables[..k];
    TablesGrow(tables, k + 1);
  }

  // -- The counters ---------------------------------------------------------

  class Capacity {
    const requestBodyBytes: nat
    var totalRows: nat
    var totalCells: nat
    var totalTextBytes: nat
    var sheets: nat

    constructor (bodyBytes: nat)
      ensures requestBodyBytes == bodyBytes && Now() == Totals(0, 0, 0, 0)
    {
      requestBodyBytes := bodyBytes;
      totalRows, totalCells, totalTextBytes, sheets := 0, 0, 0, 0;
    }

    function Now(): Totals
      reads this
    {
      Totals(totalRows, totalCells, totalTextBytes, sheets)
    }

    /** `add_values`: counts first, then refuses what it has counted. */
    method AddValues(values: seq<string>) returns (refused: Option<Refusal>)
      modifies this`totalCells, this`totalTextBytes
      ensures refused.None? <==>
              && Literals(values)
              && old(totalCells) + |values| <= MAX_TOTAL_CELLS
              && old(totalTextBytes) + Text(values) <= MAX_TOTAL_TEXT_BYTES
      ensures refused.None? ==> Now() == Plus(old(Now()), Totals(0, |values|, Text(values), 0))
    {
      totalCells := totalCells + |values|;
      assert values[..0] == [];
      for k := 0 to |values|
        invariant Literals(values[..k])
        invariant totalCells == old(totalCells) + |values|
        invariant totalTextBytes == old(totalTextBytes) + Text(values[..k])
      {
        LiteralPrefix(values, k);
        var literal := LiteralRefusal(values[k]);
        if literal.Some? {
          return literal;
        }
        assert values[..k + 1][..k] == values[..k];
        totalTextBytes := totalTextBytes + |Utf8.Encode(values[k])|;
      }
      assert values[..|values|] == values;
      refused := if totalCells > MAX_TOTAL_CELLS || totalTextBytes > MAX_TOTAL_TEXT_BYTES
                 then Some(ResourceLimit) else None;
    }

    /** `add_sheet` */
    method AddSheet(headers: seq<string>) returns (refused: Option<Refusal>)
      modifies this`totalCells, this`totalTextBytes, this`sheets
      ensures refused.None? <==>
              && old(sheets) + 1 <= MAX_SHEETS
              && Literals(headers)
              && old(totalCells) + |headers| <= MAX_TOTAL_CELLS
              && old(totalTextBytes) + Text(headers) <= MAX_TOTAL_TEXT_BYTES
      ensures refused.None? ==> Now() == Plus(old(Now()), Totals(0, |headers|, Text(headers), 1))
    {
      sheets := sheets + 1;
      if sheets > MAX_SHEETS {
        return Some(ResourceLimit);
      }
      refused := AddValues(headers);
    }

    /** One turn of the loop of `_retain_table`. */
    method AddRow(headers: seq<string>, values: seq<string>, index: nat) returns (refused: Option<Refusal>)
      requires Literals(headers) && AtMost(Now(), LIMITS)
      modifies this`totalRows, this`totalCells, this`totalTextBytes, this`sheets
      ensures refused.None? <==>
              && |values| == |headers| && Literals(values)
              && AtMost(Plus(old(Now()), RowNeeds(headers, values, Starts(index))), LIMITS)
      ensures refused.None? ==> Now() == Plus(old(Now()), RowNeeds(headers, values, Starts(index)))
    {
      totalRows := totalRows + 1;
      if totalRows > MAX_TOTAL_ROWS || |values| != |headers| {
        return Some(ResourceLimit);
      }
      if index != 0 && index % MAX_ROWS_PER_SHEET == 0 {
        refused := AddSheet(headers);
        if refused.Some? {
          return;
        }
      }
      refused := AddValues(values);
    }

    /** `_retain_table`: all of the table or a refusal. */
    method RetainTable(table: Table) returns (retained: Result<Table, Refusal>)
      requires AtMost(Now(), LIMITS)
      modifies this`totalRows, this`totalCells, this`totalTextBytes, this`sheets
      ensures retained.Ok? <==>
              Shaped(table) && AtMost(Plus(old(Now()), Needs(table.headers, table.rows)), LIMITS)
      ensures retained.Ok? ==>
              retained.value == table && Now() == Plus(old(Now()), Needs(table.headers, table.rows))
    {
      if table.headers == [] || |table.headers| > MAX_COLUMNS {
        return Err(ResourceLimit);
      }
      NeedsGrow(table.headers, table.rows, 0);
      assert table.rows[..0] == [];
      var refused := AddSheet(table.headers);
      if refused.Some? {
        return Err(refused.value);
      }
      var rows: Result<seq<seq<string>>, Refusal> := RetainRows(table.headers, table.rows, old(Now()));
      assert table.rows[..|table.rows|] == table.rows;
      retained := if rows.Ok? then Ok(Table(table.name, table.headers, rows.value)) else Err(rows.error);
    }

    /** Its loop over the rows; `was` is what had been counted before the table. */
    method RetainRows(headers: seq<string>, rows: seq<seq<string>>, ghost was: Totals)
      returns (retained: Result<seq<seq<string>>, Refusal>)
      requires Literals(headers) && Counted(was, headers, rows, 0, Now())
      modifies this`totalRows, this`totalCells, this`totalTextBytes, this`sheets
      ensures retained.Ok? ==> retained.value == rows && Counted(was, headers, rows, |rows|, Now())
      ensures retained.Err? ==> TooMuch(was, headers, rows)
    {
      var kept: seq<seq<string>> := [];
      for index := 0 to |rows|
        invariant kept == rows[..index] && Counted(was, headers, rows, index, Now())
      {
        var refused := RetainRow(headers, rows, index, was);
        if refused.Some? {
          return Err(refused.value);
        }
        kept := kept + [rows[index]];
      }
      retained := Ok(kept);
    }

    /** One turn of it: a row refused is a table refused. */
    method RetainRow(headers: seq<string>, rows: seq<seq<string>>, index: nat, ghost was: Totals)
      returns (refused: Option<Refusal>)
      requires index < |rows| && Literals(headers) && Counted(was, headers, rows, index, Now())
      modifies this`totalRows, this`totalCells, this`totalTextBytes, this`sheets
      ensures refused.None? ==> Counted(was, headers, rows, index + 1, Now())
      ensures refused.Some? ==> TooMuch(was, headers, rows)
    {
      ShapedPrefix(|headers|, rows, index);
      NextRow(was, headers, rows, index);
      refused := AddRow(headers, rows[index], index);
    }
  }

  /** `n` rows of a table well formed, counted and still within the limits. */
  ghost predicate Counted(was: Totals, headers: seq<string>, rows: seq<seq<string>>, n: nat, now: Totals)
    requires n <= |rows|
  {
    RowsShaped(|headers|, rows[..n]) && now == Plus(was, Needs(headers, rows[..n])) && AtMost(now, LIMITS)
  }

  ghost predicate TooMuch(was: Totals, headers: seq<string>, rows: seq<seq<string>>) {
    !(RowsShaped(|headers|, rows) && AtMost(Plus(was, Needs(headers, rows)), LIMITS))
  }

  /** Everything the preflight demands, as one condition on its input. */
  predicate Admissible(bodyBytes: nat, tables: seq<Table>) {
    && bodyBytes <= MAX_REQUEST_BODY_BYTES
    && AllShaped(tables)
    && AtMost(AllNeed(tables), LIMITS)
  }

  /**
   `preflight_workbook`: it refuses exactly when a table is misshapen or some closed-form total is
   over its limit, and otherwise keeps every row where it was and counts what the closed form says.
   */
  method Preflight(bodyBytes: nat, tables: seq<Table>)
    returns (retained: Result<seq<Table>, Refusal>, capacity: Capacity)
    ensures retained.Ok? <==> Admissible(bodyBytes, tables)
    ensures retained.Ok? ==>
            retained.value == tables && capacity.Now() == AllNeed(tables) && capacity.requestBodyBytes == bodyBytes
  {
    capacity := new Capacity(bodyBytes);
    if bodyBytes > MAX_REQUEST_BODY_BYTES {
      return Err(ResourceLimit), capacity;
    }
    retained := RetainTables(tables, capacity);
  }

  /** Its loop over the tables. */
  method RetainTables(tables: seq<Table>, capacity: Capacity) returns (retained: Result<seq<Table>, Refusal>)
    requires capacity.Now() == Totals(0, 0, 0, 0)
    modifies capacity
    ensures retained.Ok? <==> AllShaped(tables) && AtMost(AllNeed(tables), LIMITS)
    ensures retained.Ok? ==> retained.value == tables && capacity.Now() == AllNeed(tables)
  {
    var kept: seq<Table> := [];
    assert tables[..0] == [];
    for k := 0 to |tables|
      invariant kept == tables[..k] && AllShaped(tables[..k])
      invariant capacity.Now() == AllNeed(tables[..k]) && AtMost(capacity.Now(), LIMITS)
    {
      var table := RetainNext(tables, k, capacity);
      if table.Err? {
        return Err(table.error);
      }
      kept := kept + [table.value];
    }
    assert tables[..|tables|] == tables;
    retained := Ok(kept);
  }

  /** One turn of it: a table refused is a workbook refused. */
  method RetainNext(tables: seq<Table>, k: nat, capacity: Capacity) returns (table: Result<Table, Refusal>)
    requires k < |tables| && AllShaped(tables[..k])
    requires capacity.Now() == AllNeed(tables[..k]) && AtMost(capacity.Now(), LIMITS)
    modifies capacity
    ensures table.Ok? ==>
            && table.value == tables[k] && AllShaped(tables[..k + 1])
            && capacity.Now() == AllNeed(tables[..k + 1]) && AtMost(capacity.Now(), LIMITS)
    ensures table.Err? ==> !(AllShaped(tables) && AtMost(AllNeed(tables), LIMITS))
  {
    NextTable(tables, k);
    table := capacity.RetainTable(tables[k]);
  }
}
