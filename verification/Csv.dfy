/** Reading nvidia-smi's CSV: a header line, then one line per row, no quoting. */
module Csv {
  import opened Basics
  import opened Text

  datatype Cell = Cell(qField: string, rField: string, raw: string)

  datatype Row = Row(byField: map<string, Cell>, cells: seq<Cell>)

  datatype Table = Table(rows: seq<Row>, rFields: seq<string>, columns: map<string, seq<Cell>>)

  datatype CsvError = BadHeader(want: nat, got: nat) | BadRow(row: nat, want: nat, got: nat)

  function CellsOf(qFields: seq<string>, rFields: seq<string>, values: seq<string>): (cells: seq<Cell>)
    requires |qFields| == |rFields| == |values|
    ensures |cells| == |values|
  {
    seq(|values|, c requires 0 <= c < |values| => Cell(qFields[c], rFields[c], values[c]))
  }

  /** The cells by field; a field asked for twice keeps its last cell. */
  function ByField(cells: seq<Cell>): map<string, Cell>
    decreases |cells|
  {
    if cells == [] then map[]
    else
      var last := cells[|cells| - 1];
      ByField(cells[..|cells| - 1])[last.qField := last]
  }

  function RowOf(cells: seq<Cell>): Row { Row(ByField(cells), cells) }

  /** The lines of an output, blanks around the whole dropped. */
  function Lines(output: string): (lines: seq<string>)
    ensures |lines| >= 1
  {
    Split(Trim(output), '\n')
  }

  /** Whether data line n of an output, counted from 1, has as many columns as were asked for. */
  predicate Fits(output: string, width: nat, n: nat)
    requires 1 <= n < |Lines(output)|
  {
    |Fields(Lines(output)[n])| == width
  }

  predicate AllFit(output: string, width: nat, upTo: nat)
    requires upTo <= |Lines(output)|
  {
    forall n: nat :: 1 <= n < upTo ==> Fits(output, width, n)
  }

  /** Row n of the table, counted from 0. */
  function RowAt(output: string, qFields: seq<string>, n: nat): Row
    requires n + 1 < |Lines(output)| && |Fields(Lines(output)[0])| == |qFields| && Fits(output, |qFields|, n + 1)
  {
    RowOf(CellsOf(qFields, Fields(Lines(output)[0]), Fields(Lines(output)[n + 1])))
  }

  /** Every row has an entry in every column, at its own place. */
  ghost predicate Aligned(qFields: seq<string>, rows: seq<Row>, columns: map<string, seq<Cell>>) {
    && columns.Keys == (set q | q in qFields)
    && (forall q :: q in columns ==> |columns[q]| == |rows|)
    && (forall q, n: nat :: q in columns && n < |rows| ==> q in rows[n].byField && columns[q][n] == rows[n].byField[q])
  }

  /** The rows are those of the first data lines. */
  ghost predicate Rowed(output: string, qFields: seq<string>, rows: seq<Row>) {
    && |rows| < |Lines(output)| && |Fields(Lines(output)[0])| == |qFields|
    && AllFit(output, |qFields|, |rows| + 1)
    && forall n: nat :: n < |rows| ==> rows[n] == RowAt(output, qFields, n)
  }

  /** What a successful parse of an output yields. */
  ghost predicate Reads(output: string, qFields: seq<string>, t: Table) {
    && Rowed(output, qFields, t.rows) && |t.rows| == |Lines(output)| - 1
    && t.rFields == Fields(Lines(output)[0])
    && Aligned(qFields, t.rows, t.columns)
  }

  lemma RowedStep(output: string, qFields: seq<string>, rows: seq<Row>)
    requires Rowed(output, qFields, rows) && |rows| + 1 < |Lines(output)| && Fits(output, |qFields|, |rows| + 1)
    ensures Rowed(output, qFields, rows + [RowAt(output, qFields, |rows|)])
  {
  }

  lemma AlignedStep(qFields: seq<string>, rows: seq<Row>, columns: map<string, seq<Cell>>, row: Row, more: map<string, seq<Cell>>)
    requires Aligned(qFields, rows, columns) && Appended(columns, row.byField, more)
    requires row.byField.Keys == set q | q in qFields
    ensures Aligned(qFields, rows + [row], more)
  {
  }

  lemma FieldsOfRow(qFields: seq<string>, rFields: seq<string>, values: seq<string>)
    requires |qFields| == |rFields| == |values|
    ensures ByField(CellsOf(qFields, rFields, values)).Keys == set q | q in qFields
  {
    var cells := CellsOf(qFields, rFields, values);
    forall q
      ensures q in ByField(cells) <==> q in qFields
    {
      ByFieldLast(cells, q);
      if q in qFields {
        var c :| 0 <= c < |qFields| && qFields[c] == q;
        assert cells[c].qField == q;
      }
    }
  }

  /** parseCSVLine. */
  method ParseCsvLine(line: string) returns (result: seq<string>)
    ensures result == Fields(line)
  {
    var values := Split(line, ',');
    result := [];
    for i := 0 to |values|
      invariant result == Fields(line)[..i]
    {
      result := result + [Trim(values[i])];
    }
    assert Fields(line)[..|values|] == Fields(line);
  }

  /** parseCSVRow: the error is the number of columns found. */
  method ParseCsvRow(line: string, qFields: seq<string>, rFields: seq<string>) returns (r: Result<Row, nat>)
    requires |qFields| == |rFields|
    ensures r.Err? <==> |Fields(line)| != |qFields|
    ensures r.Err? ==> r.error == |Fields(line)|
    ensures r.Ok? ==> r.value == RowOf(CellsOf(qFields, rFields, Fields(line)))
  {
    var raw := ParseCsvLine(line);
    if |raw| != |qFields| {
      return Err(|raw|);
    }
    var byField: map<string, Cell> := map[];
    var cells: seq<Cell> := [];
    ghost var all := CellsOf(qFields, rFields, raw);
    for col := 0 to |raw|
      invariant cells == all[..col] && byField == ByField(cells)
    {
      var cell := Cell(qFields[col], rFields[col], raw[col]);
      assert (cells + [cell])[..col] == cells;
      byField := byField[cell.qField := cell];
      cells := cells + [cell];
    }
    assert all[..|raw|] == all;
    r := Ok(Row(byField, cells));
  }

  /** The columns with one more entry under each field of `part`. */
  ghost predicate Appended(columns: map<string, seq<Cell>>, part: map<string, Cell>, more: map<string, seq<Cell>>) {
    && more.Keys == columns.Keys
    && (forall q :: q in columns && q in part ==> more[q] == columns[q] + [part[q]])
    && (forall q :: q in columns && q !in part ==> more[q] == columns[q])
  }

  lemma AppendedStep(columns: map<string, seq<Cell>>, part: map<string, Cell>, more: map<string, seq<Cell>>, cell: Cell)
    requires Appended(columns, part, more) && cell.qField in columns
    ensures Appended(columns, part[cell.qField := cell], more[cell.qField := columns[cell.qField] + [cell]])
  {
  }

  /** The by-field columns after one more row. */
  method AddToColumns(columns: map<string, seq<Cell>>, cells: seq<Cell>) returns (more: map<string, seq<Cell>>)
    requires forall c :: 0 <= c < |cells| ==> cells[c].qField in columns
    ensures Appended(columns, ByField(cells), more)
  {
    more := columns;
    for col := 0 to |cells|
      invariant Appended(columns, ByField(cells[..col]), more)
    {
      assert cells[..col + 1][..col] == cells[..col];
      AppendedStep(columns, ByField(cells[..col]), more, cells[col]);
      more := more[cells[col].qField := columns[cells[col].qField] + [cells[col]]];
    }
    assert cells[..|cells|] == cells;
  }

  /**
   ParseCSVIntoTable: the header decides before any row is looked at, the first ill-fitting row is reported, and
   otherwise every row and column of the output is there.
   */
  method ParseCsvIntoTable(output: string, qFields: seq<string>) returns (r: Result<Table, CsvError>)
    ensures r.Ok? ==> Reads(output, qFields, r.value)
    ensures |Fields(Lines(output)[0])| != |qFields| <==>
            r == Err(BadHeader(|qFields|, |Fields(Lines(output)[0])|))
    ensures r.Err? && r.error.BadRow? ==>
              && 1 <= r.error.row < |Lines(output)| && AllFit(output, |qFields|, r.error.row)
              && !Fits(output, |qFields|, r.error.row)
              && r.error == BadRow(r.error.row, |qFields|, |Fields(Lines(output)[r.error.row])|)
    ensures |Fields(Lines(output)[0])| == |qFields| && AllFit(output, |qFields|, |Lines(output)|) ==> r.Ok?
  {
    var lines := Lines(output);
    var rFields := ParseCsvLine(lines[0]);
    if |qFields| != |rFields| {
      return Err(BadHeader(|qFields|, |rFields|));
    }
    var rows: seq<Row> := [];
    var columns := map q | q in qFields :: [];
    for n := 1 to |lines|
      invariant |rows| == n - 1 && Rowed(output, qFields, rows) && Aligned(qFields, rows, columns)
    {
      var row := ParseCsvRow(lines[n], qFields, rFields);
      if row.Err? {
        return Err(BadRow(n, |qFields|, row.error));
      }
      assert Fits(output, |qFields|, n);
      assert row.value == RowAt(output, qFields, n - 1);
      FieldsOfRow(qFields, rFields, Fields(lines[n]));
      var more := AddToColumns(columns, row.value.cells);
      RowedStep(output, qFields, rows);
      AlignedStep(qFields, rows, columns, row.value, more);
      columns := more;
      rows := rows + [row.value];
    }
    return Ok(Table(rows, rFields, columns));
  }

  /** A row knows exactly the fields of its cells, each by its last cell. */
  lemma {:induction false} ByFieldLast(cells: seq<Cell>, q: string)
    ensures q in ByField(cells) <==> exists c :: 0 <= c < |cells| && cells[c].qField == q
    ensures q in ByField(cells) ==> exists c ::
              && 0 <= c < |cells| && cells[c].qField == q && ByField(cells)[q] == cells[c]
              && forall d :: c < d < |cells| ==> cells[d].qField != q
    decreases |cells|
  {
    if cells != [] {
      var n := |cells| - 1;
      ByFieldLast(cells[..n], q);
      if cells[n].qField == q {
        assert ByField(cells)[q] == cells[n];
      } else if q in ByField(cells[..n]) {
        var c :| 0 <= c < n && cells[..n][c].qField == q && ByField(cells[..n])[q] == cells[..n][c]
                 && forall d :: c < d < n ==> cells[..n][d].qField != q;
        assert forall d :: c < d < n ==> cells[d] == cells[..n][d];
        assert cells[c] == cells[..n][c];
      } else {
        assert forall c :: 0 <= c < n ==> cells[c] == cells[..n][c];
      }
    }
  }

  /**
   Asked for distinct fields, a table is the grid of its lines' cells, however it is looked at: by position, by field
   in a row, or by column.
   */
  lemma TableIsGrid(output: string, qFields: seq<string>, t: Table, n: nat, c: nat)
    requires Reads(output, qFields, t) && Distinct(qFields) && n < |t.rows| && c < |qFields|
    ensures |t.rows[n].cells| == |qFields| == |t.rFields|
    ensures n + 1 < |Lines(output)| && c < |Fields(Lines(output)[n + 1])|
    ensures t.rows[n].cells[c] == Cell(qFields[c], Fields(Lines(output)[0])[c], Fields(Lines(output)[n + 1])[c])
    ensures qFields[c] in t.rows[n].byField && t.rows[n].byField[qFields[c]] == t.rows[n].cells[c]
    ensures qFields[c] in t.columns && n < |t.columns[qFields[c]]| && t.columns[qFields[c]][n] == t.rows[n].cells[c]
  {
    assert Fits(output, |qFields|, n + 1);
    var row := t.rows[n];
    assert row == RowAt(output, qFields, n);
    ByFieldLast(row.cells, qFields[c]);
    assert row.cells[c].qField == qFields[c] && qFields[c] in t.columns;
    var d :| 0 <= d < |row.cells| && row.cells[d].qField == qFields[c] && row.byField[qFields[c]] == row.cells[d];
    assert row.cells[d].qField == qFields[d];
    assert d == c;
  }
}
