/** The fake as the object it is: rows are arrays, cloned per simulated GPU and rewritten in place. */
module Projector {
  import opened Basics
  import opened Text
  import opened Fluctuator
  import opened Identity
  import opened Overrides
  import opened Projection

  method ParseRecordedFields(command: string) returns (r: Result<seq<string>, ProjectError>)
    ensures r == RecordedFields(command)
  {
    var tokens := Words(command);
    var n := 0;
    while n < |tokens|
      invariant n <= |tokens| && FirstQuery(tokens) == FirstQuery(tokens[n..])
    {
      if IsQuery(tokens[n]) {
        return FieldsNamed(AfterEquals(tokens[n]).value);
      }
      n := n + 1;
    }
    return Err(NoFieldList);
  }

  method RequestedColumns(request: string, columnOf: map<string, nat>) returns (r: Result<seq<nat>, ProjectError>)
    ensures r == Requested(Split(request, ','), columnOf)
  {
    var names := Split(request, ',');
    var columns: seq<nat> := [];
    for n := 0 to |names|
      invariant Requested(names[..n], columnOf) == Ok(columns)
    {
      assert names[..n + 1][..n] == names[..n];
      if Trim(names[n]) !in columnOf {
        UnknownStops(names, columnOf, n);
        return Err(UnknownField(names[n]));
      }
      columns := columns + [columnOf[Trim(names[n])]];
    }
    assert names[..|names|] == names;
    return Ok(columns);
  }

  lemma {:induction false} UnknownStops(names: seq<string>, columnOf: map<string, nat>, n: nat)
    requires n < |names| && Requested(names[..n], columnOf).Ok? && Trim(names[n]) !in columnOf
    ensures Requested(names, columnOf) == Err(UnknownField(names[n]))
    decreases |names|
  {
    var m := |names| - 1;
    if n < m {
      assert names[..m][..n] == names[..n];
      UnknownStops(names[..m], columnOf, n);
    }
  }

  /** The rows' arrays hold the values. */
  ghost predicate Hold(rows: seq<array<string>>, values: seq<seq<string>>)
    reads set r | r in rows
  {
    |rows| == |values| && forall k :: 0 <= k < |rows| ==> rows[k][..] == values[k]
  }

  /** The rows from `n` on hold their values, or all of them. */
  ghost predicate HoldFrom(rows: seq<array<string>>, values: seq<seq<string>>, all: bool, n: nat)
    reads set r | r in rows
  {
    |rows| == |values| && forall k :: 0 <= k < |rows| && (all || k >= n) ==> rows[k][..] == values[k]
  }

  /** No two rows are the same array. */
  ghost predicate Separate(rows: seq<array<string>>) { forall j, k :: 0 <= j < k < |rows| ==> rows[j] != rows[k] }

  method NewRow(values: seq<string>) returns (row: array<string>)
    ensures fresh(row) && row[..] == values
  {
    row := new string[|values|](i requires 0 <= i < |values| => values[i]);
  }

  /** One more row, in an array of its own. */
  method AddRow(rows: seq<array<string>>, ghost values: seq<seq<string>>, cells: seq<string>) returns (more: seq<array<string>>)
    requires Separate(rows) && Hold(rows, values)
    ensures |more| == |rows| + 1 && more[..|rows|] == rows && fresh(more[|rows|]) && more[|rows|].Length == |cells|
    ensures Separate(more) && Hold(more, values + [cells])
  {
    var row := NewRow(cells);
    more := rows + [row];
  }

  lemma OneMoreSplit(lines: seq<string>, want: nat, free: Option<nat>, n: nat, values: seq<seq<string>>)
    requires free.Some? ==> free.value < want
    requires n < |lines| && SplitRows(lines[..n], want, free) == Ok(values) && SplitRow(lines[n], want, free).Some?
    ensures SplitRows(lines[..n + 1], want, free) == Ok(values + [SplitRow(lines[n], want, free).value])
  {
    assert lines[..n + 1][..n] == lines[..n];
  }

  /** The recorded rows, each an array of its own. */
  method SplitDataRows(lines: seq<string>, want: nat, free: Option<nat>)
    returns (r: Result<seq<array<string>>, ProjectError>, ghost values: seq<seq<string>>)
    requires free.Some? ==> free.value < want
    ensures r.Err? ==> SplitRows(lines, want, free) == Err(r.error)
    ensures r.Ok? ==> SplitRows(lines, want, free) == Ok(values) && Separate(r.value) && Hold(r.value, values)
    ensures r.Ok? ==> forall k :: 0 <= k < |r.value| ==> fresh(r.value[k]) && r.value[k].Length == want
  {
    var rows: seq<array<string>> := [];
    values := [];
    for n := 0 to |lines|
      invariant forall k :: 0 <= k < |rows| ==> fresh(rows[k]) && rows[k].Length == want
      invariant SplitRows(lines[..n], want, free) == Ok(values) && Separate(rows) && Hold(rows, values)
    {
      var cells := SplitRow(lines[n], want, free);
      if cells.None? {
        BadRowStops(lines, want, free, n);
        return Err(BadCells(n + 2)), values;
      }
      OneMoreSplit(lines, want, free, n, values);
      rows := AddRow(rows, values, cells.value);
      values := values + [cells.value];
    }
    assert lines[..|lines|] == lines;
    return Ok(rows), values;
  }

  lemma {:induction false} BadRowStops(lines: seq<string>, want: nat, free: Option<nat>, n: nat)
    requires free.Some? ==> free.value < want
    requires n < |lines| && SplitRows(lines[..n], want, free).Ok? && SplitRow(lines[n], want, free).None?
    ensures SplitRows(lines, want, free) == Err(BadCells(n + 2))
    decreases |lines|
  {
    var m := |lines| - 1;
    if n < m {
      assert lines[..m][..n] == lines[..n];
      BadRowStops(lines[..m], want, free, n);
    }
  }

  method JoinCells(cells: array<string>, columns: seq<nat>) returns (line: string)
    requires forall i :: 0 <= i < |columns| ==> columns[i] < cells.Length
    ensures line == JoinColumns(cells[..], columns)
  {
    var projected: seq<string> := [];
    for n := 0 to |columns|
      invariant projected == Picked(cells[..], columns)[..n]
    {
      projected := projected + [cells[columns[n]]];
    }
    assert Picked(cells[..], columns)[..|columns|] == Picked(cells[..], columns);
    return Join(projected, ", ");
  }

  class Fake {
    const cfg: Config
    const ch: Chance
    const fluct: Fluctuator
    var drawn: map<Source, nat>

    ghost predicate Valid() { Accepted(cfg) && fluct.roll == ch.jitter }

    ghost function View(): Luck
      reads this, fluct
    {
      Luck(drawn, fluct.sources)
    }

    constructor (cfg: Config, ch: Chance)
      requires Accepted(cfg)
      ensures Valid() && this.cfg == cfg && this.ch == ch && View() == Luck(map[], map[]) && fresh(fluct)
    {
      this.cfg, this.ch := cfg, ch;
      drawn := map[];
      fluct := new Fluctuator(ch.jitter);
    }

    /** What a generator closure returns, its own source moved on. */
    method Generate(g: Gen) returns (value: string)
      modifies this`drawn
      ensures forall cells: seq<string>, column: nat :: column < |cells| ==>
                Stepped(cells[column := value], View()) == ServeCell(Stepped(cells, old(View())), column, g, ch)
    {
      match g {
        case Const(v) => value := v;
        case Draws(layer, field, _, _) =>
          var src := Source(layer, field);
          var k := if src in drawn then drawn[src] else 0;
          value := Serve(g, ch.gen(src, k), ch.shortest);
          drawn := drawn[src := k + 1];
      }
    }

    method ApplyOverrides(cells: array<string>, recorded: seq<string>, gens: map<string, Gen>)
      requires cells.Length == |recorded|
      modifies this`drawn, cells
      ensures Stepped(cells[..], View()) == Overridden(Stepped(old(cells[..]), old(View())), recorded, gens, ch, |recorded|)
      ensures FairChance(ch) ==> forall c :: 0 <= c < |recorded| ==>
                if recorded[c] in gens then ShowsOverride(cells[c], gens[recorded[c]], ch) else cells[c] == old(cells[c])
    {
      ghost var was := cells[..];
      ghost var start := Stepped(cells[..], View());
      for column := 0 to |recorded|
        invariant Stepped(cells[..], View()) == Overridden(start, recorded, gens, ch, column)
      {
        if recorded[column] in gens {
          ghost var before := cells[..];
          var value := Generate(gens[recorded[column]]);
          cells[column] := value;
          assert cells[..] == before[column := value];
        }
      }
      if FairChance(ch) {
        forall c | 0 <= c < |recorded|
          ensures if recorded[c] in gens then ShowsOverride(cells[..][c], gens[recorded[c]], ch) else cells[..][c] == was[c]
        {
          OverridesShow(start, recorded, gens, ch, |recorded|, c);
        }
      }
    }

    /** Identity, overrides, fluctuation, in place. */
    method TransformRow(cells: array<string>, gpu: nat, recorded: seq<string>)
      requires Valid() && gpu < Replicas(cfg) && cells.Length == |recorded|
      modifies this`drawn, fluct`sources, cells
      ensures Stepped(cells[..], View()) == StepOf(recorded, cfg, ch)(gpu, old(cells[..]), old(View()))
    {
      var columnOf := ColumnOf(recorded);
      if |cfg.gpus| > 0 {
        RewriteIdentity(cells, recorded, columnOf, cfg.gpus[gpu], gpu, |cfg.gpus|);
      }
      ApplyOverrides(cells, recorded, cfg.overrides[gpu]);
      if cfg.fluctuates {
        fluct.Apply(cells, recorded, columnOf, cfg.overrides[gpu].Keys);
      }
    }

    /** A row to edit: a clone with simulated GPUs, the recorded one without. */
    method Editable(row: array<string>) returns (cells: array<string>)
      ensures cells.Length == row.Length && cells[..] == row[..]
      ensures if |cfg.gpus| > 0 then fresh(cells) else cells == row
    {
      if |cfg.gpus| == 0 {
        return row;
      }
      cells := new string[row.Length](i reads row requires 0 <= i < row.Length => row[i]);
    }

    /** One row of a block: edited, in place or on a clone, and joined. */
    method TransformedLine(row: array<string>, gpu: nat, recorded: seq<string>, columns: seq<nat>)
      returns (line: string, ghost cells: seq<string>)
      requires Valid() && gpu < Replicas(cfg) && row.Length == |recorded|
      requires forall i :: 0 <= i < |columns| ==> columns[i] < |recorded|
      modifies this`drawn, fluct`sources, row
      ensures |cfg.gpus| > 0 ==> row[..] == old(row[..])
      ensures |cells| == |recorded| && line == JoinColumns(cells, columns)
      ensures Stepped(cells, View()) == StepOf(recorded, cfg, ch)(gpu, old(row[..]), old(View()))
    {
      var own := Editable(row);
      TransformRow(own, gpu, recorded);
      line := JoinCells(own, columns);
      cells := own[..];
    }

    /** One row appended to the output. */
    method AppendRow(output: seq<string>, row: array<string>, gpu: nat, recorded: seq<string>, columns: seq<nat>,
                     ghost head: string, ghost now: Table, ghost step: Step)
      returns (longer: seq<string>, ghost next: Table)
      requires Valid() && gpu < Replicas(cfg) && row.Length == |recorded| && step == StepOf(recorded, cfg, ch)
      requires now.luck == View() && Emitted(output, head, now.rows, columns, |recorded|)
      modifies this`drawn, fluct`sources, row
      ensures |cfg.gpus| > 0 ==> row[..] == old(row[..])
      ensures next == var s := step(gpu, old(row[..]), now.luck); Table(now.rows + [s.cells], s.luck)
      ensures next.luck == View() && Emitted(longer, head, next.rows, columns, |recorded|)
    {
      var line, cells := TransformedLine(row, gpu, recorded, columns);
      EmittedStep(output, head, now.rows, columns, |recorded|, cells);
      longer := output + [line];
      next := Table(now.rows + [cells], View());
    }

    /** The block's next row appended; the rows behind it stay as they are, and all of them where rows are cloned. */
    method AppendRowOf(output: seq<string>, rows: seq<array<string>>, n: nat, gpu: nat, recorded: seq<string>, columns: seq<nat>,
                       ghost values: seq<seq<string>>, ghost head: string, ghost before: Table, ghost now: Table, ghost step: Step)
      returns (longer: seq<string>, ghost next: Table)
      requires Valid() && gpu < Replicas(cfg) && n < |rows| && rows[n].Length == |recorded| && step == StepOf(recorded, cfg, ch)
      requires Separate(rows) && HoldFrom(rows, values, |cfg.gpus| > 0, n) && now == Block(before, values, gpu, step, n)
      requires now.luck == View() && Emitted(output, head, now.rows, columns, |recorded|)
      modifies this`drawn, fluct`sources, rows[n]
      ensures HoldFrom(rows, values, |cfg.gpus| > 0, n + 1)
      ensures next == Block(before, values, gpu, step, n + 1)
      ensures next.luck == View() && Emitted(longer, head, next.rows, columns, |recorded|)
    {
      OneMoreRow(before, values, gpu, step, n, now);
      longer, next := AppendRow(output, rows[n], gpu, recorded, columns, head, now, step);
      forall k | 0 <= k < |rows| && (|cfg.gpus| > 0 || k > n)
        ensures rows[k][..] == values[k]
      {
        assert k != n ==> rows[k] != rows[n];
      }
    }

    /**
     transformRows: appends one simulated GPU's block. With simulated GPUs every block starts from the recorded rows, for
     each row is cloned before it is edited.
     */
    method TransformRows(output: seq<string>, rows: seq<array<string>>, gpu: nat, recorded: seq<string>, columns: seq<nat>,
                         ghost values: seq<seq<string>>, ghost head: string, ghost before: Table, ghost step: Step)
      returns (longer: seq<string>)
      requires step == StepOf(recorded, cfg, ch)
      requires Valid() && gpu < Replicas(cfg) && Separate(rows) && Hold(rows, values) && before.luck == View()
      requires forall k :: 0 <= k < |rows| ==> rows[k].Length == |recorded|
      requires Emitted(output, head, before.rows, columns, |recorded|)
      modifies this`drawn, fluct`sources, set r | r in rows
      ensures |cfg.gpus| > 0 ==> Hold(rows, values)
      ensures var after := Block(before, values, gpu, step, |rows|);
              after.luck == View() && Emitted(longer, head, after.rows, columns, |recorded|)
    {
      longer := output;
      ghost var now := before;
      for n := 0 to |rows|
        invariant HoldFrom(rows, values, |cfg.gpus| > 0, n)
        invariant now == Block(before, values, gpu, step, n)
        invariant now.luck == View() && Emitted(longer, head, now.rows, columns, |recorded|)
      {
        assert rows[n] in rows;
        longer, now := AppendRowOf(longer, rows, n, gpu, recorded, columns, values, head, before, now, step);
      }
    }

    /** All simulated GPUs' blocks, one after the other. */
    method TransformAll(rows: seq<array<string>>, recorded: seq<string>, columns: seq<nat>, head: string, ghost values: seq<seq<string>>)
      returns (output: seq<string>)
      requires Valid() && Separate(rows) && Hold(rows, values)
      requires forall k :: 0 <= k < |rows| ==> rows[k].Length == |recorded|
      requires forall i :: 0 <= i < |columns| ==> columns[i] < |recorded|
      modifies this`drawn, fluct`sources, set r | r in rows
      ensures var all := Blocks(old(View()), values, StepOf(recorded, cfg, ch), Replicas(cfg));
              all.luck == View() && Emitted(output, head, all.rows, columns, |recorded|)
    {
      output := [head];
      ghost var now, start, step := Table([], View()), View(), StepOf(recorded, cfg, ch);
      for gpu := 0 to Replicas(cfg)
        invariant gpu == 0 || |cfg.gpus| > 0 ==> Hold(rows, values)
        invariant now == Blocks(start, values, step, gpu)
        invariant now.luck == View() && Emitted(output, head, now.rows, columns, |recorded|)
      {
        output := TransformRows(output, rows, gpu, recorded, columns, values, head, now, step);
        now := Block(now, values, gpu, step, |rows|);
      }
    }

    /** project: either one of the section's faults, noticed before anything is drawn, or the whole answer. */
    method Project(section: Section, request: string) returns (r: Result<string, ProjectError>)
      requires Valid()
      modifies this`drawn, fluct`sources
      ensures Contents(section, request).Err? ==> r == Err(Contents(section, request).error) && View() == old(View())
      ensures Contents(section, request).Ok? ==>
                var c := Contents(section, request).value;
                && r == Ok(Join(Answer(c, old(View()), cfg, ch), "\n"))
                && View() == Transformed(c, old(View()), cfg, ch).luck
    {
      var recorded := ParseRecordedFields(section.command);
      if recorded.Err? {
        return Err(recorded.error);
      }
      var columnOf := ColumnOf(recorded.value);
      var columns := RequestedColumns(request, columnOf);
      if columns.Err? {
        return Err(columns.error);
      }
      var lines := Split(section.body, '\n');
      if lines[0] == "" {
        return Err(EmptySection);
      }
      var header := SplitRow(lines[0], |recorded.value|, None);
      if header.None? {
        return Err(BadCells(1));
      }
      var rows, values := SplitDataRows(lines[1..], |recorded.value|, FreeColumn(columnOf));
      if rows.Err? {
        return Err(rows.error);
      }
      var output := TransformAll(rows.value, recorded.value, columns.value, JoinColumns(header.value, columns.value), values);
      return Ok(Join(output, "\n"));
    }
  }

  /** The output so far: the header's line and one line per transformed row. */
  ghost predicate Emitted(output: seq<string>, head: string, rows: seq<seq<string>>, columns: seq<nat>, width: nat) {
    && (forall i :: 0 <= i < |columns| ==> columns[i] < width)
    && Wide(rows, width)
    && output == [head] + Lined(rows, columns, width)
  }

  lemma EmittedStep(output: seq<string>, head: string, rows: seq<seq<string>>, columns: seq<nat>, width: nat, cells: seq<string>)
    requires Emitted(output, head, rows, columns, width) && |cells| == width
    ensures Emitted(output + [JoinColumns(cells, columns)], head, rows + [cells], columns, width)
  {
    var longer := Lined(rows + [cells], columns, width);
    assert longer == Lined(rows, columns, width) + [JoinColumns(cells, columns)];
  }
}
