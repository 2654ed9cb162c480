/**
 How a fake nvidia-smi answers a CSV query from a recorded section: the requested columns of every row, each row passed
 through identity, overrides and fluctuation for every simulated GPU. Draws come from numbered sources.
 */
module Projection {
  import opened Basics
  import opened Text
  import opened Fluctuator
  import opened Identity
  import opened Overrides

  const FREE_TEXT := "process_name"

  datatype ProjectError =
    | EmptyFieldName | NoFieldList | UnknownField(name: string) | EmptySection | BadCells(row: nat)

  // ---------------------------------------------------------------- the recorded command

  function WordEnd(s: string): (k: nat)
    ensures k <= |s| && (s != "" && !IsSpace(s[0]) ==> k > 0)
  {
    if s == "" || IsSpace(s[0]) then 0 else 1 + WordEnd(s[1..])
  }

  /** strings.Fields: the maximal runs of non-blanks. */
  function Words(s: string): seq<string>
    decreases |s|
  {
    var t := TrimLeft(s);
    TrimLeftShrinks(s);
    if t == "" then []
    else [t[..WordEnd(t)]] + Words(t[WordEnd(t)..])
  }

  lemma TrimLeftShrinks(s: string)
    ensures |TrimLeft(s)| <= |s|
    ensures TrimLeft(s) != "" ==> !IsSpace(TrimLeft(s)[0])
  {
    var k := TrimLeftAt(s);
  }

  /** What follows the first equals sign. */
  function AfterEquals(token: string): Option<string> {
    if token == "" then None else if token[0] == '=' then Some(token[1..]) else AfterEquals(token[1..])
  }

  predicate IsQuery(token: string) {
    AfterEquals(token).Some? && "--query-" <= token && !("--format" <= token)
  }

  function FieldsNamed(value: string): Result<seq<string>, ProjectError> {
    var fields := Split(value, ',');
    if exists i :: 0 <= i < |fields| && Trim(fields[i]) == "" then Err(EmptyFieldName) else Ok(fields)
  }

  function FirstQuery(tokens: seq<string>): Result<seq<string>, ProjectError> {
    if tokens == [] then Err(NoFieldList)
    else if IsQuery(tokens[0]) then FieldsNamed(AfterEquals(tokens[0]).value)
    else FirstQuery(tokens[1..])
  }

  /** recordedFields. */
  function RecordedFields(command: string): Result<seq<string>, ProjectError> { FirstQuery(Words(command)) }

  predicate OneWord(s: string) { s != "" && forall i :: 0 <= i < |s| ==> !IsSpace(s[i]) }

  lemma {:induction false} WordEnds(a: string, b: string)
    requires forall i :: 0 <= i < |a| ==> !IsSpace(a[i])
    ensures WordEnd(a + " " + b) == |a|
    decreases |a|
  {
    if a != "" {
      assert (a + " " + b)[1..] == a[1..] + " " + b;
      WordEnds(a[1..], b);
    }
  }

  lemma FirstWord(a: string, b: string)
    requires OneWord(a)
    ensures Words(a + " " + b) == [a] + Words(" " + b)
  {
    var s := a + " " + b;
    assert s[0] == a[0];
    WordEnds(a, b);
    assert s[..|a|] == a && s[|a|..] == " " + b;
  }

  lemma BlankAside(s: string)
    ensures Words(" " + s) == Words(s)
  {
    assert (" " + s)[1..] == s;
  }

  lemma {:induction false} EqualsFirst(a: string, b: string)
    requires '=' !in a
    ensures AfterEquals(a + "=" + b) == Some(b)
    decreases |a|
  {
    if a == "" {
      assert ("" + "=" + b)[1..] == b;
    } else {
      assert (a + "=" + b)[1..] == a[1..] + "=" + b;
      EqualsFirst(a[1..], b);
    }
  }

  lemma QueryIs(front: string, value: string)
    requires '=' !in front && "--query-" <= front
    ensures var query := front + "=" + value; IsQuery(query) && AfterEquals(query) == Some(value)
  {
    var query := front + "=" + value;
    EqualsFirst(front, value);
    assert query[..|front|] == front && "--query-"[2] == 'q' && query[2] == 'q';
    assert query[..8] == front[..8] == "--query-";
  }

  lemma FieldsAreNamed(fields: seq<string>)
    requires fields != [] && forall i :: 0 <= i < |fields| ==> ',' !in fields[i]
    ensures FieldsNamed(Join(fields, ","))
            == if exists i :: 0 <= i < |fields| && Trim(fields[i]) == "" then Err(EmptyFieldName) else Ok(fields)
  {
    SplitJoin(fields, ',');
  }

  lemma SecondToken(tool: string, query: string, tokens: seq<string>)
    requires tokens != [] && tokens[0] == query && IsQuery(query) && !IsQuery(tool)
    ensures FirstQuery([tool] + tokens) == FieldsNamed(AfterEquals(query).value)
  {
    assert ([tool] + tokens)[1..] == tokens;
  }

  /** A recorded query command names its fields: those behind the query's equals sign, an empty one being an error. */
  lemma RecordedCommandNames(tool: string, front: string, value: string, fields: seq<string>, rest: string)
    requires OneWord(tool) && !("--query-" <= tool) && '=' !in front && "--query-" <= front
    requires value == Join(fields, ",") && fields != [] && forall i :: 0 <= i < |fields| ==> ',' !in fields[i]
    requires OneWord(front + "=" + value)
    ensures RecordedFields(tool + " " + (front + "=" + value + " " + rest))
            == if exists i :: 0 <= i < |fields| && Trim(fields[i]) == "" then Err(EmptyFieldName) else Ok(fields)
  {
    var query := front + "=" + value;
    FirstWord(tool, query + " " + rest);
    BlankAside(query + " " + rest);
    FirstWord(query, rest);
    QueryIs(front, value);
    SecondToken(tool, query, Words(query + " " + rest));
    FieldsAreNamed(fields);
  }

  /** The column of every recorded name; of a repeated name the last. */
  function ColumnOf(recorded: seq<string>): (m: map<string, nat>)
    ensures Names(m, recorded) && forall f :: f in m <==> f in recorded
    decreases |recorded|
  {
    if recorded == [] then map[]
    else
      var n := |recorded| - 1;
      var earlier := ColumnOf(recorded[..n]);
      assert forall f :: f in recorded <==> f in recorded[..n] || f == recorded[n];
      earlier[recorded[n] := n]
  }

  /** requestedColumns. */
  function Requested(names: seq<string>, columnOf: map<string, nat>): (r: Result<seq<nat>, ProjectError>)
    ensures r.Ok? <==> forall i :: 0 <= i < |names| ==> Trim(names[i]) in columnOf
    ensures r.Ok? ==> |r.value| == |names| && forall i :: 0 <= i < |names| ==> r.value[i] == columnOf[Trim(names[i])]
    decreases |names|
  {
    if names == [] then Ok([])
    else
      var n := |names| - 1;
      var earlier := Requested(names[..n], columnOf);
      if earlier.Err? then earlier
      else if Trim(names[n]) !in columnOf then Err(UnknownField(names[n]))
      else Ok(earlier.value + [columnOf[Trim(names[n])]])
  }

  // ---------------------------------------------------------------- the recorded rows

  /** One cell of a split row before trimming: the free-text column takes the extra pieces with their commas. */
  function RawCell(raw: seq<string>, want: nat, free: Option<nat>, c: nat): string
    requires c < want <= |raw| && (free.Some? ==> free.value < want)
  {
    var extra := |raw| - want;
    if free.Some? && c == free.value then Join(raw[c..c + extra + 1], ",")
    else if free.Some? && c > free.value then raw[c + extra]
    else raw[c]
  }

  /** splitRow: exactly `want` trimmed cells; extra commas belong to the free-text column, if there is one. */
  function SplitRow(row: string, want: nat, free: Option<nat>): (r: Option<seq<string>>)
    requires free.Some? ==> free.value < want
    ensures r.Some? ==> |r.value| == want
    ensures r.Some? <==> |Split(row, ',')| == want || (|Split(row, ',')| > want && free.Some?)
  {
    var raw := Split(row, ',');
    if |raw| != want && (|raw| < want || free.None?) then None
    else Some(seq(want, c requires 0 <= c < want => Trim(RawCell(raw, want, free, c))))
  }

  function FreeColumn(columnOf: map<string, nat>): Option<nat> {
    if FREE_TEXT in columnOf then Some(columnOf[FREE_TEXT]) else None
  }

  /** splitDataRows. */
  function SplitRows(lines: seq<string>, want: nat, free: Option<nat>): (r: Result<seq<seq<string>>, ProjectError>)
    requires free.Some? ==> free.value < want
    ensures r.Ok? ==> |r.value| == |lines| && forall i :: 0 <= i < |lines| ==> SplitRow(lines[i], want, free) == Some(r.value[i])
    ensures r.Ok? <==> forall i :: 0 <= i < |lines| ==> SplitRow(lines[i], want, free).Some?
    decreases |lines|
  {
    if lines == [] then Ok([])
    else
      var n := |lines| - 1;
      var earlier := SplitRows(lines[..n], want, free);
      if earlier.Err? then earlier
      else
        var cells := SplitRow(lines[n], want, free);
        if cells.None? then Err(BadCells(n + 2)) else Ok(earlier.value + [cells.value])
  }

  // ---------------------------------------------------------------- the pipeline

  datatype Source = Source(layer: Layer, field: string)

  datatype Config = Config(gpus: seq<Id>, overrides: seq<map<string, Gen>>, fluctuates: bool)

  /** buildOverrides returns exactly one map per replica, and the bus byte bounds the replicas. */
  predicate Accepted(cfg: Config) {
    && |cfg.gpus| <= MAX_GPUS
    && |cfg.overrides| == Replicas(cfg)
  }

  function Replicas(cfg: Config): nat { if |cfg.gpus| > 1 then |cfg.gpus| else 1 }

  /** Every draw there will ever be, and the shortest text of a number. */
  datatype Chance = Chance(gen: (Source, nat) -> real, jitter: Roll, shortest: Shortest)

  ghost predicate FairChance(ch: Chance) {
    Fair(ch.jitter) && Tidy(ch.shortest) && forall s, n :: 0.0 <= ch.gen(s, n) < 1.0
  }

  /** How far every source has been drawn. */
  datatype Luck = Luck(gens: map<Source, nat>, dice: Dice)

  datatype Stepped = Stepped(cells: seq<string>, luck: Luck)

  function GenDraws(luck: Luck, s: Source): nat { if s in luck.gens then luck.gens[s] else 0 }

  /** A cell served by a generator. */
  function ServeCell(s: Stepped, column: nat, g: Gen, ch: Chance): (r: Stepped)
    requires column < |s.cells|
    ensures |r.cells| == |s.cells|
  {
    match g
    case Const(value) => s.(cells := s.cells[column := value])
    case Draws(layer, field, _, _) =>
      var src := Source(layer, field);
      var k := GenDraws(s.luck, src);
      Stepped(s.cells[column := Serve(g, ch.gen(src, k), ch.shortest)], s.luck.(gens := s.luck.gens[src := k + 1]))
  }

  /** applyOverrides over the first n columns. */
  function Overridden(s: Stepped, recorded: seq<string>, gens: map<string, Gen>, ch: Chance, n: nat): (r: Stepped)
    requires n <= |recorded| == |s.cells|
    ensures |r.cells| == |s.cells|
    decreases n
  {
    if n == 0 then s
    else
      var earlier := Overridden(s, recorded, gens, ch, n - 1);
      if recorded[n - 1] in gens then ServeCell(earlier, n - 1, gens[recorded[n - 1]], ch) else earlier
  }

  /** The cell is served by a range: some draw of the range's own source, shown as a value within it. */
  ghost predicate Ranged(cell: string, g: Gen, ch: Chance)
    requires g.Draws?
  {
    exists k: nat :: ShowsDraw(cell, g.low, g.high, ch.gen(Source(g.layer, g.field), k), ch.shortest)
  }

  /** What an overridden cell shows: its constant, or a value of its range. */
  ghost predicate ShowsOverride(cell: string, g: Gen, ch: Chance) {
    match g
    case Const(value) => cell == value
    case Draws(_, _, low, high) => low <= high ==> Ranged(cell, g, ch)
  }

  lemma CellShows(s: Stepped, column: nat, g: Gen, ch: Chance)
    requires column < |s.cells| && FairChance(ch)
    ensures ShowsOverride(ServeCell(s, column, g, ch).cells[column], g, ch)
  {
    if g.Draws? && g.low <= g.high {
      var k := GenDraws(s.luck, Source(g.layer, g.field));
      var u := ch.gen(Source(g.layer, g.field), k);
      ServesWithin(g, u, ch.shortest);
      assert ServeCell(s, column, g, ch).cells[column] == Serve(g, u, ch.shortest);
    }
  }

  /** Every overridden column shows its override, and no other column changes. */
  lemma {:induction false} OverridesShow(s: Stepped, recorded: seq<string>, gens: map<string, Gen>, ch: Chance, n: nat, c: nat)
    requires n <= |recorded| == |s.cells| && c < |recorded| && FairChance(ch)
    ensures var cell := Overridden(s, recorded, gens, ch, n).cells[c];
            if c < n && recorded[c] in gens then ShowsOverride(cell, gens[recorded[c]], ch) else cell == s.cells[c]
    decreases n
  {
    if n > 0 {
      OverridesShow(s, recorded, gens, ch, n - 1, c);
      if c == n - 1 && recorded[c] in gens {
        CellShows(Overridden(s, recorded, gens, ch, n - 1), c, gens[recorded[c]], ch);
      }
    }
  }

  /** One row for one simulated GPU. */
  function RowStep(cells: seq<string>, luck: Luck, gpu: nat, recorded: seq<string>, cfg: Config, ch: Chance): (r: Stepped)
    requires Accepted(cfg) && gpu < Replicas(cfg) && |cells| == |recorded|
    ensures |r.cells| == |cells|
  {
    var columnOf := ColumnOf(recorded);
    var own := if |cfg.gpus| > 0 then Stamped(cells, recorded, columnOf, cfg.gpus[gpu], gpu, |cfg.gpus|) else cells;
    var served := Overridden(Stepped(own, luck), recorded, cfg.overrides[gpu], ch, |recorded|);
    if !cfg.fluctuates then served
    else
      var shaken := Applied(Shaken(served.cells, served.luck.dice), recorded, columnOf, cfg.overrides[gpu].Keys, ch.jitter);
      Stepped(shaken.cells, served.luck.(dice := shaken.dice))
  }

  /** The transformation of one simulated GPU's row, as a value. */
  type Step = (nat, seq<string>, Luck) -> Stepped

  function StepOf(recorded: seq<string>, cfg: Config, ch: Chance): Step {
    (gpu: nat, cells, luck) =>
      if Accepted(cfg) && gpu < Replicas(cfg) && |cells| == |recorded| then RowStep(cells, luck, gpu, recorded, cfg, ch)
      else Stepped(cells, luck)
  }

  ghost predicate KeepsWidth(step: Step) {
    forall gpu: nat, cells, luck {:trigger step(gpu, cells, luck)} :: |step(gpu, cells, luck).cells| == |cells|
  }

  lemma StepsKeepWidth(recorded: seq<string>, cfg: Config, ch: Chance)
    ensures KeepsWidth(StepOf(recorded, cfg, ch))
  {
  }

  datatype Table = Table(rows: seq<seq<string>>, luck: Luck)

  /** The first n rows of one simulated GPU's block, behind what came before. */
  function Block(before: Table, rows: seq<seq<string>>, gpu: nat, step: Step, n: nat): (r: Table)
    requires n <= |rows|
    ensures |r.rows| == |before.rows| + n
    decreases n
  {
    if n == 0 then before
    else
      var earlier := Block(before, rows, gpu, step, n - 1);
      var next := step(gpu, rows[n - 1], earlier.luck);
      Table(earlier.rows + [next.cells], next.luck)
  }

  lemma OneMoreRow(before: Table, rows: seq<seq<string>>, gpu: nat, step: Step, n: nat, now: Table)
    requires n < |rows| && now == Block(before, rows, gpu, step, n)
    ensures var next := step(gpu, rows[n], now.luck);
            Block(before, rows, gpu, step, n + 1) == Table(now.rows + [next.cells], next.luck)
  {
  }

  /** The blocks of the first g simulated GPUs. */
  function Blocks(luck: Luck, rows: seq<seq<string>>, step: Step, g: nat): Table
    decreases g
  {
    if g == 0 then Table([], luck) else Block(Blocks(luck, rows, step, g - 1), rows, g - 1, step, |rows|)
  }

  lemma {:induction false} BlocksCount(luck: Luck, rows: seq<seq<string>>, step: Step, g: nat)
    ensures |Blocks(luck, rows, step, g).rows| == g * |rows|
    decreases g
  {
    if g > 0 {
      BlocksCount(luck, rows, step, g - 1);
      assert g * |rows| == (g - 1) * |rows| + |rows|;
    }
  }

  ghost predicate Wide(rows: seq<seq<string>>, width: nat) { forall i :: 0 <= i < |rows| ==> |rows[i]| == width }

  lemma {:induction false} BlockWidths(before: Table, rows: seq<seq<string>>, gpu: nat, step: Step, n: nat, width: nat)
    requires n <= |rows| && KeepsWidth(step) && Wide(rows, width) && Wide(before.rows, width)
    ensures Wide(Block(before, rows, gpu, step, n).rows, width)
    decreases n
  {
    if n > 0 {
      BlockWidths(before, rows, gpu, step, n - 1, width);
    }
  }

  lemma {:induction false} BlocksWidths(luck: Luck, rows: seq<seq<string>>, step: Step, g: nat, width: nat)
    requires KeepsWidth(step) && Wide(rows, width)
    ensures Wide(Blocks(luck, rows, step, g).rows, width)
    decreases g
  {
    if g > 0 {
      BlocksWidths(luck, rows, step, g - 1, width);
      BlockWidths(Blocks(luck, rows, step, g - 1), rows, g - 1, step, |rows|, width);
    }
  }

  /** joinColumns: the requested columns of one row. */
  function Picked(cells: seq<string>, columns: seq<nat>): (r: seq<string>)
    requires forall i :: 0 <= i < |columns| ==> columns[i] < |cells|
    ensures |r| == |columns|
  {
    seq(|columns|, i requires 0 <= i < |columns| => cells[columns[i]])
  }

  function JoinColumns(cells: seq<string>, columns: seq<nat>): string
    requires forall i :: 0 <= i < |columns| ==> columns[i] < |cells|
  {
    Join(Picked(cells, columns), ", ")
  }

  function Lined(rows: seq<seq<string>>, columns: seq<nat>, width: nat): (lines: seq<string>)
    requires forall i :: 0 <= i < |columns| ==> columns[i] < width
    requires Wide(rows, width)
    ensures |lines| == |rows|
  {
    seq(|rows|, i requires 0 <= i < |rows| => JoinColumns(rows[i], columns))
  }

  datatype Section = Section(command: string, body: string)

  /** What a section holds: its fields, its header and its data rows. */
  datatype Content = Content(recorded: seq<string>, columns: seq<nat>, header: seq<string>, rows: seq<seq<string>>)

  ghost predicate Regular(c: Content) {
    && |c.header| == |c.recorded|
    && Wide(c.rows, |c.recorded|)
    && (forall i :: 0 <= i < |c.columns| ==> c.columns[i] < |c.recorded|)
  }

  /** Everything that can go wrong with a request, in the order it is noticed. */
  function Contents(section: Section, request: string): (r: Result<Content, ProjectError>)
    ensures r.Ok? ==> Regular(r.value) && |r.value.columns| == |Split(request, ',')|
  {
    var recorded := RecordedFields(section.command);
    if recorded.Err? then Err(recorded.error)
    else
      var columnOf := ColumnOf(recorded.value);
      var columns := Requested(Split(request, ','), columnOf);
      if columns.Err? then Err(columns.error)
      else
        var lines := Split(section.body, '\n');
        var width := |recorded.value|;
        if lines[0] == "" then Err(EmptySection)
        else
          var header := SplitRow(lines[0], width, None);
          if header.None? then Err(BadCells(1))
          else
            var rows := SplitRows(lines[1..], width, FreeColumn(columnOf));
            if rows.Err? then Err(rows.error)
            else Ok(Content(recorded.value, columns.value, header.value, rows.value))
  }

  /** The transformed rows of an answer, block by block. */
  function Transformed(c: Content, luck: Luck, cfg: Config, ch: Chance): (t: Table)
    requires Regular(c)
    ensures Wide(t.rows, |c.recorded|) && |t.rows| == Replicas(cfg) * |c.rows|
  {
    var step := StepOf(c.recorded, cfg, ch);
    StepsKeepWidth(c.recorded, cfg, ch);
    BlocksWidths(luck, c.rows, step, Replicas(cfg), |c.recorded|);
    BlocksCount(luck, c.rows, step, Replicas(cfg));
    Blocks(luck, c.rows, step, Replicas(cfg))
  }

  /** The lines of an answer. */
  function Answer(c: Content, luck: Luck, cfg: Config, ch: Chance): (lines: seq<string>)
    requires Regular(c)
    ensures |lines| == 1 + Replicas(cfg) * |c.rows|
  {
    [JoinColumns(c.header, c.columns)] + Lined(Transformed(c, luck, cfg, ch).rows, c.columns, |c.recorded|)
  }
}
