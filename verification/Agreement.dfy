/** The fake's answers against the exporter's parsers, through the whole pipeline of identity, overrides and jitter. */
module Agreement {
  import opened Basics
  import opened Text
  import opened Numerals
  import opened Decimals
  import Csv
  import opened Fluctuation
  import opened Fluctuator
  import opened Identity
  import opened Overrides
  import opened Projection
  import opened RoundTrip
  import opened Projector

  // ---------------------------------------------------------------- cells CSV can carry

  predicate SafeCell(s: string) { ',' !in s && '\n' !in s }

  /** The configuration as its validation leaves it: clean identities and clean fixed values. */
  ghost predicate CleanConfig(cfg: Config) {
    && Accepted(cfg)
    && (forall g :: 0 <= g < |cfg.gpus| ==> CleanId(cfg.gpus[g]))
    && (forall g, f :: 0 <= g < |cfg.overrides| && f in cfg.overrides[g] && cfg.overrides[g][f].Const? ==>
          Clean(cfg.overrides[g][f].value))
  }

  lemma TrimSafe(s: string)
    requires SafeCell(s)
    ensures SafeCell(Trim(s))
  {
    TrimSubset(s, ',');
    TrimSubset(s, '\n');
  }

  /** Without a free-text column, the cells of a recorded line are safe. */
  lemma SplitRowSafe(row: string, want: nat)
    requires '\n' !in row && SplitRow(row, want, None).Some?
    ensures Safe(SplitRow(row, want, None).value)
  {
    SplitClean(row, ',');
    var raw, cells := Split(row, ','), SplitRow(row, want, None).value;
    forall c | 0 <= c < want
      ensures SafeCell(cells[c])
    {
      TrimSafe(raw[c]);
    }
  }

  lemma DecimalSafe(n: int)
    ensures SafeCell(Decimal(n))
  {
    DecimalIsClean(n);
  }

  lemma BusIdSafe(captured: string, bus: nat)
    requires bus < 256 && SafeCell(captured)
    ensures SafeCell(RewriteBusId(captured, bus))
  {
    SplitClean(captured, ':');
    HexByteIsHex(bus);
    var parts := Split(captured, ':');
    if |parts| == 3 {
      assert SafeCell(parts[0]) && SafeCell(parts[2]);
    }
  }

  lemma StampSafe(field: string, cell: string, id: Id, index: nat, total: nat)
    requires index < MAX_GPUS && CleanId(id) && SafeCell(cell)
    ensures SafeCell(Stamp(field, cell, id, index, total))
  {
    DecimalSafe(index);
    DecimalSafe(total);
    HexByteIsHex(index + 1);
    BusIdSafe(cell, index + 1);
  }

  lemma {:induction false} OverriddenSafe(s: Stepped, recorded: seq<string>, gens: map<string, Gen>, ch: Chance, n: nat)
    requires n <= |recorded| == |s.cells| && Safe(s.cells) && Tidy(ch.shortest)
    requires forall f :: f in gens && gens[f].Const? ==> Clean(gens[f].value)
    ensures Safe(Overridden(s, recorded, gens, ch, n).cells)
    decreases n
  {
    if n > 0 {
      OverriddenSafe(s, recorded, gens, ch, n - 1);
      if recorded[n - 1] in gens {
        ServedSafe(Overridden(s, recorded, gens, ch, n - 1), n - 1, gens[recorded[n - 1]], ch);
      }
    }
  }

  lemma ServedSafe(s: Stepped, column: nat, g: Gen, ch: Chance)
    requires column < |s.cells| && Safe(s.cells) && Tidy(ch.shortest) && (g.Const? ==> Clean(g.value))
    ensures Safe(ServeCell(s, column, g, ch).cells)
  {
    if g.Draws? {
      var k := GenDraws(s.luck, Source(g.layer, g.field));
      ServeSafe(g, ch.gen(Source(g.layer, g.field), k), ch.shortest);
    }
  }

  lemma ServeSafe(g: Gen, u: real, shortest: Shortest)
    requires g.Draws? && Tidy(shortest)
    ensures SafeCell(Serve(g, u, shortest))
  {
    var v := g.low + u * (g.high - g.low);
    DecimalSafe(RoundAway(v));
    assert Clean(shortest(v));
  }

  lemma DigitsSafe(s: string)
    requires Digits(s)
    ensures SafeCell(s)
  {
  }

  lemma PrintSafe(m: nat, d: nat)
    ensures SafeCell(Print(m, d))
  {
    var whole, fraction := PrintReads(m, d);
    DigitsSafe(whole);
    DigitsSafe(fraction);
    assert Print(m, d) == "" + whole + if fraction == "" then "" else "." + fraction;
  }

  lemma RewriteSafe(cell: string, v: real)
    requires ParseNumeric(cell).Some? && SafeCell(cell)
    ensures SafeCell(Rewrite(ParseNumeric(cell).value, v))
  {
    var c := ParseNumeric(cell).value;
    assert c.suffix == cell[PrefixEnd(cell)..];
    if v < 0.0 {
      PrintSafe(Nearest(-v, c.number.decimals), c.number.decimals);
    } else {
      PrintSafe(Nearest(v, c.number.decimals), c.number.decimals);
    }
  }

  lemma {:induction false} ShakeSafe(s: Shaken, recorded: seq<string>, moving: seq<string>, overridden: set<string>, roll: Roll, n: nat)
    requires n <= |recorded| == |s.cells| && Safe(s.cells)
    ensures Safe(Shake(s, recorded, moving, overridden, roll, n).cells)
    decreases n
  {
    if n > 0 {
      ShakeSafe(s, recorded, moving, overridden, roll, n - 1);
      var earlier := Shake(s, recorded, moving, overridden, roll, n - 1);
      var c := ParseNumeric(earlier.cells[n - 1]);
      if c.Some? {
        RewriteSafe(earlier.cells[n - 1], Jitter(c.value, roll(recorded[n - 1], Drawn(earlier.dice, recorded[n - 1]))));
      }
    }
  }

  lemma CapUsedSafe(cells: seq<string>, columnOf: map<string, nat>, value: real)
    requires Safe(cells) && NumericAt(cells, columnOf, USED).Some?
    ensures Safe(CapUsed(cells, columnOf, value))
  {
    RewriteSafe(cells[columnOf[USED]], value);
  }

  lemma FillFreeSafe(cells: seq<string>, columnOf: map<string, nat>, overridden: set<string>, left: real)
    requires Safe(cells)
    ensures Safe(FillFree(cells, columnOf, overridden, left))
  {
    if NumericAt(cells, columnOf, FREE).Some? {
      RewriteSafe(cells[columnOf[FREE]], left);
    }
  }

  lemma CapThenFillSafe(cells: seq<string>, columnOf: map<string, nat>, overridden: set<string>, value: real, left: real)
    requires Safe(cells) && NumericAt(cells, columnOf, USED).Some?
    ensures Safe(FillFree(CapUsed(cells, columnOf, value), columnOf, overridden, left))
  {
    CapUsedSafe(cells, columnOf, value);
    FillFreeSafe(CapUsed(cells, columnOf, value), columnOf, overridden, left);
  }

  lemma SettleSafe(cells: seq<string>, columnOf: map<string, nat>, overridden: set<string>, used: real, capacity: real)
    requires Safe(cells) && NumericAt(cells, columnOf, USED).Some?
    ensures Safe(Settle(cells, columnOf, overridden, used, capacity))
  {
    CapThenFillSafe(cells, columnOf, overridden, Min(used, capacity), Max(capacity - Min(used, capacity), 0.0));
  }

  lemma ReconcileSafe(cells: seq<string>, columnOf: map<string, nat>, overridden: set<string>)
    requires Safe(cells)
    ensures Safe(Reconcile(cells, columnOf, overridden))
  {
    var used, total := NumericAt(cells, columnOf, USED), NumericAt(cells, columnOf, TOTAL);
    if USED !in overridden && used.Some? && total.Some? {
      SettleSafe(cells, columnOf, overridden, used.value.number.Value(), Capacity(total.value, NumericAt(cells, columnOf, RESERVED)));
    }
  }

  /** A row stays safe through the whole pipeline. */
  lemma RowStepSafe(cells: seq<string>, luck: Luck, gpu: nat, recorded: seq<string>, cfg: Config, ch: Chance)
    requires CleanConfig(cfg) && FairChance(ch) && gpu < Replicas(cfg) && |cells| == |recorded| && Safe(cells)
    ensures Safe(RowStep(cells, luck, gpu, recorded, cfg, ch).cells)
  {
    var columnOf := ColumnOf(recorded);
    var own := cells;
    if |cfg.gpus| > 0 {
      own := Stamped(cells, recorded, columnOf, cfg.gpus[gpu], gpu, |cfg.gpus|);
      StampedSafe(cells, recorded, columnOf, cfg.gpus[gpu], gpu, |cfg.gpus|);
    }
    OverriddenSafe(Stepped(own, luck), recorded, cfg.overrides[gpu], ch, |recorded|);
    var served := Overridden(Stepped(own, luck), recorded, cfg.overrides[gpu], ch, |recorded|);
    var s := Shaken(served.cells, served.luck.dice);
    ShakeSafe(s, recorded, MOVING, cfg.overrides[gpu].Keys, ch.jitter, |recorded|);
    ReconcileSafe(Shake(s, recorded, MOVING, cfg.overrides[gpu].Keys, ch.jitter, |recorded|).cells, columnOf, cfg.overrides[gpu].Keys);
  }

  lemma StampedSafe(cells: seq<string>, recorded: seq<string>, columnOf: map<string, nat>, id: Id, index: nat, total: nat)
    requires |cells| == |recorded| && index < MAX_GPUS && CleanId(id) && Safe(cells)
    ensures Safe(Stamped(cells, recorded, columnOf, id, index, total))
  {
    forall c | 0 <= c < |cells|
      ensures SafeCell(Stamped(cells, recorded, columnOf, id, index, total)[c])
    {
      StampSafe(recorded[c], cells[c], id, index, total);
    }
  }

  // ---------------------------------------------------------------- where a row of an answer comes from

  lemma {:induction false} BlockGrows(before: Table, rows: seq<seq<string>>, gpu: nat, step: Step, m: nat, n: nat, k: nat)
    requires m <= n <= |rows| && k < |before.rows| + m
    ensures Block(before, rows, gpu, step, n).rows[k] == Block(before, rows, gpu, step, m).rows[k]
    decreases n
  {
    if m < n {
      BlockGrows(before, rows, gpu, step, m, n - 1, k);
    }
  }

  lemma {:induction false} BlocksGrow(luck: Luck, rows: seq<seq<string>>, step: Step, m: nat, n: nat, k: nat)
    requires m <= n && k < |Blocks(luck, rows, step, m).rows|
    ensures k < |Blocks(luck, rows, step, n).rows|
    ensures Blocks(luck, rows, step, n).rows[k] == Blocks(luck, rows, step, m).rows[k]
    decreases n
  {
    if m < n {
      BlocksGrow(luck, rows, step, m, n - 1, k);
      BlockGrows(Blocks(luck, rows, step, n - 1), rows, n - 1, step, 0, |rows|, k);
    }
  }

  /** The draws made before row r of simulated GPU g. */
  function LuckAt(luck: Luck, rows: seq<seq<string>>, step: Step, g: nat, r: nat): Luck
    requires r <= |rows|
  {
    Block(Blocks(luck, rows, step, g), rows, g, step, r).luck
  }

  /** Row r of simulated GPU g is the recorded row r, transformed for g; no other row's edits are in it. */
  lemma RowOfBlocks(luck: Luck, rows: seq<seq<string>>, step: Step, upTo: nat, g: nat, r: nat, k: nat)
    requires g < upTo && r < |rows| && k == g * |rows| + r
    ensures k < |Blocks(luck, rows, step, upTo).rows|
    ensures Blocks(luck, rows, step, upTo).rows[k] == step(g, rows[r], LuckAt(luck, rows, step, g, r)).cells
  {
    var before := Blocks(luck, rows, step, g);
    BlocksCount(luck, rows, step, g);
    BlockGrows(before, rows, g, step, r + 1, |rows|, k);
    BlocksGrow(luck, rows, step, g + 1, upTo, k);
  }

  /** The same for an answer. */
  lemma RowOfAnswer(c: Content, luck: Luck, cfg: Config, ch: Chance, g: nat, r: nat, k: nat) returns (before: Luck)
    requires Regular(c) && Accepted(cfg) && g < Replicas(cfg) && r < |c.rows| && k == g * |c.rows| + r
    ensures k < |Transformed(c, luck, cfg, ch).rows|
    ensures Transformed(c, luck, cfg, ch).rows[k] == RowStep(c.rows[r], before, g, c.recorded, cfg, ch).cells
  {
    var step := StepOf(c.recorded, cfg, ch);
    RowOfBlocks(luck, c.rows, step, Replicas(cfg), g, r, k);
    before := LuckAt(luck, c.rows, step, g, r);
  }

  // ---------------------------------------------------------------- the grid of an answer

  function GridOf(c: Content, luck: Luck, cfg: Config, ch: Chance): (grid: seq<seq<string>>)
    requires Regular(c)
    ensures |grid| == 1 + Replicas(cfg) * |c.rows|
    ensures forall k :: 0 <= k < |grid| ==> |grid[k]| == |c.columns|
  {
    var rows := Transformed(c, luck, cfg, ch).rows;
    [Picked(c.header, c.columns)] + seq(|rows|, k requires 0 <= k < |rows| => Picked(rows[k], c.columns))
  }

  lemma AnswerPrintsGrid(c: Content, luck: Luck, cfg: Config, ch: Chance)
    requires Regular(c)
    ensures Answer(c, luck, cfg, ch) == Printed(GridOf(c, luck, cfg, ch))
  {
    var rows := Transformed(c, luck, cfg, ch).rows;
    var lines, printed := Answer(c, luck, cfg, ch), Printed(GridOf(c, luck, cfg, ch));
    forall k | 0 <= k < |lines|
      ensures lines[k] == printed[k]
    {
      if k > 0 {
        assert lines[k] == Lined(rows, c.columns, |c.recorded|)[k - 1];
      }
    }
  }

  ghost predicate SafeContent(c: Content) { Regular(c) && Safe(c.header) && forall i :: 0 <= i < |c.rows| ==> Safe(c.rows[i]) }

  lemma PickedSafe(cells: seq<string>, columns: seq<nat>)
    requires Safe(cells) && forall i :: 0 <= i < |columns| ==> columns[i] < |cells|
    ensures Safe(Picked(cells, columns))
  {
  }

  lemma Locate(n: nat, g: nat, k: nat) returns (q: nat, r: nat)
    requires n > 0 && k < g * n
    ensures k == q * n + r && q < g && r < n
  {
    q, r := k / n, k % n;
    DivMod(k, n);
    QuotientBelow(k, n, g);
  }

  lemma GridIsSafe(c: Content, luck: Luck, cfg: Config, ch: Chance)
    requires SafeContent(c) && |c.columns| > 0 && CleanConfig(cfg) && FairChance(ch)
    ensures SafeGrid(GridOf(c, luck, cfg, ch), |c.columns|)
  {
    var grid := GridOf(c, luck, cfg, ch);
    PickedSafe(c.header, c.columns);
    forall k | 0 < k < |grid|
      ensures Safe(grid[k])
    {
      var g, r := Locate(|c.rows|, Replicas(cfg), k - 1);
      var before := RowOfAnswer(c, luck, cfg, ch, g, r, k - 1);
      RowStepSafe(c.rows[r], before, g, c.recorded, cfg, ch);
      PickedSafe(RowStep(c.rows[r], before, g, c.recorded, cfg, ch).cells, c.columns);
    }
  }

  /** A section without a free-text column holds only cells CSV can carry. */
  lemma ContentIsSafe(section: Section, request: string)
    requires Contents(section, request).Ok? && FREE_TEXT !in Contents(section, request).value.recorded
    ensures SafeContent(Contents(section, request).value)
  {
    var c := Contents(section, request).value;
    var lines := Split(section.body, '\n');
    SplitClean(section.body, '\n');
    SplitRowSafe(lines[0], |c.recorded|);
    forall i | 0 <= i < |c.rows|
      ensures Safe(c.rows[i])
    {
      assert lines[1..][i] == lines[i + 1];
      SplitRowSafe(lines[i + 1], |c.recorded|);
    }
  }

  /**
   Projection and parsing agree. For a section without a free-text column, an accepted configuration and any draws, the
   exporter's parse of the fake's answer is the answer's grid, GPUs x recorded rows of trimmed transformed cells, if and
   only if the answer neither starts nor ends in a blank line.
   */
  method AskAndParse(fake: Fake, section: Section, request: string) returns (r: Result<Csv.Table, Csv.CsvError>, ghost luck: Luck)
    requires fake.Valid() && CleanConfig(fake.cfg) && FairChance(fake.ch)
    requires Contents(section, request).Ok? && FREE_TEXT !in Contents(section, request).value.recorded
    requires Distinct(Split(request, ','))
    modifies fake`drawn, fake.fluct`sources
    ensures luck == old(fake.View())
    ensures var grid := GridOf(Contents(section, request).value, luck, fake.cfg, fake.ch);
            Printable(Printed(grid)) <==> r.Ok? && IsGrid(r.value, Split(request, ','), grid)
  {
    ghost var c := Contents(section, request).value;
    luck := fake.View();
    ContentIsSafe(section, request);
    GridIsSafe(c, luck, fake.cfg, fake.ch);
    AnswerPrintsGrid(c, luck, fake.cfg, fake.ch);
    var output := fake.Project(section, request);
    r := Csv.ParseCsvIntoTable(output.value, Split(request, ','));
    ghost var grid := GridOf(c, luck, fake.cfg, fake.ch);
    if Printable(Printed(grid)) {
      PrintedGridFits(grid, Split(request, ','));
      ParsedGridIsGrid(grid, Split(request, ','), r.value);
    } else {
      GridIsOneLiners(grid, |c.columns|);
      BlankEndsAreLost(Printed(grid));
    }
  }

  /** Two or more requested columns never print a blank line. */
  lemma SeveralColumnsPrint(c: Content, luck: Luck, cfg: Config, ch: Chance)
    requires Regular(c) && |c.columns| > 1
    ensures Printable(Printed(GridOf(c, luck, cfg, ch)))
  {
    var grid := GridOf(c, luck, cfg, ch);
    WideRowsAreNotBlank(grid[0]);
    WideRowsAreNotBlank(grid[|grid| - 1]);
  }
}
