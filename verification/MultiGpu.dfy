/** Simulated GPUs as the exporter sees them: identities distinct whatever overrides and jitter do, and fixed values kept. */
module MultiGpu {
  import opened Basics
  import opened Text
  import opened Numerals
  import opened ComputeApps
  import opened Fluctuator
  import opened Memory
  import opened Identity
  import opened Overrides
  import opened Projection
  import opened Agreement

  // ---------------------------------------------------------------- one cell through the pipeline

  lemma {:induction false} OverridesLeave(s: Stepped, recorded: seq<string>, gens: map<string, Gen>, ch: Chance, n: nat, c: nat)
    requires n <= |recorded| == |s.cells| && c < |recorded| && (recorded[c] !in gens || c >= n)
    ensures Overridden(s, recorded, gens, ch, n).cells[c] == s.cells[c]
    decreases n
  {
    if n > 0 {
      OverridesLeave(s, recorded, gens, ch, n - 1, c);
    }
  }

  lemma {:induction false} ConstIsServed(s: Stepped, recorded: seq<string>, gens: map<string, Gen>, ch: Chance, n: nat, c: nat)
    requires n <= |recorded| == |s.cells| && c < n && recorded[c] in gens && gens[recorded[c]].Const?
    ensures Overridden(s, recorded, gens, ch, n).cells[c] == gens[recorded[c]].value
    decreases n
  {
    if c < n - 1 {
      ConstIsServed(s, recorded, gens, ch, n - 1, c);
    }
  }

  /** Fluctuation leaves every column alone whose field is overridden or never moves; memory.free aside. */
  lemma FluctuationLeaves(s: Shaken, recorded: seq<string>, overridden: set<string>, roll: Roll, c: nat)
    requires |recorded| == |s.cells| && c < |recorded|
    requires recorded[c] in overridden || (recorded[c] !in MOVING && recorded[c] != FREE && recorded[c] != USED)
    ensures Applied(s, recorded, ColumnOf(recorded), overridden, roll).cells[c] == s.cells[c]
  {
    var columnOf := ColumnOf(recorded);
    var shaken := Shake(s, recorded, MOVING, overridden, roll, |recorded|).cells;
    OthersStay(s, recorded, MOVING, overridden, roll, |recorded|, c);
    LeftByReconcile(shaken, recorded, columnOf, overridden, c);
  }

  lemma LeftByReconcile(cells: seq<string>, recorded: seq<string>, columnOf: map<string, nat>, overridden: set<string>, c: nat)
    requires |recorded| == |cells| && c < |recorded| && Names(columnOf, recorded)
    requires recorded[c] in overridden || (recorded[c] != FREE && recorded[c] != USED)
    ensures Reconcile(cells, columnOf, overridden)[c] == cells[c]
  {
  }

  /** A fixed override is what the row shows, wherever its field stands and whatever is drawn. */
  lemma FixedOverrideShows(cells: seq<string>, luck: Luck, gpu: nat, recorded: seq<string>, cfg: Config, ch: Chance, c: nat)
    requires Accepted(cfg) && gpu < Replicas(cfg) && |cells| == |recorded| && c < |recorded|
    requires recorded[c] in cfg.overrides[gpu] && cfg.overrides[gpu][recorded[c]].Const?
    ensures RowStep(cells, luck, gpu, recorded, cfg, ch).cells[c] == cfg.overrides[gpu][recorded[c]].value
  {
    var columnOf := ColumnOf(recorded);
    var own := if |cfg.gpus| > 0 then Stamped(cells, recorded, columnOf, cfg.gpus[gpu], gpu, |cfg.gpus|) else cells;
    ConstIsServed(Stepped(own, luck), recorded, cfg.overrides[gpu], ch, |recorded|, c);
    var served := Overridden(Stepped(own, luck), recorded, cfg.overrides[gpu], ch, |recorded|);
    if cfg.fluctuates {
      FluctuationLeaves(Shaken(served.cells, served.luck.dice), recorded, cfg.overrides[gpu].Keys, ch.jitter, c);
    }
  }

  /** An overridden field shows its constant, or a value of its range, through fluctuation and memory reconciliation. */
  lemma OverrideShows(cells: seq<string>, luck: Luck, gpu: nat, recorded: seq<string>, cfg: Config, ch: Chance, c: nat)
    requires Accepted(cfg) && gpu < Replicas(cfg) && |cells| == |recorded| && c < |recorded| && FairChance(ch)
    requires recorded[c] in cfg.overrides[gpu]
    ensures ShowsOverride(RowStep(cells, luck, gpu, recorded, cfg, ch).cells[c], cfg.overrides[gpu][recorded[c]], ch)
  {
    var own := if |cfg.gpus| > 0 then Stamped(cells, recorded, ColumnOf(recorded), cfg.gpus[gpu], gpu, |cfg.gpus|) else cells;
    OverridesShow(Stepped(own, luck), recorded, cfg.overrides[gpu], ch, |recorded|, c);
    var served := Overridden(Stepped(own, luck), recorded, cfg.overrides[gpu], ch, |recorded|);
    if cfg.fluctuates {
      FluctuationLeaves(Shaken(served.cells, served.luck.dice), recorded, cfg.overrides[gpu].Keys, ch.jitter, c);
    }
  }

  /** Identities are overridden nowhere, as buildOverrides leaves it with simulated GPUs. */
  ghost predicate Spared(cfg: Config) { forall g, f :: 0 <= g < |cfg.overrides| && f in IDENTITY ==> f !in cfg.overrides[g] }

  lemma IdentitiesDoNotMove(f: string)
    requires f in IDENTITY
    ensures f !in MOVING && f != FREE && f != USED
  {
    assert |f| > 2 && f[..2] != "";
    forall i | 0 <= i < |MOVING|
      ensures MOVING[i] != f
    {
      assert MOVING[i][1] in {'t', 'e', 'a', 'o', 'l', 's'};
      assert MOVING[i][0] in {'u', 't', 'f', 'p', 'm', 'c'};
      assert MOVING[i][1] == 'e' ==> MOVING[i][0] != 's';
    }
  }

  /** The row after identity and overrides. */
  function Served(cells: seq<string>, luck: Luck, gpu: nat, recorded: seq<string>, cfg: Config, ch: Chance): (r: Stepped)
    requires Accepted(cfg) && gpu < |cfg.gpus| && |cells| == |recorded|
    ensures |r.cells| == |recorded|
  {
    Overridden(Stepped(Stamped(cells, recorded, ColumnOf(recorded), cfg.gpus[gpu], gpu, |cfg.gpus|), luck),
               recorded, cfg.overrides[gpu], ch, |recorded|)
  }

  lemma RowStepOfSimulated(cells: seq<string>, luck: Luck, gpu: nat, recorded: seq<string>, cfg: Config, ch: Chance)
    requires Accepted(cfg) && gpu < |cfg.gpus| && |cells| == |recorded|
    ensures var s := Served(cells, luck, gpu, recorded, cfg, ch);
            RowStep(cells, luck, gpu, recorded, cfg, ch).cells
            == if cfg.fluctuates then
                 Applied(Shaken(s.cells, s.luck.dice), recorded, ColumnOf(recorded), cfg.overrides[gpu].Keys, ch.jitter).cells
               else s.cells
  {
  }

  lemma IdentityIsServed(cells: seq<string>, luck: Luck, gpu: nat, recorded: seq<string>, cfg: Config, ch: Chance, f: string, c: nat)
    requires Accepted(cfg) && gpu < |cfg.gpus| && |cells| == |recorded| && f in recorded && c == ColumnOf(recorded)[f]
    requires f !in cfg.overrides[gpu]
    ensures Served(cells, luck, gpu, recorded, cfg, ch).cells[c] == Stamp(f, cells[c], cfg.gpus[gpu], gpu, |cfg.gpus|)
  {
    var own := Stamped(cells, recorded, ColumnOf(recorded), cfg.gpus[gpu], gpu, |cfg.gpus|);
    OverridesLeave(Stepped(own, luck), recorded, cfg.overrides[gpu], ch, |recorded|, c);
  }

  /** An identity's cell is exactly its stamp, through overrides and fluctuation. */
  lemma IdentityShows(cells: seq<string>, luck: Luck, gpu: nat, recorded: seq<string>, cfg: Config, ch: Chance, f: string)
    requires Accepted(cfg) && gpu < |cfg.gpus| && |cells| == |recorded| && f in recorded && f in IDENTITY && Spared(cfg)
    ensures var c := ColumnOf(recorded)[f];
            RowStep(cells, luck, gpu, recorded, cfg, ch).cells[c] == Stamp(f, cells[c], cfg.gpus[gpu], gpu, |cfg.gpus|)
  {
    var c := ColumnOf(recorded)[f];
    var s := Served(cells, luck, gpu, recorded, cfg, ch);
    RowStepOfSimulated(cells, luck, gpu, recorded, cfg, ch);
    IdentityIsServed(cells, luck, gpu, recorded, cfg, ch, f, c);
    if cfg.fluctuates {
      IdentitiesDoNotMove(f);
      FluctuationLeaves(Shaken(s.cells, s.luck.dice), recorded, cfg.overrides[gpu].Keys, ch.jitter, c);
    }
  }

  // ---------------------------------------------------------------- distinct identities

  /** An accepted configuration with simulated GPUs. */
  ghost predicate Simulates(cfg: Config) {
    && Accepted(cfg) && |cfg.gpus| > 0 && Spared(cfg)
    && forall i, j :: 0 <= i < j < |cfg.gpus| ==> NormalizeUuid(cfg.gpus[i].uuid) != NormalizeUuid(cfg.gpus[j].uuid)
  }

  /** The cell of a field in simulated GPU g's row, as the parsed table shows it. */
  function Seen(c: Content, luck: Luck, cfg: Config, ch: Chance, g: nat, f: string): string
    requires Regular(c) && |c.rows| == 1 && g < Replicas(cfg) && f in c.recorded
  {
    Trim(Transformed(c, luck, cfg, ch).rows[g][ColumnOf(c.recorded)[f]])
  }

  lemma SeenStamp(c: Content, luck: Luck, cfg: Config, ch: Chance, g: nat, f: string)
    requires Regular(c) && |c.rows| == 1 && Simulates(cfg) && g < |cfg.gpus| && f in c.recorded && f in IDENTITY
    ensures Seen(c, luck, cfg, ch, g, f)
            == Trim(Stamp(f, c.rows[0][ColumnOf(c.recorded)[f]], cfg.gpus[g], g, |cfg.gpus|))
  {
    var before := RowOfAnswer(c, luck, cfg, ch, g, 0, g);
    IdentityShows(c.rows[0], before, g, c.recorded, cfg, ch, f);
  }

  lemma DecimalIsTight(n: nat)
    ensures Trim(Decimal(n)) == Decimal(n)
  {
    NaturalDecimal(n);
    var s := Decimal(n);
    assert IsDigit(s[0]) && IsDigit(s[|s| - 1]);
    TightTrims(s);
  }

  lemma NormalizeTrims(raw: string)
    ensures NormalizeUuid(Trim(raw)) == NormalizeUuid(raw)
  {
    TrimIdempotent(raw);
  }

  /**
   Over a single recorded row, whatever overrides and fluctuation do, the exporter sees indexes 0 to N-1 and pairwise
   distinct normalized uuids.
   */
  lemma UuidsAndIndexesAreDistinct(c: Content, luck: Luck, cfg: Config, ch: Chance, g: nat, h: nat)
    requires Regular(c) && |c.rows| == 1 && Simulates(cfg) && g < h < |cfg.gpus|
    requires "uuid" in c.recorded && "index" in c.recorded
    ensures Seen(c, luck, cfg, ch, g, "index") == Decimal(g) && Seen(c, luck, cfg, ch, h, "index") == Decimal(h)
    ensures NormalizeUuid(Seen(c, luck, cfg, ch, g, "uuid")) == NormalizeUuid(cfg.gpus[g].uuid)
    ensures NormalizeUuid(Seen(c, luck, cfg, ch, g, "uuid")) != NormalizeUuid(Seen(c, luck, cfg, ch, h, "uuid"))
  {
    SeenStamp(c, luck, cfg, ch, g, "index");
    SeenStamp(c, luck, cfg, ch, h, "index");
    DecimalIsTight(g);
    DecimalIsTight(h);
    SeenStamp(c, luck, cfg, ch, g, "uuid");
    SeenStamp(c, luck, cfg, ch, h, "uuid");
    NormalizeTrims(cfg.gpus[g].uuid);
    NormalizeTrims(cfg.gpus[h].uuid);
  }

  lemma SeenBusId(c: Content, luck: Luck, cfg: Config, ch: Chance, g: nat, captured: string)
    requires Regular(c) && |c.rows| == 1 && Simulates(cfg) && g < |cfg.gpus| && "pci.bus_id" in c.recorded
    requires captured == c.rows[0][ColumnOf(c.recorded)["pci.bus_id"]]
    ensures Seen(c, luck, cfg, ch, g, "pci.bus_id") == Trim(RewriteBusId(captured, g + 1))
  {
    SeenStamp(c, luck, cfg, ch, g, "pci.bus_id");
  }

  lemma BusesDiffer(captured: string, m: nat, n: nat)
    requires m < n < 256 && Trim(captured) == captured
    ensures Trim(RewriteBusId(captured, m)) != Trim(RewriteBusId(captured, n))
  {
    if Trim(RewriteBusId(captured, m)) == Trim(RewriteBusId(captured, n)) {
      BusIdsDiffer(captured, m, n);
    }
  }

  /** And pairwise distinct bus ids, the captured shape kept. */
  lemma BusIdsAreDistinct(c: Content, luck: Luck, cfg: Config, ch: Chance, g: nat, h: nat, captured: string)
    requires Regular(c) && |c.rows| == 1 && Simulates(cfg) && g < h < |cfg.gpus| && "pci.bus_id" in c.recorded
    requires captured == c.rows[0][ColumnOf(c.recorded)["pci.bus_id"]] && Trim(captured) == captured
    ensures Seen(c, luck, cfg, ch, g, "pci.bus_id") != Seen(c, luck, cfg, ch, h, "pci.bus_id")
  {
    SeenBusId(c, luck, cfg, ch, g, captured);
    SeenBusId(c, luck, cfg, ch, h, captured);
    BusesDiffer(captured, g + 1, h + 1);
  }

  lemma SplitCellsAreTrimmed(row: string, want: nat, free: Option<nat>, col: nat) returns (s: string)
    requires (free.Some? ==> free.value < want) && SplitRow(row, want, free).Some? && col < want
    ensures SplitRow(row, want, free).value[col] == Trim(s)
  {
    s := RawCell(Split(row, ','), want, free, col);
  }

  /** Recorded cells are trimmed, so the bus id's shape is there to keep. */
  lemma RecordedCellsAreTrimmed(section: Section, request: string, r: nat, col: nat)
    requires Contents(section, request).Ok?
    requires r < |Contents(section, request).value.rows| && col < |Contents(section, request).value.recorded|
    ensures var cell := Contents(section, request).value.rows[r][col]; Trim(cell) == cell
  {
    var c := Contents(section, request).value;
    var s := SplitCellsAreTrimmed(Split(section.body, '\n')[1..][r], |c.recorded|, FreeColumn(ColumnOf(c.recorded)), col);
    TrimIdempotent(s);
  }

  // ---------------------------------------------------------------- free text

  /** A projected process row, its name as free as it likes, is read back by the process parser. */
  lemma ProjectedAppReturns(cells: seq<string>, columns: seq<nat>)
    requires |columns| == 4 && forall i :: 0 <= i < 4 ==> columns[i] < |cells|
    requires ',' !in cells[columns[0]] && ',' !in cells[columns[3]]
    requires IsPid(Trim(cells[columns[1]])) && NormalizeUuid(cells[columns[0]]) != ""
    ensures Usable(JoinColumns(cells, columns))
    ensures AppOf(JoinColumns(cells, columns))
            == App(NormalizeUuid(cells[columns[0]]), Trim(cells[columns[1]]), Trim(cells[columns[2]]), Trim(cells[columns[3]]))
  {
    var a, b, c, d := cells[columns[0]], cells[columns[1]], cells[columns[2]], cells[columns[3]];
    assert Picked(cells, columns) == [a, b, c, d];
    JoinFour(a, b, c, d);
    TrimAround(" ", b, "");
    TrimAround(" ", c, "");
    TrimAround(" ", d, "");
    assert " " + b + "" == " " + b && " " + c + "" == " " + c && " " + d + "" == " " + d;
    NameCommasSurvive(a, " " + b, " " + c, " " + d);
  }

  lemma JoinFour(a: string, b: string, c: string, d: string)
    ensures Join([a, b, c, d], ", ") == a + "," + (" " + b) + "," + (" " + c) + "," + (" " + d)
  {
    assert [a, b, c, d][1..] == [b, c, d] && [b, c, d][1..] == [c, d] && [c, d][1..] == [d];
    var cd := Join([c, d], ", ");
    assert Join([d], ", ") == d;
    assert cd == c + ", " + d;
    assert Join([b, c, d], ", ") == b + ", " + cd;
    assert Join([a, b, c, d], ", ") == a + ", " + (b + ", " + (c + ", " + d));
  }

  /** A recorded process row splits into its outer cells and the whole name, commas and all. */
  lemma RecordedNameSplits(uuid: string, pid: string, name: string, memory: string)
    requires ',' !in uuid && ',' !in pid && ',' !in memory
    ensures SplitRow(uuid + "," + pid + "," + name + "," + memory, 4, Some(2))
            == Some([Trim(uuid), Trim(pid), Trim(name), Trim(memory)])
  {
    var row := uuid + "," + pid + "," + name + "," + memory;
    SplitRow4(uuid, pid, name, memory);
    var raw, pieces := Split(row, ','), Split(name, ',');
    JoinSplit(name, ',');
    assert raw[2..2 + (|raw| - 4) + 1] == pieces;
    var cells := SplitRow(row, 4, Some(2)).value;
    assert cells[0] == Trim(uuid) && cells[1] == Trim(pid) && cells[2] == Trim(name) && cells[3] == Trim(memory);
    assert cells == [Trim(uuid), Trim(pid), Trim(name), Trim(memory)];
  }

  /** From the recorded line to the exporter's process, for any name with any number of commas. */
  lemma NamesRoundTrip(uuid: string, pid: string, name: string, memory: string)
    requires ',' !in uuid && ',' !in memory && IsPid(Trim(pid)) && NormalizeUuid(uuid) != ""
    ensures var cells := SplitRow(uuid + "," + pid + "," + name + "," + memory, 4, Some(2));
            && cells.Some? && Usable(JoinColumns(cells.value, [0, 1, 2, 3]))
            && AppOf(JoinColumns(cells.value, [0, 1, 2, 3])) == App(NormalizeUuid(uuid), Trim(pid), Trim(name), Trim(memory))
  {
    PidHasNoComma(pid);
    RecordedNameSplits(uuid, pid, name, memory);
    var cells := [Trim(uuid), Trim(pid), Trim(name), Trim(memory)];
    TrimSubset(uuid, ',');
    TrimSubset(memory, ',');
    TrimIdempotent(pid);
    TrimIdempotent(name);
    TrimIdempotent(memory);
    NormalizeTrims(uuid);
    ProjectedAppReturns(cells, [0, 1, 2, 3]);
  }
}
