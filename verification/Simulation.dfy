/**
 From a multi-GPU configuration to the exporter's table: the settings merged into identities and override maps, the fake
 asked, its answer parsed.
 */
module Simulation {
  import opened Basics
  import opened Text
  import opened Numerals
  import opened ComputeApps
  import opened Identity
  import opened Overrides
  import opened Projection
  import opened Projector
  import opened RoundTrip
  import opened Agreement
  import opened MultiGpu
  import Csv

  // ---------------------------------------------------------------- the configuration

  datatype GpuEntry = GpuEntry(id: Id, overrides: seq<Entry>)

  /** The gpus setting of a configuration file: a count, or one entry per GPU. */
  datatype GpuSetting = ByCount(count: int) | ByEntry(entries: seq<GpuEntry>)

  /** Everything that shapes the served values; the command line's own overrides and count come apart from the file's. */
  datatype Settings = Settings(
    gpusFlag: Option<int>, gpus: Option<GpuSetting>, top: seq<Entry>, flags: seq<Entry>, fluctuates: bool)

  datatype Refusal = BadCount | BadIdentity(id: BadId) | BadOverrides(what: BadOverride)

  function CountOf(setting: GpuSetting): int { if setting.ByCount? then setting.count else |setting.entries| }

  /** validateGPUCount, for the flag and the file alike. */
  predicate Countable(s: Settings) {
    && (s.gpusFlag.Some? ==> 1 <= s.gpusFlag.value <= MAX_GPUS)
    && (s.gpus.Some? ==> 1 <= CountOf(s.gpus.value) <= MAX_GPUS)
  }

  /** How many GPUs are simulated; none where the card is replayed as captured. */
  function Simulated(s: Settings): nat
    requires Countable(s)
  {
    if s.gpusFlag.Some? then s.gpusFlag.value else if s.gpus.Some? then CountOf(s.gpus.value) else 0
  }

  /** The entries the GPUs take their identities and own overrides from: a flag's GPUs have none. */
  function EntriesUsed(s: Settings): seq<GpuEntry> {
    if s.gpusFlag.None? && s.gpus.Some? && s.gpus.value.ByEntry? then s.gpus.value.entries else []
  }

  function Ids(s: Settings): seq<Id> { seq(|EntriesUsed(s)|, i requires 0 <= i < |EntriesUsed(s)| => EntriesUsed(s)[i].id) }

  function OwnOverrides(s: Settings): seq<seq<Entry>> {
    seq(|EntriesUsed(s)|, i requires 0 <= i < |EntriesUsed(s)| => EntriesUsed(s)[i].overrides)
  }

  /** The identities are clean and, as the exporter normalizes them, all different. */
  ghost predicate Identifiable(s: Settings, generated: nat -> string)
    requires Countable(s)
  {
    && (forall i: nat :: i < Simulated(s) ==> CleanId(IdFor(Ids(s), generated, i)))
    && forall i: nat, j: nat :: i < j < Simulated(s) ==>
         NormalizeUuid(IdFor(Ids(s), generated, i).uuid) != NormalizeUuid(IdFor(Ids(s), generated, j).uuid)
  }

  ghost predicate Overridable(s: Settings)
    requires Countable(s)
  {
    AllAcceptable(s.top) && (Simulated(s) > 0 ==> !Refused(s.top, s.flags, OwnOverrides(s), Simulated(s)))
  }

  lemma {:induction false} GensAreClean(entries: seq<Entry>, layer: Layer, f: string)
    requires AllAcceptable(entries) && f in Gens(entries, layer) && Gens(entries, layer)[f].Const?
    ensures Clean(Gens(entries, layer)[f].value)
  {
    LastEntryWins(entries, layer, f);
  }

  lemma WinnersAreClean(gens: map<string, Gen>, top: seq<Entry>, flags: seq<Entry>, perGpu: seq<seq<Entry>>, g: nat, f: string)
    requires AllAcceptable(top) && AllAcceptable(flags) && AllAcceptable(EntriesOf(perGpu, g))
    requires Layered(gens, top, flags, perGpu, g) && f in gens && gens[f].Const?
    ensures Clean(gens[f].value)
  {
    assert Winner(top, flags, perGpu, g, f) == Some(gens[f]);
    if f in Gens(flags, Flag) {
      GensAreClean(flags, Flag, f);
    } else if f in Gens(EntriesOf(perGpu, g), PerGpu(g)) {
      GensAreClean(EntriesOf(perGpu, g), PerGpu(g), f);
    } else {
      GensAreClean(top, Top, f);
    }
  }

  /** The maps of a multi-GPU configuration hold clean values and leave identities alone. */
  method SimulatedOverrides(s: Settings) returns (r: Result<seq<map<string, Gen>>, BadOverride>)
    requires Countable(s) && Simulated(s) > 0 && AllAcceptable(s.flags)
    ensures r.Ok? <==> Overridable(s)
    ensures r.Ok? ==> |r.value| == Simulated(s)
    ensures r.Ok? ==> forall g, f :: 0 <= g < |r.value| && f in r.value[g] && r.value[g][f].Const? ==> Clean(r.value[g][f].value)
    ensures r.Ok? ==> forall g, f :: 0 <= g < |r.value| && f in IDENTITY ==> f !in r.value[g]
    ensures r.Ok? ==> forall g: nat :: g < |r.value| ==>
              AllAcceptable(EntriesOf(OwnOverrides(s), g)) && Layered(r.value[g], s.top, s.flags, OwnOverrides(s), g)
  {
    var own, count := OwnOverrides(s), Simulated(s);
    r := BuildOverrides(s.top, s.flags, own, count);
    if r.Ok? {
      var maps: seq<map<string, Gen>> := r.value;
      forall g, f | 0 <= g < |maps| && f in maps[g] && maps[g][f].Const?
        ensures Clean(maps[g][f].value)
      {
        WinnersAreClean(maps[g], s.top, s.flags, own, g, f);
      }
      forall g, f | 0 <= g < |maps| && f in IDENTITY
        ensures f !in maps[g]
      {
        IdentitiesAreSafe(maps[g], s.top, s.flags, own, g, count, f);
      }
    }
  }

  method SingleOverrides(s: Settings) returns (r: Result<seq<map<string, Gen>>, BadOverride>)
    requires Countable(s) && Simulated(s) == 0 && AllAcceptable(s.flags)
    ensures r.Ok? <==> Overridable(s)
    ensures r.Ok? ==> |r.value| == 1 && forall f :: f in r.value[0] && r.value[0][f].Const? ==> Clean(r.value[0][f].value)
  {
    r := BuildSingle(s.top, s.flags);
    if r.Ok? {
      var only: map<string, Gen> := r.value[0];
      forall f | f in only && only[f].Const?
        ensures Clean(only[f].value)
      {
        if f in Gens(s.flags, Top) {
          GensAreClean(s.flags, Top, f);
        } else {
          GensAreClean(s.top, Top, f);
        }
      }
    }
  }

  /**
   mergeValueSettings. The flags' overrides were accepted when they were parsed. A configuration is accepted exactly when
   its counts, identities and overrides are; then every simulated GPU has its own normalized uuid, no override map touches
   an identity, and nothing it serves breaks the CSV.
   */
  method Configure(s: Settings, generated: nat -> string) returns (r: Result<Config, Refusal>)
    requires AllAcceptable(s.flags)
    ensures r.Ok? <==> Countable(s) && Identifiable(s, generated) && Overridable(s)
    ensures r == Err(BadCount) <==>
              || (s.gpusFlag.Some? && !(1 <= s.gpusFlag.value <= 255))
              || (s.gpus.Some? && s.gpus.value.ByCount? && !(1 <= s.gpus.value.count <= 255))
              || (s.gpus.Some? && s.gpus.value.ByEntry? && !(1 <= |s.gpus.value.entries| <= 255))
    ensures r.Ok? ==>
              |r.value.gpus| == (if s.gpusFlag.Some? then s.gpusFlag.value
                                 else if s.gpus.None? then 0
                                 else if s.gpus.value.ByCount? then s.gpus.value.count
                                 else |s.gpus.value.entries|)
    ensures r.Ok? ==> forall g: nat :: g < |r.value.gpus| ==>
              var listed := s.gpusFlag.None? && s.gpus.value.ByEntry?;
              && r.value.gpus[g].uuid == (if listed && s.gpus.value.entries[g].id.uuid != "" then s.gpus.value.entries[g].id.uuid
                                          else generated(g))
              && r.value.gpus[g].serial == (if listed then s.gpus.value.entries[g].id.serial else "")
    ensures r.Ok? ==> CleanConfig(r.value) && |r.value.gpus| == Simulated(s) && r.value.fluctuates == s.fluctuates
    ensures r.Ok? && Simulated(s) > 0 ==> Simulates(r.value)
    ensures r.Ok? && Simulated(s) > 0 ==> forall g: nat :: g < Simulated(s) ==>
              && r.value.gpus[g] == IdFor(Ids(s), generated, g)
              && AllAcceptable(EntriesOf(OwnOverrides(s), g))
              && Layered(r.value.overrides[g], s.top, s.flags, OwnOverrides(s), g)
  {
    if !Countable(s) {
      return Err(BadCount);
    }
    if Simulated(s) == 0 {
      var single := SingleOverrides(s);
      if single.Err? {
        return Err(BadOverrides(single.error));
      }
      return Ok(Config([], single.value, s.fluctuates));
    }
    var ids := BuildIdentities(Simulated(s), Ids(s), generated);
    if ids.Err? {
      return Err(BadIdentity(ids.error));
    }
    var maps := SimulatedOverrides(s);
    if maps.Err? {
      return Err(BadOverrides(maps.error));
    }
    return Ok(Config(ids.value, maps.value, s.fluctuates));
  }

  // ---------------------------------------------------------------- the exporter's table

  /** A parsed cell, by row and field. */
  ghost predicate Shows(t: Csv.Table, g: nat, f: string, raw: string) {
    g < |t.rows| && f in t.rows[g].byField && t.rows[g].byField[f].raw == raw
  }

  lemma RequestedColumn(section: Section, request: string, i: nat, f: string)
    requires Contents(section, request).Ok? && i < |Split(request, ',')| && Split(request, ',')[i] == f && Trim(f) == f
    ensures var c := Contents(section, request).value;
            i < |c.columns| && f in c.recorded && c.columns[i] == ColumnOf(c.recorded)[f]
  {
  }

  lemma GridShows(t: Csv.Table, names: seq<string>, grid: seq<seq<string>>, g: nat, i: nat)
    requires IsGrid(t, names, grid) && g + 1 < |grid| && i < |names|
    ensures Shows(t, g, names[i], Trim(grid[g + 1][i]))
  {
    assert IsRow(t.rows[g], names, t.rFields, grid[g + 1]);
  }

  lemma GridCell(c: Content, luck: Luck, cfg: Config, ch: Chance, g: nat, i: nat)
    requires Regular(c) && |c.rows| == 1 && g < Replicas(cfg) && i < |c.columns|
    ensures g + 1 < |GridOf(c, luck, cfg, ch)|
    ensures c.columns[i] < |Transformed(c, luck, cfg, ch).rows[g]|
    ensures GridOf(c, luck, cfg, ch)[g + 1][i] == Transformed(c, luck, cfg, ch).rows[g][c.columns[i]]
  {
    var rows := Transformed(c, luck, cfg, ch).rows;
    assert GridOf(c, luck, cfg, ch)[g + 1] == Picked(rows[g], c.columns);
  }

  /** What the parsed table shows for a requested field of GPU g is that field of g's transformed row. */
  lemma ShownIsSeen(t: Csv.Table, section: Section, request: string, luck: Luck, cfg: Config, ch: Chance, g: nat, f: string)
    requires Contents(section, request).Ok? && |Contents(section, request).value.rows| == 1 && g < Replicas(cfg)
    requires IsGrid(t, Split(request, ','), GridOf(Contents(section, request).value, luck, cfg, ch))
    requires f in Split(request, ',') && Trim(f) == f
    ensures f in Contents(section, request).value.recorded
    ensures Shows(t, g, f, Seen(Contents(section, request).value, luck, cfg, ch, g, f))
  {
    var c, names := Contents(section, request).value, Split(request, ',');
    var i: nat :| i < |names| && names[i] == f;
    RequestedColumn(section, request, i, f);
    GridCell(c, luck, cfg, ch, g, i);
    GridShows(t, names, GridOf(c, luck, cfg, ch), g, i);
  }

  /** Row g carries the index g, a uuid and a bus id. */
  ghost predicate Identified(t: Csv.Table, g: nat) {
    Shows(t, g, "index", Decimal(g)) && "uuid" in t.rows[g].byField && "pci.bus_id" in t.rows[g].byField
  }

  ghost predicate Differ(t: Csv.Table, g: nat, h: nat) {
    && Identified(t, g) && Identified(t, h)
    && NormalizeUuid(t.rows[g].byField["uuid"].raw) != NormalizeUuid(t.rows[h].byField["uuid"].raw)
    && t.rows[g].byField["pci.bus_id"].raw != t.rows[h].byField["pci.bus_id"].raw
  }

  /** One row per simulated GPU, in order: indexes from 0, and no two alike in normalized uuid or in bus id. */
  ghost predicate OwnRows(t: Csv.Table, n: nat) {
    && |t.rows| == n
    && (forall g: nat :: g < n ==> Identified(t, g))
    && (forall g: nat, h: nat :: g < h < n ==> Differ(t, g, h))
  }

  predicate AsksIdentity(request: string) {
    var names := Split(request, ',');
    Distinct(names) && "uuid" in names && "index" in names && "pci.bus_id" in names
  }

  lemma NamesAreTight()
    ensures Trim("uuid") == "uuid" && Trim("index") == "index" && Trim("pci.bus_id") == "pci.bus_id"
  {
    TightTrims("uuid");
    TightTrims("index");
    TightTrims("pci.bus_id");
  }

  /** Two different requested names make two columns. */
  lemma AsksSeveral(request: string)
    requires AsksIdentity(request)
    ensures |Split(request, ',')| > 1
  {
    var names := Split(request, ',');
    var i :| 0 <= i < |names| && names[i] == "uuid";
    var j :| 0 <= j < |names| && names[j] == "index";
  }

  /** The exporter parsed the fake's answer for a capture of one card. */
  ghost predicate Answered(t: Csv.Table, section: Section, request: string, luck: Luck, cfg: Config, ch: Chance) {
    && Contents(section, request).Ok? && |Contents(section, request).value.rows| == 1 && Simulates(cfg)
    && IsGrid(t, Split(request, ','), GridOf(Contents(section, request).value, luck, cfg, ch)) && AsksIdentity(request)
  }

  lemma GpuShown(t: Csv.Table, section: Section, request: string, luck: Luck, cfg: Config, ch: Chance, g: nat)
    requires Answered(t, section, request, luck, cfg, ch) && g < |cfg.gpus|
    ensures var c := Contents(section, request).value;
            && "uuid" in c.recorded && "index" in c.recorded && "pci.bus_id" in c.recorded
            && Shows(t, g, "uuid", Seen(c, luck, cfg, ch, g, "uuid"))
            && Shows(t, g, "index", Seen(c, luck, cfg, ch, g, "index"))
            && Shows(t, g, "pci.bus_id", Seen(c, luck, cfg, ch, g, "pci.bus_id"))
  {
    NamesAreTight();
    ShownIsSeen(t, section, request, luck, cfg, ch, g, "uuid");
    ShownIsSeen(t, section, request, luck, cfg, ch, g, "index");
    ShownIsSeen(t, section, request, luck, cfg, ch, g, "pci.bus_id");
  }

  lemma IndexShown(t: Csv.Table, section: Section, request: string, luck: Luck, cfg: Config, ch: Chance, g: nat)
    requires Answered(t, section, request, luck, cfg, ch) && g < |cfg.gpus|
    ensures Identified(t, g)
  {
    var c := Contents(section, request).value;
    GpuShown(t, section, request, luck, cfg, ch, g);
    SeenStamp(c, luck, cfg, ch, g, "index");
    DecimalIsTight(g);
  }

  lemma PairSeen(section: Section, request: string, luck: Luck, cfg: Config, ch: Chance, g: nat, h: nat)
    requires Contents(section, request).Ok? && |Contents(section, request).value.rows| == 1 && Simulates(cfg) && g < h < |cfg.gpus|
    requires var c := Contents(section, request).value; "uuid" in c.recorded && "index" in c.recorded && "pci.bus_id" in c.recorded
    ensures var c := Contents(section, request).value;
            && NormalizeUuid(Seen(c, luck, cfg, ch, g, "uuid")) != NormalizeUuid(Seen(c, luck, cfg, ch, h, "uuid"))
            && Seen(c, luck, cfg, ch, g, "pci.bus_id") != Seen(c, luck, cfg, ch, h, "pci.bus_id")
  {
    var c := Contents(section, request).value;
    UuidsAndIndexesAreDistinct(c, luck, cfg, ch, g, h);
    var col := ColumnOf(c.recorded)["pci.bus_id"];
    RecordedCellsAreTrimmed(section, request, 0, col);
    BusIdsAreDistinct(c, luck, cfg, ch, g, h, c.rows[0][col]);
  }

  lemma PairShown(t: Csv.Table, section: Section, request: string, luck: Luck, cfg: Config, ch: Chance, g: nat, h: nat)
    requires Answered(t, section, request, luck, cfg, ch) && g < h < |cfg.gpus|
    ensures Differ(t, g, h)
  {
    IndexShown(t, section, request, luck, cfg, ch, g);
    IndexShown(t, section, request, luck, cfg, ch, h);
    GpuShown(t, section, request, luck, cfg, ch, g);
    GpuShown(t, section, request, luck, cfg, ch, h);
    PairSeen(section, request, luck, cfg, ch, g, h);
  }

  lemma RowPerGpu(t: Csv.Table, section: Section, request: string, luck: Luck, cfg: Config, ch: Chance)
    requires Answered(t, section, request, luck, cfg, ch)
    ensures |t.rows| == |cfg.gpus|
  {
    assert |GridOf(Contents(section, request).value, luck, cfg, ch)| == 1 + |cfg.gpus|;
  }

  lemma AllShown(t: Csv.Table, section: Section, request: string, luck: Luck, cfg: Config, ch: Chance)
    requires Answered(t, section, request, luck, cfg, ch)
    ensures forall g: nat :: g < |cfg.gpus| ==> Identified(t, g)
  {
    forall g: nat | g < |cfg.gpus|
      ensures Identified(t, g)
    {
      IndexShown(t, section, request, luck, cfg, ch, g);
    }
  }

  lemma AllDiffer(t: Csv.Table, section: Section, request: string, luck: Luck, cfg: Config, ch: Chance)
    requires Answered(t, section, request, luck, cfg, ch)
    ensures forall g: nat, h: nat :: g < h < |cfg.gpus| ==> Differ(t, g, h)
  {
    forall g: nat, h: nat | g < h < |cfg.gpus|
      ensures Differ(t, g, h)
    {
      PairShown(t, section, request, luck, cfg, ch, g, h);
    }
  }

  /** The parsed table of a multi-GPU answer. */
  lemma TableHasOwnRows(t: Csv.Table, section: Section, request: string, luck: Luck, cfg: Config, ch: Chance)
    requires Answered(t, section, request, luck, cfg, ch)
    ensures OwnRows(t, |cfg.gpus|)
  {
    RowPerGpu(t, section, request, luck, cfg, ch);
    AllShown(t, section, request, luck, cfg, ch);
    AllDiffer(t, section, request, luck, cfg, ch);
  }

  /**
   Every accepted multi-GPU configuration, over a capture of one card that records the identity fields, gives the exporter
   a table with one row per GPU, indexes from 0 and no two GPUs alike, whatever the override layers, the fluctuation and
   the draws do, and however often the fake was asked before.
   */
  method AskSimulated(fake: Fake, section: Section, request: string) returns (r: Result<Csv.Table, Csv.CsvError>)
    requires fake.Valid() && Simulates(fake.cfg) && CleanConfig(fake.cfg) && FairChance(fake.ch)
    requires Contents(section, request).Ok? && FREE_TEXT !in Contents(section, request).value.recorded
    requires |Contents(section, request).value.rows| == 1 && AsksIdentity(request)
    modifies fake`drawn, fake.fluct`sources
    ensures r.Ok? && OwnRows(r.value, |fake.cfg.gpus|)
  {
    ghost var luck: Luck;
    AsksSeveral(request);
    r, luck := AskAndParse(fake, section, request);
    SeveralColumnsPrint(Contents(section, request).value, luck, fake.cfg, fake.ch);
    TableHasOwnRows(r.value, section, request, luck, fake.cfg, fake.ch);
  }

  /** The whole way, from the settings to the table of a fresh fake. */
  method Simulate(s: Settings, generated: nat -> string, ch: Chance, section: Section, request: string)
    returns (r: Option<Result<Csv.Table, Csv.CsvError>>)
    requires AllAcceptable(s.flags) && FairChance(ch) && Countable(s) && Simulated(s) > 0
    requires Contents(section, request).Ok? && FREE_TEXT !in Contents(section, request).value.recorded
    requires |Contents(section, request).value.rows| == 1 && AsksIdentity(request)
    ensures r.Some? <==> Identifiable(s, generated) && Overridable(s)
    ensures r.Some? ==> r.value.Ok? && OwnRows(r.value.value, Simulated(s))
  {
    var cfg := Configure(s, generated);
    if cfg.Err? {
      return None;
    }
    var fake := new Fake(cfg.value, ch);
    var table := AskSimulated(fake, section, request);
    return Some(table);
  }
}
