/** The exporter: which fields get a descriptor, and what one scrape emits. */
module Exporter {
  import opened Basics
  import opened Numerals
  import opened MigKeys
  import opened Transform
  import opened Names
  import Csv
  import ComputeApps
  import Resolve

  // ---------------------------------------------------------------- descriptors

  datatype Info = Info(name: string, multiplier: real, help: string)

  const EXEC_STATUS := "command_exit_code"
  const NVML_STATUS := "nvml_return_code"

  /** The names of some of the exporter's own families. */
  function OwnNames(prefix: string, families: seq<Family>): set<string> {
    set f | f in families && !f.FieldOf? && !f.ExitCode? :: FqName(prefix, BaseName(f))
  }

  /** reservedMetricNames. */
  function Reserved(prefix: string, status: string): set<string> {
    OwnNames(prefix, FIXED) + {FqName(prefix, EXEC_STATUS), FqName(prefix, NVML_STATUS), FqName(prefix, status)}
  }

  lemma OwnNamesGrow(prefix: string, front: seq<Family>, f: Family)
    requires !f.FieldOf? && !f.ExitCode?
    ensures OwnNames(prefix, front + [f]) == OwnNames(prefix, front) + {FqName(prefix, BaseName(f))}
  {
    assert forall g :: g in front + [f] <==> g in front || g == f;
  }

  method OwnMetricNames(prefix: string, families: seq<Family>) returns (names: set<string>)
    requires forall n :: 0 <= n < |families| ==> !families[n].FieldOf? && !families[n].ExitCode?
    ensures names == OwnNames(prefix, families)
  {
    names := {};
    for n := 0 to |families|
      invariant names == OwnNames(prefix, families[..n])
    {
      assert families[..n + 1] == families[..n] + [families[n]];
      OwnNamesGrow(prefix, families[..n], families[n]);
      names := names + {FqName(prefix, BaseName(families[n]))};
    }
    assert families[..|families|] == families;
  }

  method ReservedMetricNames(prefix: string, status: string) returns (names: set<string>)
    ensures names == Reserved(prefix, status)
  {
    forall n: nat | n < |FIXED|
      ensures !FIXED[n].FieldOf? && !FIXED[n].ExitCode?
    {
      FixedIsOwn(n);
    }
    names := OwnMetricNames(prefix, FIXED);
    var statuses := {FqName(prefix, EXEC_STATUS)};
    statuses := statuses + {FqName(prefix, NVML_STATUS)};
    statuses := statuses + {FqName(prefix, status)};
    names := names + statuses;
  }

  lemma FixedIsOwn(n: nat)
    requires n < |FIXED|
    ensures !FIXED[n].FieldOf? && !FIXED[n].ExitCode?
  {
  }

  type Naming = string -> Derived

  /** The fields that derive a name, in order. */
  function Claimants(fields: seq<string>, returned: map<string, string>, naming: Naming, name: string): (c: seq<string>)
    requires forall f :: f in fields ==> f in returned
    ensures forall f :: f in c <==> f in fields && naming(returned[f]).name == name
    decreases |fields|
  {
    if fields == [] then []
    else
      var n := |fields| - 1;
      assert forall f :: f in fields <==> f in fields[..n] || f == fields[n];
      var earlier := Claimants(fields[..n], returned, naming, name);
      if naming(returned[fields[n]]).name == name then earlier + [fields[n]] else earlier
  }

  /** A name is claimed by one field only exactly when nothing else derives it. */
  lemma {:induction false} ClaimedOnce(fields: seq<string>, returned: map<string, string>, naming: Naming, f: string)
    requires (forall g :: g in fields ==> g in returned) && Distinct(fields) && f in fields
    ensures var name := naming(returned[f]).name;
            |Claimants(fields, returned, naming, name)| > 1 <==> exists g :: g in fields && g != f && naming(returned[g]).name == name
  {
    var name := naming(returned[f]).name;
    var c := Claimants(fields, returned, naming, name);
    ClaimantsDistinct(fields, returned, naming, name);
    if |c| > 1 {
      assert c[0] in c && c[1] in c && c[0] != c[1];
    } else {
      assert f in c && c == [c[0]];
      forall g | g in fields && naming(returned[g]).name == name
        ensures g == f
      {
        assert g in c;
      }
    }
  }

  lemma {:induction false} ClaimantsDistinct(fields: seq<string>, returned: map<string, string>, naming: Naming, name: string)
    requires (forall g :: g in fields ==> g in returned) && Distinct(fields)
    ensures Distinct(Claimants(fields, returned, naming, name))
    decreases |fields|
  {
    if fields != [] {
      var n := |fields| - 1;
      ClaimantsDistinct(fields[..n], returned, naming, name);
      assert fields[n] !in fields[..n];
    }
  }

  /** Whether a field gets a descriptor: its name is not empty, not the exporter's own, and claimed by it alone. */
  predicate Described(f: string, returned: map<string, string>, naming: Naming, reserved: set<string>)
    requires f in returned
  {
    var name := naming(returned[f]).name;
    && name != "" && name !in reserved
    && forall g :: g in returned && g != f ==> naming(returned[g]).name != name
  }

  function InfoFor(f: string, returned: map<string, string>, naming: Naming): Info
    requires f in returned
  {
    Info(naming(returned[f]).name, naming(returned[f]).multiplier, returned[f])
  }

  /** BuildQFieldToMetricInfoMap, over the fields in some order. */
  method BuildMetricInfos(fields: seq<string>, returned: map<string, string>, naming: Naming, reserved: set<string>)
    returns (infos: map<string, Info>)
    requires Distinct(fields) && forall f :: f in fields <==> f in returned
    ensures forall f :: f in infos <==> f in returned && Described(f, returned, naming, reserved)
    ensures forall f :: f in infos ==>
              infos[f] == Info(naming(returned[f]).name, naming(returned[f]).multiplier, returned[f])
  {
    var claimants := CollectClaimants(fields, returned, naming);
    infos := map[];
    for n := 0 to |fields|
      invariant forall f :: f in infos <==> f in fields[..n] && Described(f, returned, naming, reserved)
      invariant forall f :: f in infos ==> infos[f] == InfoFor(f, returned, naming)
    {
      var f := fields[n];
      assert fields[..n + 1] == fields[..n] + [f];
      var info := InfoFor(f, returned, naming);
      ClaimedOnce(fields, returned, naming, f);
      if info.name != "" && info.name !in reserved && |claimants[info.name]| <= 1 {
        infos := infos[f := info];
      }
    }
    assert fields[..|fields|] == fields;
  }

  lemma ClaimantsGrow(front: seq<string>, f: string, returned: map<string, string>, naming: Naming)
    requires forall g :: g in front + [f] ==> g in returned
    ensures forall name ::
              Claimants(front + [f], returned, naming, name)
              == Claimants(front, returned, naming, name) + (if naming(returned[f]).name == name then [f] else [])
  {
    assert (front + [f])[..|front|] == front;
  }

  /** Which fields derive each name, in order. */
  method CollectClaimants(fields: seq<string>, returned: map<string, string>, naming: Naming)
    returns (claimants: map<string, seq<string>>)
    requires forall f :: f in fields ==> f in returned
    ensures forall f :: f in fields ==> naming(returned[f]).name in claimants
    ensures forall name :: name in claimants ==> claimants[name] == Claimants(fields, returned, naming, name)
  {
    claimants := map[];
    for n := 0 to |fields|
      invariant forall f :: f in fields[..n] ==> naming(returned[f]).name in claimants
      invariant forall name :: name in claimants ==> claimants[name] == Claimants(fields[..n], returned, naming, name)
      invariant forall name :: name !in claimants ==> Claimants(fields[..n], returned, naming, name) == []
    {
      var name := naming(returned[fields[n]]).name;
      assert fields[..n + 1] == fields[..n] + [fields[n]];
      ClaimantsGrow(fields[..n], fields[n], returned, naming);
      claimants := claimants[name := (if name in claimants then claimants[name] else []) + [fields[n]]];
    }
    assert fields[..|fields|] == fields;
  }

  // ---------------------------------------------------------------- readings and metrics

  datatype Process = Process(app: ComputeApps.App, gi: string, ci: string)

  datatype PcieSample = PcieSample(uuid: string, tx: real, rx: real)

  datatype EnergyReading = EnergyReading(uuid: string, joules: real)

  datatype MigMemory = MigMemory(total: nat, used: nat, free: nat, reserved: nat)

  /** A GPU instance's activity readings, each absent when it could not be taken. */
  datatype MigActivity = MigActivity(
    graphics: Option<real>, sm: Option<real>, occupancy: Option<real>, tensor: Option<real>, tx: Option<real>, rx: Option<real>)

  datatype MigDevice = MigDevice(
    parent: string, uuid: string, gi: string, ci: string, profile: string, memory: Option<MigMemory>,
    activity: Option<MigActivity>)

  datatype XidReading = XidReading(uuid: string, xid: nat, count: nat, lastSeen: real)

  datatype Reading = Reading(
    failures: nat, success: bool, attempted: bool, exitCode: int, duration: real, lastSuccess: Option<int>,
    table: Option<Csv.Table>, appsAttempted: bool, appsSuccess: bool, apps: seq<Process>, cuda: string,
    pcie: seq<PcieSample>, energy: seq<EnergyReading>, mig: seq<MigDevice>, xids: seq<XidReading>)

  datatype Features = Features(apps: bool, appsMig: bool, pcie: bool, energy: bool, mig: bool, xids: bool)

  datatype Metric = Metric(family: Family, labels: seq<string>, value: real)

  datatype Series = Series(family: Family, labels: seq<string>)

  function SeriesOf(m: Metric): Series { Series(m.family, m.labels) }

  function RawOf(row: Csv.Row, field: string): string { if field in row.byField then row.byField[field].raw else "" }

  function UuidOf(row: Csv.Row): string { ComputeApps.NormalizeUuid(RawOf(row, "uuid")) }

  // ---------------------------------------------------------------- what each part emits

  function Health(r: Reading): seq<Metric> {
    [Metric(FailedScrapes, [], r.failures as real), Metric(CollectSuccess, [], if r.success then 1.0 else 0.0)]
    + (if r.attempted then [Metric(ExitCode, [], r.exitCode as real), Metric(CollectDuration, [], r.duration)] else [])
    + if r.lastSuccess.Some? then [Metric(CollectTimestamp, [], r.lastSuccess.value as real)] else []
  }

  function Xids(xids: seq<XidReading>): seq<Metric>
    decreases |xids|
  {
    if xids == [] then []
    else
      var x := xids[|xids| - 1];
      Xids(xids[..|xids| - 1])
      + [Metric(XidCount, [x.uuid, Decimal(x.xid)], x.count as real), Metric(XidTime, [x.uuid, Decimal(x.xid)], x.lastSeen)]
  }

  function InfoLabels(row: Csv.Row, cuda: string): (labels: seq<string>)
    ensures |labels| == |Resolve.INFO| + 1 && labels[0] == UuidOf(row)
  {
    seq(|Resolve.INFO|, i requires 0 <= i < |Resolve.INFO| =>
      if Resolve.INFO[i] == "uuid" then UuidOf(row) else RawOf(row, Resolve.INFO[i])) + [cuda]
  }

  /** One cell's metric, if the field is described and the cell is usable. */
  function CellMetric(cell: Csv.Cell, uuid: string, infos: map<string, Info>): seq<Metric> {
    if cell.qField !in infos then []
    else ValueMetric(cell.qField, uuid, TransformField(cell.qField, cell.raw, infos[cell.qField].multiplier))
  }

  function ValueMetric(qField: string, uuid: string, v: Result<real, Unusable>): seq<Metric> {
    if v.Err? then [] else [Metric(FieldOf(qField), [uuid], v.value)]
  }

  function CellMetrics(cells: seq<Csv.Cell>, uuid: string, infos: map<string, Info>): seq<Metric>
    decreases |cells|
  {
    if cells == [] then []
    else CellMetrics(cells[..|cells| - 1], uuid, infos) + CellMetric(cells[|cells| - 1], uuid, infos)
  }

  /** A cell has something to show: a descriptor, and a value that is a number. */
  predicate Readable(cell: Csv.Cell, infos: map<string, Info>) {
    cell.qField in infos && TransformField(cell.qField, cell.raw, infos[cell.qField].multiplier).Ok?
  }

  /** The metric shows the cell, which is no absent reading. */
  predicate ShowsCell(m: Metric, cell: Csv.Cell, uuid: string, infos: map<string, Info>) {
    && Readable(cell, infos) && !KnownAbsent(cell.raw)
    && m == Metric(FieldOf(cell.qField), [uuid], TransformField(cell.qField, cell.raw, infos[cell.qField].multiplier).value)
  }

  /** Which metrics show which cells, and which cells have something to show. */
  type Showing = (Metric, Csv.Cell) -> bool
  type Having = Csv.Cell -> bool

  function ShowingOf(uuid: string, infos: map<string, Info>): Showing { (m, cell) => ShowsCell(m, cell, uuid, infos) }

  function HavingOf(infos: map<string, Info>): Having { cell => Readable(cell, infos) }

  predicate ShowsOne(m: Metric, cells: seq<Csv.Cell>, shows: Showing) { exists c :: 0 <= c < |cells| && shows(m, cells[c]) }

  predicate ShownIn(cell: Csv.Cell, s: seq<Metric>, shows: Showing) { exists i :: 0 <= i < |s| && shows(s[i], cell) }

  /** Every metric shows a cell, and every cell that has something to show is shown. */
  ghost predicate Covers(s: seq<Metric>, cells: seq<Csv.Cell>, shows: Showing, has: Having) {
    && (forall i :: 0 <= i < |s| ==> ShowsOne(s[i], cells, shows))
    && forall c :: 0 <= c < |cells| && has(cells[c]) ==> ShownIn(cells[c], s, shows)
  }

  function HowManyHave(cells: seq<Csv.Cell>, has: Having): nat
    decreases |cells|
  {
    if cells == [] then 0 else HowManyHave(cells[..|cells| - 1], has) + if has(cells[|cells| - 1]) then 1 else 0
  }

  /** Every metric shows a cell, every readable cell is shown, and none is shown twice. */
  ghost predicate Readings(s: seq<Metric>, cells: seq<Csv.Cell>, uuid: string, infos: map<string, Info>) {
    Covers(s, cells, ShowingOf(uuid, infos), HavingOf(infos)) && |s| == HowManyHave(cells, HavingOf(infos))
  }

  lemma OneReading(cell: Csv.Cell, uuid: string, infos: map<string, Info>)
    ensures var s := CellMetric(cell, uuid, infos);
            if HavingOf(infos)(cell) then |s| == 1 && ShowingOf(uuid, infos)(s[0], cell) else s == []
  {
    if KnownAbsent(cell.raw) && cell.qField in infos {
      AbsentIsNoNumber(cell.qField, cell.raw, infos[cell.qField].multiplier);
    }
  }

  lemma CoversMore(s: seq<Metric>, t: seq<Metric>, cells: seq<Csv.Cell>, cell: Csv.Cell, shows: Showing, has: Having)
    requires Covers(s, cells, shows, has) && (has(cell) ==> t != []) && forall i :: 0 <= i < |t| ==> shows(t[i], cell)
    ensures Covers(s + t, cells + [cell], shows, has)
  {
    var all, more := s + t, cells + [cell];
    assert more[|cells|] == cell;
    forall i | 0 <= i < |all|
      ensures ShowsOne(all[i], more, shows)
    {
      if i < |s| {
        ShowsOneMore(s[i], cells, cell, shows);
      } else {
        assert shows(all[i], more[|cells|]);
      }
    }
    forall c | 0 <= c < |more| && has(more[c])
      ensures ShownIn(more[c], all, shows)
    {
      if c < |cells| {
        ShownInMore(cells[c], s, t, shows);
      } else {
        assert shows(all[|s|], cell);
      }
    }
  }

  lemma ShowsOneMore(m: Metric, cells: seq<Csv.Cell>, cell: Csv.Cell, shows: Showing)
    requires ShowsOne(m, cells, shows)
    ensures ShowsOne(m, cells + [cell], shows)
  {
    var c :| 0 <= c < |cells| && shows(m, cells[c]);
    assert (cells + [cell])[c] == cells[c];
  }

  lemma ShownInMore(cell: Csv.Cell, s: seq<Metric>, t: seq<Metric>, shows: Showing)
    requires ShownIn(cell, s, shows)
    ensures ShownIn(cell, s + t, shows)
  {
    var i :| 0 <= i < |s| && shows(s[i], cell);
    assert (s + t)[i] == s[i];
  }

  /** What a row's cells render as: each readable cell once, and nothing for an absent reading. */
  lemma {:induction false} CellsAreReadings(cells: seq<Csv.Cell>, uuid: string, infos: map<string, Info>)
    ensures Readings(CellMetrics(cells, uuid, infos), cells, uuid, infos)
    decreases |cells|
  {
    if cells != [] {
      var n := |cells| - 1;
      CellsAreReadings(cells[..n], uuid, infos);
      OneReading(cells[n], uuid, infos);
      assert cells == cells[..n] + [cells[n]];
      CoversMore(CellMetrics(cells[..n], uuid, infos), CellMetric(cells[n], uuid, infos), cells[..n], cells[n],
                 ShowingOf(uuid, infos), HavingOf(infos));
    }
  }

  function RowMetrics(row: Csv.Row, cuda: string, infos: map<string, Info>): seq<Metric> {
    [Metric(GpuInfo, InfoLabels(row, cuda), 1.0)] + CellMetrics(row.cells, UuidOf(row), infos)
  }

  function Rows(rows: seq<Csv.Row>, cuda: string, infos: map<string, Info>): seq<Metric>
    decreases |rows|
  {
    if rows == [] then [] else Rows(rows[..|rows| - 1], cuda, infos) + RowMetrics(rows[|rows| - 1], cuda, infos)
  }

  function AppLabels(p: Process, withMig: bool): seq<string> {
    [p.app.uuid, p.app.pid, p.app.name] + if withMig then [p.gi, p.ci] else []
  }

  const MEMORY_SCALE: real := 1048576.0

  function AppMetrics(p: Process, withMig: bool): seq<Metric> {
    [Metric(AppInfo, AppLabels(p, withMig), 1.0)]
    + var memory := TransformRaw(p.app.memory, MEMORY_SCALE);
      if KnownAbsent(p.app.memory) || memory.Err? then [] else [Metric(AppMemory, AppLabels(p, withMig), memory.value)]
  }

  function Apps(apps: seq<Process>, withMig: bool): seq<Metric>
    decreases |apps|
  {
    if apps == [] then [] else Apps(apps[..|apps| - 1], withMig) + AppMetrics(apps[|apps| - 1], withMig)
  }

  /** The processes on a GPU. */
  function HowMany(apps: seq<Process>, uuid: string): nat
    decreases |apps|
  {
    if apps == [] then 0
    else HowMany(apps[..|apps| - 1], uuid) + if apps[|apps| - 1].app.uuid == uuid then 1 else 0
  }

  function Counts(order: seq<string>, apps: seq<Process>): (s: seq<Metric>)
    ensures |s| == |order|
  {
    seq(|order|, i requires 0 <= i < |order| => Metric(AppCount, [order[i]], HowMany(apps, order[i]) as real))
  }

  /** The GPUs a count is due for: every GPU of the table, and every GPU a process is on. */
  ghost predicate Counted(order: seq<string>, rows: seq<Csv.Row>, apps: seq<Process>) {
    && Distinct(order)
    && forall u :: u in order <==> (exists k :: 0 <= k < |rows| && UuidOf(rows[k]) == u) || HowMany(apps, u) > 0
  }

  function AppsPart(r: Reading, f: Features, order: seq<string>): seq<Metric> {
    if !f.apps || !r.appsAttempted then []
    else if !r.appsSuccess then [Metric(AppsSuccess, [], 0.0)]
    else [Metric(AppsSuccess, [], 1.0)] + Apps(r.apps, f.appsMig) + Counts(order, r.apps)
  }

  function Pcies(samples: seq<PcieSample>): seq<Metric>
    decreases |samples|
  {
    if samples == [] then []
    else
      var s := samples[|samples| - 1];
      Pcies(samples[..|samples| - 1]) + [Metric(PcieTx, [s.uuid], s.tx), Metric(PcieRx, [s.uuid], s.rx)]
  }

  function Energies(readings: seq<EnergyReading>): (s: seq<Metric>)
    ensures |s| == |readings|
  {
    seq(|readings|, i requires 0 <= i < |readings| => Metric(EnergyTotal, [readings[i].uuid], readings[i].joules))
  }

  datatype Gauge = Gauge(family: Family, value: Option<real>)

  function Gauges(a: MigActivity): seq<Gauge> {
    [Gauge(MigGraphics, a.graphics), Gauge(MigSm, a.sm), Gauge(MigOccupancy, a.occupancy), Gauge(MigTensor, a.tensor),
     Gauge(MigTx, a.tx), Gauge(MigRx, a.rx)]
  }

  /** The gauges that have a value. */
  function Taken(gauges: seq<Gauge>, labels: seq<string>): seq<Metric>
    decreases |gauges|
  {
    if gauges == [] then []
    else
      var g := gauges[|gauges| - 1];
      Taken(gauges[..|gauges| - 1], labels) + if g.value.Some? then [Metric(g.family, labels, g.value.value)] else []
  }

  function InstanceMetrics(d: MigDevice): seq<Metric> {
    var labels := [d.parent, d.gi];
    (if d.memory.Some? then
       [Metric(MigTotal, labels, d.memory.value.total as real), Metric(MigUsed, labels, d.memory.value.used as real),
        Metric(MigFree, labels, d.memory.value.free as real), Metric(MigReserved, labels, d.memory.value.reserved as real)]
     else [])
    + if d.activity.Some? then Taken(Gauges(d.activity.value), labels) else []
  }

  function MigLabels(d: MigDevice): seq<string> { [d.parent, d.uuid, d.gi, d.ci, d.profile] }

  function DeviceKey(d: MigDevice): string { GiKey(d.parent, d.gi) }

  predicate SeenBefore(devices: seq<MigDevice>, d: MigDevice) { exists k :: 0 <= k < |devices| && DeviceKey(devices[k]) == DeviceKey(d) }

  /** Memory and activity go out with the first device of each GPU instance. */
  function Migs(devices: seq<MigDevice>): seq<Metric>
    decreases |devices|
  {
    if devices == [] then []
    else
      var n := |devices| - 1;
      Migs(devices[..n]) + DeviceMetrics(devices[..n], devices[n])
  }

  /** What one more device adds. */
  function DeviceMetrics(earlier: seq<MigDevice>, d: MigDevice): seq<Metric> {
    [Metric(MigInfo, MigLabels(d), 1.0)] + if SeenBefore(earlier, d) then [] else InstanceMetrics(d)
  }

  function ExtrasPart(r: Reading, f: Features): seq<Metric> {
    (if f.pcie then Pcies(r.pcie) else []) + (if f.energy then Energies(r.energy) else []) + if f.mig then Migs(r.mig) else []
  }

  /** What goes out whether or not there is a table. */
  function Front(r: Reading, f: Features): seq<Metric> { Health(r) + if f.xids then Xids(r.xids) else [] }

  /** What a table brings. */
  function TablePart(r: Reading, f: Features, infos: map<string, Info>, order: seq<string>): seq<Metric>
    requires r.table.Some?
  {
    Rows(r.table.value.rows, r.cuda, infos) + AppsPart(r, f, order) + ExtrasPart(r, f)
  }

  function Scrape(r: Reading, f: Features, infos: map<string, Info>, order: seq<string>): seq<Metric> {
    Front(r, f) + if r.table.None? then [] else TablePart(r, f, infos, order)
  }
}
