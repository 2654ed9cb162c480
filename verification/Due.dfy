/** Which metrics a scrape is due to hold: exactly these, each with the reading's own value. */
module Due {
  import opened Basics
  import opened Numerals
  import opened Transform
  import opened Names
  import opened Exporter
  import Csv
  import Resolve

  predicate HealthDue(m: Metric, r: Reading) {
    || m == Metric(FailedScrapes, [], r.failures as real)
    || m == Metric(CollectSuccess, [], if r.success then 1.0 else 0.0)
    || (r.attempted && (m == Metric(ExitCode, [], r.exitCode as real) || m == Metric(CollectDuration, [], r.duration)))
    || (r.lastSuccess.Some? && m == Metric(CollectTimestamp, [], r.lastSuccess.value as real))
  }

  predicate XidDue(m: Metric, x: XidReading) {
    || m == Metric(XidCount, [x.uuid, Decimal(x.xid)], x.count as real)
    || m == Metric(XidTime, [x.uuid, Decimal(x.xid)], x.lastSeen)
  }

  /** A row's info metric carries its identity fields as labels, the uuid normalized, and the CUDA version. */
  predicate InfoDue(m: Metric, row: Csv.Row, cuda: string) {
    && m.family == GpuInfo && m.value == 1.0 && |m.labels| == |Resolve.INFO| + 1 && m.labels[|Resolve.INFO|] == cuda
    && forall i :: 0 <= i < |Resolve.INFO| ==>
         m.labels[i] == if Resolve.INFO[i] == "uuid" then UuidOf(row) else RawOf(row, Resolve.INFO[i])
  }

  predicate CellDue(m: Metric, cell: Csv.Cell, uuid: string, infos: map<string, Info>) {
    && cell.qField in infos && m.family == FieldOf(cell.qField) && m.labels == [uuid]
    && TransformField(cell.qField, cell.raw, infos[cell.qField].multiplier) == Ok(m.value)
  }

  ghost predicate RowDue(m: Metric, row: Csv.Row, cuda: string, infos: map<string, Info>) {
    InfoDue(m, row, cuda) || Any(row.cells, cell => CellDue(m, cell, UuidOf(row), infos))
  }

  predicate ProcessDue(m: Metric, p: Process, withMig: bool) {
    && m.labels == (if withMig then [p.app.uuid, p.app.pid, p.app.name, p.gi, p.ci] else [p.app.uuid, p.app.pid, p.app.name])
    && (|| (m.family == AppInfo && m.value == 1.0)
        || (m.family == AppMemory && TransformRaw(p.app.memory, 1048576.0) == Ok(m.value)))
  }

  /** The processes on a GPU, by position. */
  function On(apps: seq<Process>, uuid: string): set<nat> { set i: nat | i < |apps| && apps[i].app.uuid == uuid }

  /** Every GPU of the table and every GPU a process is on gets its number of processes. */
  ghost predicate CountDue(m: Metric, rows: seq<Csv.Row>, apps: seq<Process>) {
    && m.family == AppCount && |m.labels| == 1 && m.value == |On(apps, m.labels[0])| as real
    && (Any(rows, row => UuidOf(row) == m.labels[0]) || On(apps, m.labels[0]) != {})
  }

  ghost predicate AppsDue(m: Metric, r: Reading, f: Features)
    requires r.table.Some?
  {
    && f.apps && r.appsAttempted
    && if !r.appsSuccess then m == Metric(AppsSuccess, [], 0.0)
       else
         || m == Metric(AppsSuccess, [], 1.0)
         || Any(r.apps, p => ProcessDue(m, p, f.appsMig))
         || CountDue(m, r.table.value.rows, r.apps)
  }

  predicate PcieDue(m: Metric, s: PcieSample) { m == Metric(PcieTx, [s.uuid], s.tx) || m == Metric(PcieRx, [s.uuid], s.rx) }

  predicate GaugeDue(m: Metric, family: Family, value: Option<real>) { m.family == family && value == Some(m.value) }

  /** What the first device of a GPU instance brings for the whole instance: its memory, and each activity that was taken. */
  predicate InstanceDue(m: Metric, d: MigDevice) {
    && m.labels == [d.parent, d.gi]
    && (|| (d.memory.Some? && m.family == MigTotal && m.value == d.memory.value.total as real)
        || (d.memory.Some? && m.family == MigUsed && m.value == d.memory.value.used as real)
        || (d.memory.Some? && m.family == MigFree && m.value == d.memory.value.free as real)
        || (d.memory.Some? && m.family == MigReserved && m.value == d.memory.value.reserved as real)
        || (d.activity.Some? && ActivityDue(m, d.activity.value)))
  }

  predicate ActivityDue(m: Metric, a: MigActivity) {
    || GaugeDue(m, MigGraphics, a.graphics) || GaugeDue(m, MigSm, a.sm) || GaugeDue(m, MigOccupancy, a.occupancy)
    || GaugeDue(m, MigTensor, a.tensor) || GaugeDue(m, MigTx, a.tx) || GaugeDue(m, MigRx, a.rx)
  }

  /** Device `k` is the first of its GPU instance. */
  predicate FirstOfInstance(devices: seq<MigDevice>, k: nat)
    requires k < |devices|
  {
    forall j :: 0 <= j < k ==> devices[j].parent + "/" + devices[j].gi != devices[k].parent + "/" + devices[k].gi
  }

  predicate MigDue(m: Metric, devices: seq<MigDevice>, k: nat)
    requires k < |devices|
  {
    var d := devices[k];
    || m == Metric(MigInfo, [d.parent, d.uuid, d.gi, d.ci, d.profile], 1.0)
    || (FirstOfInstance(devices, k) && InstanceDue(m, d))
  }

  ghost predicate MigsDue(m: Metric, devices: seq<MigDevice>) { exists k: nat :: k < |devices| && MigDue(m, devices, k) }

  /** Everything that needs a table. */
  ghost predicate WithTableDue(m: Metric, r: Reading, f: Features, infos: map<string, Info>)
    requires r.table.Some?
  {
    || Any(r.table.value.rows, row => RowDue(m, row, r.cuda, infos))
    || AppsDue(m, r, f)
    || (f.pcie && Any(r.pcie, s => PcieDue(m, s)))
    || (f.energy && Any(r.energy, (e: EnergyReading) => m == Metric(EnergyTotal, [e.uuid], e.joules)))
    || (f.mig && MigsDue(m, r.mig))
  }

  /** Health and XIDs go out whatever became of the collection, everything else with its table. */
  ghost predicate IsDue(m: Metric, r: Reading, f: Features, infos: map<string, Info>) {
    || HealthDue(m, r)
    || (f.xids && Any(r.xids, x => XidDue(m, x)))
    || (r.table.Some? && WithTableDue(m, r, f, infos))
  }

  // ---------------------------------------------------------------- each part

  lemma HealthIsDue(m: Metric, r: Reading)
    ensures m in Health(r) <==> HealthDue(m, r)
  {
  }

  lemma {:induction false} XidsAreDue(m: Metric, xids: seq<XidReading>)
    ensures m in Xids(xids) <==> Any(xids, x => XidDue(m, x))
    decreases |xids|
  {
    if xids != [] {
      XidsAreDue(m, xids[..|xids| - 1]);
      AnyOneMore(xids, x => XidDue(m, x));
    }
  }

  lemma InfoIsDue(m: Metric, row: Csv.Row, cuda: string)
    ensures m == Metric(GpuInfo, InfoLabels(row, cuda), 1.0) <==> InfoDue(m, row, cuda)
  {
    if InfoDue(m, row, cuda) {
      assert m.labels == InfoLabels(row, cuda);
    }
  }

  lemma CellIsDue(m: Metric, cell: Csv.Cell, uuid: string, infos: map<string, Info>)
    ensures m in CellMetric(cell, uuid, infos) <==> CellDue(m, cell, uuid, infos)
  {
  }

  lemma {:induction false} CellsAreDue(m: Metric, cells: seq<Csv.Cell>, uuid: string, infos: map<string, Info>)
    ensures m in CellMetrics(cells, uuid, infos) <==> Any(cells, cell => CellDue(m, cell, uuid, infos))
    decreases |cells|
  {
    if cells != [] {
      CellsAreDue(m, cells[..|cells| - 1], uuid, infos);
      CellIsDue(m, cells[|cells| - 1], uuid, infos);
      AnyOneMore(cells, cell => CellDue(m, cell, uuid, infos));
    }
  }

  lemma RowIsDue(m: Metric, row: Csv.Row, cuda: string, infos: map<string, Info>)
    ensures m in RowMetrics(row, cuda, infos) <==> RowDue(m, row, cuda, infos)
  {
    InfoIsDue(m, row, cuda);
    CellsAreDue(m, row.cells, UuidOf(row), infos);
  }

  lemma {:induction false} RowsAreDue(m: Metric, rows: seq<Csv.Row>, cuda: string, infos: map<string, Info>)
    ensures m in Rows(rows, cuda, infos) <==> Any(rows, row => RowDue(m, row, cuda, infos))
    decreases |rows|
  {
    if rows != [] {
      RowsAreDue(m, rows[..|rows| - 1], cuda, infos);
      RowIsDue(m, rows[|rows| - 1], cuda, infos);
      AnyOneMore(rows, row => RowDue(m, row, cuda, infos));
    }
  }

  lemma ProcessIsDue(m: Metric, p: Process, withMig: bool)
    ensures m in AppMetrics(p, withMig) <==> ProcessDue(m, p, withMig)
  {
    if KnownAbsent(p.app.memory) {
      AbsentIsNoNumber("", p.app.memory, 1048576.0);
      assert TransformRaw(p.app.memory, 1048576.0).Err?;
    }
    assert AppLabels(p, withMig)
           == if withMig then [p.app.uuid, p.app.pid, p.app.name, p.gi, p.ci] else [p.app.uuid, p.app.pid, p.app.name];
  }

  lemma {:induction false} ProcessesAreDue(m: Metric, apps: seq<Process>, withMig: bool)
    ensures m in Apps(apps, withMig) <==> Any(apps, p => ProcessDue(m, p, withMig))
    decreases |apps|
  {
    if apps != [] {
      ProcessesAreDue(m, apps[..|apps| - 1], withMig);
      ProcessIsDue(m, apps[|apps| - 1], withMig);
      AnyOneMore(apps, p => ProcessDue(m, p, withMig));
    }
  }

  lemma {:induction false} HowManyOn(apps: seq<Process>, uuid: string)
    ensures HowMany(apps, uuid) == |On(apps, uuid)|
    decreases |apps|
  {
    if apps != [] {
      var n := |apps| - 1;
      HowManyOn(apps[..n], uuid);
      OneMoreOn(apps, uuid);
    }
  }

  lemma OneMoreOn(apps: seq<Process>, uuid: string)
    requires apps != []
    ensures |On(apps, uuid)| == |On(apps[..|apps| - 1], uuid)| + if apps[|apps| - 1].app.uuid == uuid then 1 else 0
  {
    var n: nat := |apps| - 1;
    var front := On(apps[..n], uuid);
    assert n !in front;
    assert On(apps, uuid) == front + if apps[n].app.uuid == uuid then {n} else {};
  }

  lemma CountsAreDue(m: Metric, order: seq<string>, rows: seq<Csv.Row>, apps: seq<Process>)
    requires Counted(order, rows, apps)
    ensures m in Counts(order, apps) <==> CountDue(m, rows, apps)
  {
    if m in Counts(order, apps) {
      var i :| 0 <= i < |order| && Counts(order, apps)[i] == m;
      HowManyOn(apps, order[i]);
      InOrder(order, rows, apps, order[i]);
    }
    if CountDue(m, rows, apps) {
      HowManyOn(apps, m.labels[0]);
      InOrder(order, rows, apps, m.labels[0]);
      var i :| 0 <= i < |order| && order[i] == m.labels[0];
      assert Counts(order, apps)[i] == Metric(AppCount, [order[i]], HowMany(apps, order[i]) as real);
      assert m.labels == [m.labels[0]];
    }
  }

  lemma InOrder(order: seq<string>, rows: seq<Csv.Row>, apps: seq<Process>, u: string)
    requires Counted(order, rows, apps)
    ensures u in order <==> Any(rows, row => UuidOf(row) == u) || On(apps, u) != {}
  {
    HowManyOn(apps, u);
    assert Any(rows, row => UuidOf(row) == u) <==> exists k :: 0 <= k < |rows| && UuidOf(rows[k]) == u;
  }

  lemma AppsAreDue(m: Metric, r: Reading, f: Features, order: seq<string>)
    requires r.table.Some?
    requires f.apps && r.appsAttempted && r.appsSuccess ==> Counted(order, r.table.value.rows, r.apps)
    ensures m in AppsPart(r, f, order) <==> AppsDue(m, r, f)
  {
    if f.apps && r.appsAttempted && r.appsSuccess {
      ProcessesAreDue(m, r.apps, f.appsMig);
      CountsAreDue(m, order, r.table.value.rows, r.apps);
    }
  }

  lemma {:induction false} PciesAreDue(m: Metric, samples: seq<PcieSample>)
    ensures m in Pcies(samples) <==> Any(samples, s => PcieDue(m, s))
    decreases |samples|
  {
    if samples != [] {
      PciesAreDue(m, samples[..|samples| - 1]);
      AnyOneMore(samples, s => PcieDue(m, s));
    }
  }

  lemma EnergiesAreDue(m: Metric, readings: seq<EnergyReading>)
    ensures m in Energies(readings) <==> Any(readings, (e: EnergyReading) => m == Metric(EnergyTotal, [e.uuid], e.joules))
  {
    var p := (e: EnergyReading) => m == Metric(EnergyTotal, [e.uuid], e.joules);
    assert forall i :: 0 <= i < |readings| ==> (Energies(readings)[i] == m <==> p(readings[i]));
  }

  lemma {:induction false} TakenAre(m: Metric, gauges: seq<Gauge>, labels: seq<string>)
    ensures m in Taken(gauges, labels) <==>
              m.labels == labels && Any(gauges, (g: Gauge) => GaugeDue(m, g.family, g.value))
    decreases |gauges|
  {
    if gauges != [] {
      TakenAre(m, gauges[..|gauges| - 1], labels);
      AnyOneMore(gauges, (g: Gauge) => GaugeDue(m, g.family, g.value));
    }
  }

  lemma GaugesAreSix(m: Metric, a: MigActivity)
    ensures Any(Gauges(a), (g: Gauge) => GaugeDue(m, g.family, g.value)) <==> ActivityDue(m, a)
  {
    var p := (g: Gauge) => GaugeDue(m, g.family, g.value);
    var g := Gauges(a);
    assert |g| == 6;
    assert p(g[0]) == GaugeDue(m, MigGraphics, a.graphics) && p(g[1]) == GaugeDue(m, MigSm, a.sm);
    assert p(g[2]) == GaugeDue(m, MigOccupancy, a.occupancy) && p(g[3]) == GaugeDue(m, MigTensor, a.tensor);
    assert p(g[4]) == GaugeDue(m, MigTx, a.tx) && p(g[5]) == GaugeDue(m, MigRx, a.rx);
  }

  lemma InstanceIsDue(m: Metric, d: MigDevice)
    ensures m in InstanceMetrics(d) <==> InstanceDue(m, d)
  {
    MemoryIsDue(m, d, [d.parent, d.gi]);
    if d.activity.Some? {
      TakenAre(m, Gauges(d.activity.value), [d.parent, d.gi]);
      GaugesAreSix(m, d.activity.value);
    }
    assert InstanceMetrics(d) == MemoryMetrics(d, [d.parent, d.gi])
           + if d.activity.Some? then Taken(Gauges(d.activity.value), [d.parent, d.gi]) else [];
  }

  function MemoryMetrics(d: MigDevice, labels: seq<string>): seq<Metric> {
    if d.memory.Some? then
      [Metric(MigTotal, labels, d.memory.value.total as real), Metric(MigUsed, labels, d.memory.value.used as real),
       Metric(MigFree, labels, d.memory.value.free as real), Metric(MigReserved, labels, d.memory.value.reserved as real)]
    else []
  }

  lemma MemoryIsDue(m: Metric, d: MigDevice, labels: seq<string>)
    ensures m in MemoryMetrics(d, labels) <==>
              d.memory.Some? && m.labels == labels
              && (|| (m.family == MigTotal && m.value == d.memory.value.total as real)
                  || (m.family == MigUsed && m.value == d.memory.value.used as real)
                  || (m.family == MigFree && m.value == d.memory.value.free as real)
                  || (m.family == MigReserved && m.value == d.memory.value.reserved as real))
  {
  }

  lemma FirstIsUnseen(devices: seq<MigDevice>, k: nat)
    requires k < |devices|
    ensures FirstOfInstance(devices, k) <==> !SeenBefore(devices[..k], devices[k])
  {
    assert forall j :: 0 <= j < k ==> devices[..k][j] == devices[j];
    assert forall d: MigDevice :: DeviceKey(d) == d.parent + "/" + d.gi;
  }

  lemma MigIsDue(m: Metric, devices: seq<MigDevice>, k: nat)
    requires k < |devices|
    ensures m in DeviceMetrics(devices[..k], devices[k]) <==> MigDue(m, devices, k)
  {
    InstanceIsDue(m, devices[k]);
    FirstIsUnseen(devices, k);
  }

  lemma {:induction false} MigsAreDue(m: Metric, devices: seq<MigDevice>)
    ensures m in Migs(devices) <==> MigsDue(m, devices)
    decreases |devices|
  {
    if devices != [] {
      var n := |devices| - 1;
      MigsAreDue(m, devices[..n]);
      MigIsDue(m, devices, n);
      OneMoreMig(m, devices);
    }
  }

  lemma OneMoreMig(m: Metric, devices: seq<MigDevice>)
    requires devices != []
    ensures MigsDue(m, devices) <==> MigsDue(m, devices[..|devices| - 1]) || MigDue(m, devices, |devices| - 1)
  {
    var n := |devices| - 1;
    forall k: nat | k < n
      ensures MigDue(m, devices[..n], k) <==> MigDue(m, devices, k)
    {
      assert forall j :: 0 <= j < n ==> devices[..n][j] == devices[j];
    }
  }

  // ---------------------------------------------------------------- the whole scrape

  lemma ExtrasAreDue(m: Metric, r: Reading, f: Features)
    ensures m in ExtrasPart(r, f) <==>
              || (f.pcie && Any(r.pcie, s => PcieDue(m, s)))
              || (f.energy && Any(r.energy, (e: EnergyReading) => m == Metric(EnergyTotal, [e.uuid], e.joules)))
              || (f.mig && MigsDue(m, r.mig))
  {
    PciesAreDue(m, r.pcie);
    EnergiesAreDue(m, r.energy);
    MigsAreDue(m, r.mig);
  }

  lemma TableIsDue(m: Metric, r: Reading, f: Features, infos: map<string, Info>, order: seq<string>)
    requires r.table.Some?
    requires f.apps && r.appsAttempted && r.appsSuccess ==> Counted(order, r.table.value.rows, r.apps)
    ensures m in TablePart(r, f, infos, order) <==> WithTableDue(m, r, f, infos)
  {
    RowsAreDue(m, r.table.value.rows, r.cuda, infos);
    AppsAreDue(m, r, f, order);
    ExtrasAreDue(m, r, f);
  }

  /** A scrape holds exactly the metrics that are due. */
  lemma ScrapeIsDue(m: Metric, r: Reading, f: Features, infos: map<string, Info>, order: seq<string>)
    requires r.table.Some? && f.apps && r.appsAttempted && r.appsSuccess ==> Counted(order, r.table.value.rows, r.apps)
    ensures m in Scrape(r, f, infos, order) <==> IsDue(m, r, f, infos)
  {
    HealthIsDue(m, r);
    XidsAreDue(m, r.xids);
    if r.table.Some? {
      TableIsDue(m, r, f, infos, order);
    }
  }

  lemma AllIsDue(sent: seq<Metric>, r: Reading, f: Features, infos: map<string, Info>, order: seq<string>)
    requires sent == Scrape(r, f, infos, order)
    requires r.table.Some? && f.apps && r.appsAttempted && r.appsSuccess ==> Counted(order, r.table.value.rows, r.apps)
    ensures forall m :: m in sent <==> IsDue(m, r, f, infos)
    ensures f.xids ==> forall i :: 0 <= i < |r.xids| ==>
              var x := r.xids[i];
              && Metric(XidCount, [x.uuid, Decimal(x.xid)], x.count as real) in sent
              && Metric(XidTime, [x.uuid, Decimal(x.xid)], x.lastSeen) in sent
  {
    forall m
      ensures m in sent <==> IsDue(m, r, f, infos)
    {
      ScrapeIsDue(m, r, f, infos, order);
    }
    if f.xids {
      forall i | 0 <= i < |r.xids|
        ensures XidsGoOut(sent, r.xids[i])
      {
        XidIsSent(sent, r, f, infos, i);
      }
    }
  }

  predicate XidsGoOut(sent: seq<Metric>, x: XidReading) {
    && Metric(XidCount, [x.uuid, Decimal(x.xid)], x.count as real) in sent
    && Metric(XidTime, [x.uuid, Decimal(x.xid)], x.lastSeen) in sent
  }

  lemma XidIsSent(sent: seq<Metric>, r: Reading, f: Features, infos: map<string, Info>, i: nat)
    requires f.xids && i < |r.xids| && forall m :: m in sent <==> IsDue(m, r, f, infos)
    ensures XidsGoOut(sent, r.xids[i])
  {
    var x := r.xids[i];
    var count := Metric(XidCount, [x.uuid, Decimal(x.xid)], x.count as real);
    var time := Metric(XidTime, [x.uuid, Decimal(x.xid)], x.lastSeen);
    var dueCount, dueTime := (y: XidReading) => XidDue(count, y), (y: XidReading) => XidDue(time, y);
    assert dueCount(r.xids[i]) && dueTime(r.xids[i]);
    assert Any(r.xids, dueCount) && Any(r.xids, dueTime);
    assert IsDue(count, r, f, infos) && IsDue(time, r, f, infos);
  }
}
