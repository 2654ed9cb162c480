/** The render loops, each with the metrics it sends, in order. */
module Render {
  import opened Basics
  import opened Numerals
  import opened Transform
  import opened Names
  import opened Exporter
  import opened Scrapes
  import opened Collector
  import opened Due
  import Csv
  import Resolve

  /** renderHealth. */
  method RenderHealth(r: Reading) returns (more: seq<Metric>)
    ensures more == Health(r)
  {
    more := [Metric(FailedScrapes, [], r.failures as real)];
    var success := 0.0;
    if r.success {
      success := 1.0;
    }
    more := more + [Metric(CollectSuccess, [], success)];
    if r.attempted {
      more := more + [Metric(ExitCode, [], r.exitCode as real)];
      more := more + [Metric(CollectDuration, [], r.duration)];
    }
    if r.lastSuccess.Some? {
      more := more + [Metric(CollectTimestamp, [], r.lastSuccess.value as real)];
    }
  }

  /** renderXIDs. */
  method RenderXids(xids: seq<XidReading>) returns (more: seq<Metric>)
    ensures more == Xids(xids)
  {
    more := [];
    for n := 0 to |xids|
      invariant more == Xids(xids[..n])
    {
      assert xids[..n + 1][..n] == xids[..n];
      var labels := [xids[n].uuid, Decimal(xids[n].xid)];
      more := more + [Metric(XidCount, labels, xids[n].count as real)];
      more := more + [Metric(XidTime, labels, xids[n].lastSeen)];
    }
    assert xids[..|xids|] == xids;
  }

  /** The identity labels, filled by index. */
  method FillLabels(row: Csv.Row, cuda: string) returns (labels: array<string>)
    ensures labels[..] == InfoLabels(row, cuda)
  {
    var uuid := UuidOf(row);
    labels := new string[|Resolve.INFO| + 1];
    for idx := 0 to |Resolve.INFO|
      invariant labels[..idx] == InfoLabels(row, cuda)[..idx]
    {
      labels[idx] := if Resolve.INFO[idx] == "uuid" then uuid else RawOf(row, Resolve.INFO[idx]);
    }
    labels[|Resolve.INFO|] := cuda;
  }

  /** renderRow. */
  method RenderRow(row: Csv.Row, cuda: string, infos: map<string, Info>) returns (more: seq<Metric>)
    ensures more == RowMetrics(row, cuda, infos)
  {
    var labels := FillLabels(row, cuda);
    var cells := RenderCells(row.cells, UuidOf(row), infos);
    more := [Metric(GpuInfo, labels[..], 1.0)] + cells;
  }

  method RenderCells(cells: seq<Csv.Cell>, uuid: string, infos: map<string, Info>) returns (more: seq<Metric>)
    ensures more == CellMetrics(cells, uuid, infos)
    ensures Readings(more, cells, uuid, infos)
  {
    CellsAreReadings(cells, uuid, infos);
    more := [];
    for n := 0 to |cells|
      invariant more == CellMetrics(cells[..n], uuid, infos)
    {
      assert cells[..n + 1][..n] == cells[..n];
      var part := RenderCell(cells[n], uuid, infos);
      more := more + part;
    }
    assert cells[..|cells|] == cells;
  }

  /** renderCell. */
  method RenderCell(cell: Csv.Cell, uuid: string, infos: map<string, Info>) returns (more: seq<Metric>)
    ensures more == CellMetric(cell, uuid, infos)
  {
    more := [];
    if cell.qField !in infos {
      return;
    }
    var value := TransformField(cell.qField, cell.raw, infos[cell.qField].multiplier);
    if value.Ok? {
      more := more + [Metric(FieldOf(cell.qField), [uuid], value.value)];
    }
  }

  /** renderApp. */
  method RenderApp(p: Process, withMig: bool) returns (more: seq<Metric>)
    ensures more == AppMetrics(p, withMig)
  {
    more := [Metric(AppInfo, AppLabels(p, withMig), 1.0)];
    if KnownAbsent(p.app.memory) {
      return;
    }
    var memory := TransformRaw(p.app.memory, MEMORY_SCALE);
    if memory.Ok? {
      more := more + [Metric(AppMemory, AppLabels(p, withMig), memory.value)];
    }
  }

  /** What the count map holds: every GPU of the table, and every GPU a process is on, with its processes so far. */
  ghost predicate CountsOf(counts: map<string, nat>, rows: seq<Csv.Row>, apps: seq<Process>) {
    && (forall u :: u in counts ==> counts[u] == HowMany(apps, u))
    && (forall k :: 0 <= k < |rows| ==> UuidOf(rows[k]) in counts)
    && (forall u :: u in counts ==> (exists k :: 0 <= k < |rows| && UuidOf(rows[k]) == u) || HowMany(apps, u) > 0)
    && (forall u :: HowMany(apps, u) > 0 ==> u in counts)
  }

  method ZeroFill(rows: seq<Csv.Row>) returns (counts: map<string, nat>)
    ensures CountsOf(counts, rows, [])
  {
    counts := map[];
    for k := 0 to |rows|
      invariant forall u :: u in counts ==> counts[u] == 0 && exists j :: 0 <= j < k && UuidOf(rows[j]) == u
      invariant forall j :: 0 <= j < k ==> UuidOf(rows[j]) in counts
    {
      counts := counts[UuidOf(rows[k]) := 0];
    }
  }

  lemma CountStep(counts: map<string, nat>, rows: seq<Csv.Row>, apps: seq<Process>, n: nat, more: map<string, nat>)
    requires n < |apps| && CountsOf(counts, rows, apps[..n])
    requires var u := apps[n].app.uuid; more == counts[u := (if u in counts then counts[u] else 0) + 1]
    ensures CountsOf(more, rows, apps[..n + 1])
  {
    assert apps[..n + 1][..n] == apps[..n];
    var u := apps[n].app.uuid;
    assert forall v :: HowMany(apps[..n + 1], v) == HowMany(apps[..n], v) + if v == u then 1 else 0;
  }

  /** One count per key, in whatever order the map yields them. */
  method RenderCounts(counts: map<string, nat>, ghost apps: seq<Process>)
    returns (more: seq<Metric>, ghost order: seq<string>)
    requires forall u :: u in counts ==> counts[u] == HowMany(apps, u)
    ensures Distinct(order) && (forall u :: u in order <==> u in counts)
    ensures more == Counts(order, apps)
  {
    more, order := [], [];
    var todo := counts;
    while todo.Keys != {}
      invariant Distinct(order) && forall u :: u in order <==> u in counts && u !in todo
      invariant forall u :: u in todo ==> u in counts && todo[u] == counts[u]
      invariant more == Counts(order, apps)
      decreases |todo|
    {
      var u :| u in todo.Keys;
      more := more + [Metric(AppCount, [u], todo[u] as real)];
      assert Counts(order + [u], apps) == Counts(order, apps) + [Metric(AppCount, [u], HowMany(apps, u) as real)];
      order := order + [u];
      Shrinks(todo, u);
      todo := todo - {u};
    }
    assert forall u :: u in todo ==> u in todo.Keys;
  }

  lemma Shrinks(m: map<string, nat>, u: string)
    requires u in m
    ensures |m - {u}| < |m|
  {
    assert (m - {u}).Keys == m.Keys - {u};
    assert |(m - {u}).Keys| == |m - {u}| && |m.Keys| == |m|;
  }

  /** One process counted. */
  method CountOne(counts: map<string, nat>, ghost rows: seq<Csv.Row>, apps: seq<Process>, n: nat) returns (more: map<string, nat>)
    requires n < |apps| && CountsOf(counts, rows, apps[..n])
    ensures CountsOf(more, rows, apps[..n + 1])
  {
    var u := apps[n].app.uuid;
    more := counts[u := (if u in counts then counts[u] else 0) + 1];
    CountStep(counts, rows, apps, n, more);
  }

  lemma AppsGrow(apps: seq<Process>, n: nat, withMig: bool)
    requires n < |apps|
    ensures Apps(apps[..n + 1], withMig) == Apps(apps[..n], withMig) + AppMetrics(apps[n], withMig)
  {
    assert apps[..n + 1][..n] == apps[..n];
  }

  /** The processes' metrics, and the count map they fill. */
  method RenderProcesses(rows: seq<Csv.Row>, apps: seq<Process>, withMig: bool)
    returns (more: seq<Metric>, counts: map<string, nat>)
    ensures more == Apps(apps, withMig) && CountsOf(counts, rows, apps)
  {
    more := [];
    counts := ZeroFill(rows);
    for n := 0 to |apps|
      invariant CountsOf(counts, rows, apps[..n])
      invariant more == Apps(apps[..n], withMig)
    {
      AppsGrow(apps, n, withMig);
      counts := CountOne(counts, rows, apps, n);
      var part := RenderApp(apps[n], withMig);
      more := more + part;
    }
    assert apps[..|apps|] == apps;
  }

  /** renderApps. */
  method RenderApps(r: Reading, f: Features) returns (more: seq<Metric>, ghost order: seq<string>)
    requires r.table.Some?
    ensures more == AppsPart(r, f, order) && Distinct(order)
    ensures f.apps && r.appsAttempted && r.appsSuccess ==> Counted(order, r.table.value.rows, r.apps)
  {
    more, order := [], [];
    if !f.apps || !r.appsAttempted {
      return;
    }
    if !r.appsSuccess {
      return [Metric(AppsSuccess, [], 0.0)], [];
    }
    var processes, counts := RenderProcesses(r.table.value.rows, r.apps, f.appsMig);
    var counted;
    counted, order := RenderCounts(counts, r.apps);
    more := [Metric(AppsSuccess, [], 1.0)] + processes + counted;
  }

  /** renderMIGInstance. */
  method RenderMigInstance(d: MigDevice, emitted: set<string>) returns (more: seq<Metric>, marked: set<string>)
    ensures marked == emitted + {DeviceKey(d)}
    ensures more == [Metric(MigInfo, MigLabels(d), 1.0)] + if DeviceKey(d) in emitted then [] else InstanceMetrics(d)
  {
    more, marked := [Metric(MigInfo, MigLabels(d), 1.0)], emitted;
    var key := d.parent + "/" + d.gi;
    if key in emitted {
      return;
    }
    marked := emitted + {key};
    var labels := [d.parent, d.gi];
    var memory: seq<Metric> := [];
    if d.memory.Some? {
      var m := d.memory.value;
      memory := [Metric(MigTotal, labels, m.total as real), Metric(MigUsed, labels, m.used as real),
                 Metric(MigFree, labels, m.free as real), Metric(MigReserved, labels, m.reserved as real)];
    }
    var gauges: seq<Metric> := [];
    if d.activity.Some? {
      gauges := RenderGauges(Gauges(d.activity.value), labels);
    }
    more := more + (memory + gauges);
  }

  method RenderGauges(gauges: seq<Gauge>, labels: seq<string>) returns (more: seq<Metric>)
    ensures more == Taken(gauges, labels)
  {
    more := [];
    for n := 0 to |gauges|
      invariant more == Taken(gauges[..n], labels)
    {
      assert gauges[..n + 1][..n] == gauges[..n];
      if gauges[n].value.None? {
        continue;
      }
      more := more + [Metric(gauges[n].family, labels, gauges[n].value.value)];
    }
    assert gauges[..|gauges|] == gauges;
  }

  /** One more device, and its instance's metrics unless an earlier device brought them. */
  method RenderOneMig(devices: seq<MigDevice>, n: nat, before: seq<Metric>, emitted: set<string>)
    returns (more: seq<Metric>, marked: set<string>)
    requires n < |devices| && before == Migs(devices[..n]) && KeysSeen(emitted, devices[..n])
    ensures more == Migs(devices[..n + 1]) && KeysSeen(marked, devices[..n + 1])
  {
    var part;
    part, marked := RenderMigInstance(devices[n], emitted);
    EmittedIsSeen(emitted, devices[..n], devices[n]);
    MigsStep(devices, n, before, part);
    KeysStep(emitted, devices[..n], devices[n]);
    assert devices[..n] + [devices[n]] == devices[..n + 1];
    more := before + part;
  }

  method RenderMigs(devices: seq<MigDevice>) returns (more: seq<Metric>)
    ensures more == Migs(devices)
  {
    more := [];
    var emitted: set<string> := {};
    for n := 0 to |devices|
      invariant more == Migs(devices[..n])
      invariant KeysSeen(emitted, devices[..n])
    {
      more, emitted := RenderOneMig(devices, n, more, emitted);
    }
    assert devices[..|devices|] == devices;
  }

  lemma EmittedIsSeen(emitted: set<string>, front: seq<MigDevice>, d: MigDevice)
    requires KeysSeen(emitted, front)
    ensures SeenBefore(front, d) <==> DeviceKey(d) in emitted
  {
  }

  lemma MigsStep(devices: seq<MigDevice>, n: nat, more: seq<Metric>, part: seq<Metric>)
    requires n < |devices| && more == Migs(devices[..n])
    requires part == [Metric(MigInfo, MigLabels(devices[n]), 1.0)]
             + if SeenBefore(devices[..n], devices[n]) then [] else InstanceMetrics(devices[n])
    ensures more + part == Migs(devices[..n + 1])
  {
    assert devices[..n + 1][..n] == devices[..n];
  }

  /** The emitted keys are those of the devices rendered so far. */
  ghost predicate KeysSeen(emitted: set<string>, devices: seq<MigDevice>) {
    forall key :: key in emitted <==> exists k :: 0 <= k < |devices| && DeviceKey(devices[k]) == key
  }

  lemma KeysStep(emitted: set<string>, front: seq<MigDevice>, d: MigDevice)
    requires KeysSeen(emitted, front)
    ensures KeysSeen(emitted + {DeviceKey(d)}, front + [d])
  {
    var all := front + [d];
    forall key
      ensures key in emitted + {DeviceKey(d)} <==> exists k :: 0 <= k < |all| && DeviceKey(all[k]) == key
    {
      if key in emitted {
        var k :| 0 <= k < |front| && DeviceKey(front[k]) == key;
        assert all[k] == front[k];
      }
      assert all[|front|] == d;
      assert forall k :: 0 <= k < |front| ==> all[k] == front[k];
    }
  }

  /** renderExtras. */
  method RenderExtras(r: Reading, f: Features) returns (more: seq<Metric>)
    ensures more == ExtrasPart(r, f)
  {
    var pcie: seq<Metric>, energy: seq<Metric>, mig: seq<Metric> := [], [], [];
    if f.pcie {
      pcie := RenderPcie(r.pcie);
    }
    if f.energy {
      energy := RenderEnergy(r.energy);
    }
    if f.mig {
      mig := RenderMigs(r.mig);
    }
    more := pcie + energy + mig;
  }

  method RenderEnergy(readings: seq<EnergyReading>) returns (more: seq<Metric>)
    ensures more == Energies(readings)
  {
    more := [];
    for n := 0 to |readings|
      invariant more == Energies(readings)[..n]
    {
      more := more + [Metric(EnergyTotal, [readings[n].uuid], readings[n].joules)];
    }
    assert Energies(readings)[..|readings|] == Energies(readings);
  }

  method RenderPcie(samples: seq<PcieSample>) returns (more: seq<Metric>)
    ensures more == Pcies(samples)
  {
    more := [];
    for n := 0 to |samples|
      invariant more == Pcies(samples[..n])
    {
      assert samples[..n + 1][..n] == samples[..n];
      more := more + [Metric(PcieTx, [samples[n].uuid], samples[n].tx)];
      more := more + [Metric(PcieRx, [samples[n].uuid], samples[n].rx)];
    }
    assert samples[..|samples|] == samples;
  }

  method RenderRows(rows: seq<Csv.Row>, cuda: string, infos: map<string, Info>) returns (more: seq<Metric>)
    ensures more == Rows(rows, cuda, infos)
  {
    more := [];
    for n := 0 to |rows|
      invariant more == Rows(rows[..n], cuda, infos)
    {
      assert rows[..n + 1][..n] == rows[..n];
      var part := RenderRow(rows[n], cuda, infos);
      more := more + part;
    }
    assert rows[..|rows|] == rows;
  }

  method RenderFront(r: Reading, f: Features) returns (sent: seq<Metric>)
    ensures sent == Front(r, f)
  {
    sent := RenderHealth(r);
    if f.xids {
      var xids := RenderXids(r.xids);
      sent := sent + xids;
    }
  }

  method RenderTable(r: Reading, f: Features, infos: map<string, Info>) returns (sent: seq<Metric>, ghost order: seq<string>)
    requires r.table.Some?
    ensures sent == TablePart(r, f, infos, order) && Distinct(order)
    ensures f.apps && r.appsAttempted && r.appsSuccess ==> Counted(order, r.table.value.rows, r.apps)
  {
    var rows := RenderRows(r.table.value.rows, r.cuda, infos);
    var apps;
    apps, order := RenderApps(r, f);
    var extras := RenderExtras(r, f);
    sent := rows + apps + extras;
  }

  /**
   Collect: health first, XIDs even when the collection failed, the rest only with a table. What goes out is exactly what
   is due, each family with the reading's own values, and no series of an identified reading goes out twice.
   */
  method Collect(r: Reading, f: Features, infos: map<string, Info>, ghost prefix: string, ghost status: string)
    returns (sent: seq<Metric>, ghost order: seq<string>)
    ensures sent == Scrape(r, f, infos, order)
    ensures forall m :: m in sent <==> IsDue(m, r, f, infos)
    ensures f.xids ==> forall i :: 0 <= i < |r.xids| ==>
              var x := r.xids[i];
              && Metric(XidCount, [x.uuid, Decimal(x.xid)], x.count as real) in sent
              && Metric(XidTime, [x.uuid, Decimal(x.xid)], x.lastSeen) in sent
    ensures Identified(r, f) && WellDescribed(infos, prefix, status) && OwnStatus(status) ==> NoDuplicates(sent, prefix, status, infos)
    ensures r.table.Some? && f.apps && r.appsAttempted && r.appsSuccess ==> Counted(order, r.table.value.rows, r.apps)
  {
    order := [];
    sent := RenderFront(r, f);
    if r.table.Some? {
      var table;
      table, order := RenderTable(r, f, infos);
      sent := sent + table;
    }
    AllIsDue(sent, r, f, infos, order);
    if Identified(r, f) && WellDescribed(infos, prefix, status) && OwnStatus(status) {
      NoScrapeRepeatsASeries(r, f, infos, order, prefix, status);
    }
  }
}
