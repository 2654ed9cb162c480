/** No scrape emits two metrics with the same name and labels. */
module Scrapes {
  import opened Basics
  import opened Numerals
  import opened Names
  import opened Transform
  import opened Exporter
  import Csv

  predicate Unique(s: seq<Metric>) { forall i, j :: 0 <= i < j < |s| ==> SeriesOf(s[i]) != SeriesOf(s[j]) }

  ghost predicate Apart(a: seq<Metric>, b: seq<Metric>) {
    forall i, j :: 0 <= i < |a| && 0 <= j < |b| ==> SeriesOf(a[i]) != SeriesOf(b[j])
  }

  lemma Joined(a: seq<Metric>, b: seq<Metric>)
    requires Unique(a) && Unique(b) && Apart(a, b)
    ensures Unique(a + b)
  {
  }

  // ---------------------------------------------------------------- what a reading must keep apart

  predicate DistinctRows(rows: seq<Csv.Row>) { forall i, j :: 0 <= i < j < |rows| ==> UuidOf(rows[i]) != UuidOf(rows[j]) }

  /** A row's cells belong to different fields, as resolution and parsing leave them. */
  predicate OwnFields(cells: seq<Csv.Cell>) { forall i, j :: 0 <= i < j < |cells| ==> cells[i].qField != cells[j].qField }

  predicate DistinctApps(apps: seq<Process>, withMig: bool) {
    forall i, j :: 0 <= i < j < |apps| ==> AppLabels(apps[i], withMig) != AppLabels(apps[j], withMig)
  }

  predicate DistinctPcie(s: seq<PcieSample>) { forall i, j :: 0 <= i < j < |s| ==> s[i].uuid != s[j].uuid }

  predicate DistinctEnergy(s: seq<EnergyReading>) { forall i, j :: 0 <= i < j < |s| ==> s[i].uuid != s[j].uuid }

  predicate DistinctMig(s: seq<MigDevice>) { forall i, j :: 0 <= i < j < |s| ==> MigLabels(s[i]) != MigLabels(s[j]) }

  predicate DistinctXids(s: seq<XidReading>) { forall i, j :: 0 <= i < j < |s| ==> s[i].uuid != s[j].uuid || s[i].xid != s[j].xid }

  predicate Identified(r: Reading, f: Features) {
    && (r.table.Some? ==> DistinctRows(r.table.value.rows))
    && (r.table.Some? ==> forall k :: 0 <= k < |r.table.value.rows| ==> OwnFields(r.table.value.rows[k].cells))
    && DistinctApps(r.apps, f.appsMig) && DistinctPcie(r.pcie) && DistinctEnergy(r.energy)
    && DistinctMig(r.mig) && DistinctXids(r.xids)
  }

  // ---------------------------------------------------------------- parts by group

  /** Which part of a scrape a family belongs to. */
  function Group(f: Family): nat {
    match f
    case FailedScrapes => 0
    case CollectSuccess => 0
    case CollectTimestamp => 0
    case CollectDuration => 0
    case ExitCode => 0
    case XidCount => 1
    case XidTime => 1
    case GpuInfo => 2
    case FieldOf(_) => 2
    case AppInfo => 3
    case AppMemory => 3
    case AppCount => 3
    case AppsSuccess => 3
    case PcieTx => 4
    case PcieRx => 4
    case EnergyTotal => 5
    case _ => 6
  }

  ghost predicate InGroups(s: seq<Metric>, low: nat, high: nat) { forall i :: 0 <= i < |s| ==> low <= Group(s[i].family) <= high }

  lemma GroupsApart(a: seq<Metric>, b: seq<Metric>, m: nat, n: nat, low: nat, high: nat)
    requires Unique(a) && Unique(b) && InGroups(a, low, m) && InGroups(b, n, high) && low <= m < n <= high
    ensures Unique(a + b) && InGroups(a + b, low, high)
  {
    forall i, j | 0 <= i < |a| && 0 <= j < |b|
      ensures SeriesOf(a[i]) != SeriesOf(b[j])
    {
      assert Group(a[i].family) < Group(b[j].family);
    }
    Joined(a, b);
  }

  lemma HealthUnique(r: Reading)
    ensures Unique(Health(r)) && InGroups(Health(r), 0, 0)
  {
  }

  function XidLabels(x: XidReading): seq<string> { [x.uuid, Decimal(x.xid)] }

  ghost predicate FromXid(m: Metric, xids: seq<XidReading>) {
    Group(m.family) == 1 && exists k :: 0 <= k < |xids| && m.labels == XidLabels(xids[k])
  }

  ghost predicate FromXids(s: seq<Metric>, xids: seq<XidReading>) { forall i :: 0 <= i < |s| ==> FromXid(s[i], xids) }

  lemma FromMoreXids(s: seq<Metric>, xids: seq<XidReading>, n: nat)
    requires n <= |xids| && FromXids(s, xids[..n])
    ensures FromXids(s, xids)
  {
    forall i | 0 <= i < |s|
      ensures FromXid(s[i], xids)
    {
      assert FromXid(s[i], xids[..n]);
      var k :| 0 <= k < n && s[i].labels == XidLabels(xids[..n][k]);
      assert xids[..n][k] == xids[k];
    }
  }

  lemma XidApart(s: seq<Metric>, xids: seq<XidReading>, x: XidReading)
    requires FromXids(s, xids) && forall k :: 0 <= k < |xids| ==> xids[k].uuid != x.uuid || xids[k].xid != x.xid
    ensures forall i :: 0 <= i < |s| ==> s[i].labels != XidLabels(x)
  {
    forall i | 0 <= i < |s|
      ensures s[i].labels != XidLabels(x)
    {
      assert FromXid(s[i], xids);
      var k :| 0 <= k < |xids| && s[i].labels == XidLabels(xids[k]);
      XidLabelsDiffer(xids[k], x);
    }
  }

  lemma {:induction false} XidsUnique(xids: seq<XidReading>)
    requires DistinctXids(xids)
    ensures Unique(Xids(xids)) && FromXids(Xids(xids), xids) && InGroups(Xids(xids), 1, 1)
    decreases |xids|
  {
    if xids != [] {
      var n := |xids| - 1;
      var a, x := Xids(xids[..n]), xids[n];
      var b := [Metric(XidCount, XidLabels(x), x.count as real), Metric(XidTime, XidLabels(x), x.lastSeen)];
      XidsUnique(xids[..n]);
      XidApart(a, xids[..n], x);
      Joined(a, b);
      FromMoreXids(a, xids, n);
      assert Xids(xids) == a + b;
    }
  }

  lemma XidLabelsDiffer(a: XidReading, b: XidReading)
    requires a.uuid != b.uuid || a.xid != b.xid
    ensures XidLabels(a) != XidLabels(b)
  {
    if XidLabels(a) == XidLabels(b) {
      assert XidLabels(a)[0] == a.uuid && XidLabels(a)[1] == Decimal(a.xid);
      assert XidLabels(b)[0] == b.uuid && XidLabels(b)[1] == Decimal(b.xid);
      DecimalInjective(a.xid, b.xid);
    }
  }

  // ---------------------------------------------------------------- rows

  /** Every metric of a list is about this GPU. */
  ghost predicate About(s: seq<Metric>, uuid: string) {
    forall i :: 0 <= i < |s| ==> Group(s[i].family) == 2 && s[i].labels != [] && s[i].labels[0] == uuid
  }

  ghost predicate OfCell(m: Metric, cells: seq<Csv.Cell>) {
    m.family.FieldOf? && exists c :: 0 <= c < |cells| && m.family.qField == cells[c].qField
  }

  /** Every metric of a list is a field's, of one of these cells. */
  ghost predicate OfCells(s: seq<Metric>, cells: seq<Csv.Cell>) { forall i :: 0 <= i < |s| ==> OfCell(s[i], cells) }

  lemma OfMoreCells(s: seq<Metric>, cells: seq<Csv.Cell>, n: nat)
    requires n <= |cells| && OfCells(s, cells[..n])
    ensures OfCells(s, cells)
  {
    forall i | 0 <= i < |s|
      ensures OfCell(s[i], cells)
    {
      assert OfCell(s[i], cells[..n]);
      var c :| 0 <= c < n && s[i].family.qField == cells[..n][c].qField;
      assert cells[..n][c] == cells[c];
    }
  }

  ghost predicate OneField(s: seq<Metric>, qField: string, uuid: string) {
    |s| <= 1 && forall i :: 0 <= i < |s| ==> s[i].family == FieldOf(qField) && s[i].labels == [uuid]
  }

  lemma ValueIsOneField(qField: string, uuid: string, v: Result<real, Unusable>)
    ensures OneField(ValueMetric(qField, uuid, v), qField, uuid)
  {
  }

  lemma OneCell(cell: Csv.Cell, uuid: string, infos: map<string, Info>)
    ensures OneField(CellMetric(cell, uuid, infos), cell.qField, uuid)
  {
    if cell.qField in infos {
      ValueIsOneField(cell.qField, uuid, TransformField(cell.qField, cell.raw, infos[cell.qField].multiplier));
    }
  }

  lemma CellApart(s: seq<Metric>, cells: seq<Csv.Cell>, cell: Csv.Cell, uuid: string, infos: map<string, Info>)
    requires OfCells(s, cells) && forall c :: 0 <= c < |cells| ==> cells[c].qField != cell.qField
    ensures Apart(s, CellMetric(cell, uuid, infos))
  {
    OneCell(cell, uuid, infos);
    assert forall i :: 0 <= i < |s| ==> OfCell(s[i], cells);
  }

  lemma {:induction false} CellsUnique(cells: seq<Csv.Cell>, uuid: string, infos: map<string, Info>)
    requires OwnFields(cells)
    ensures var s := CellMetrics(cells, uuid, infos); Unique(s) && About(s, uuid) && OfCells(s, cells)
    decreases |cells|
  {
    if cells != [] {
      var n := |cells| - 1;
      CellsUnique(cells[..n], uuid, infos);
      CellAdded(CellMetrics(cells[..n], uuid, infos), cells, n, uuid, infos);
    }
  }

  lemma CellAdded(a: seq<Metric>, cells: seq<Csv.Cell>, n: nat, uuid: string, infos: map<string, Info>)
    requires n + 1 == |cells| && OwnFields(cells) && Unique(a) && About(a, uuid) && OfCells(a, cells[..n])
    ensures var s := a + CellMetric(cells[n], uuid, infos); Unique(s) && About(s, uuid) && OfCells(s, cells)
  {
    OneCell(cells[n], uuid, infos);
    CellApart(a, cells[..n], cells[n], uuid, infos);
    Joined(a, CellMetric(cells[n], uuid, infos));
    OfMoreCells(a, cells, n);
  }

  lemma RowUnique(row: Csv.Row, cuda: string, infos: map<string, Info>)
    requires OwnFields(row.cells)
    ensures Unique(RowMetrics(row, cuda, infos)) && About(RowMetrics(row, cuda, infos), UuidOf(row))
  {
    CellsUnique(row.cells, UuidOf(row), infos);
    Joined([Metric(GpuInfo, InfoLabels(row, cuda), 1.0)], CellMetrics(row.cells, UuidOf(row), infos));
  }

  lemma {:induction false} RowsUnique(rows: seq<Csv.Row>, cuda: string, infos: map<string, Info>)
    requires DistinctRows(rows) && forall k :: 0 <= k < |rows| ==> OwnFields(rows[k].cells)
    ensures var s := Rows(rows, cuda, infos); Unique(s) && InGroups(s, 2, 2) && FromRows(s, rows)
    decreases |rows|
  {
    if rows != [] {
      var n := |rows| - 1;
      RowsUnique(rows[..n], cuda, infos);
      RowUnique(rows[n], cuda, infos);
      var a, b := Rows(rows[..n], cuda, infos), RowMetrics(rows[n], cuda, infos);
      OneMoreRow(a, b, rows);
      Joined(a, b);
    }
  }

  ghost predicate FromRow(m: Metric, rows: seq<Csv.Row>) {
    m.labels != [] && exists k :: 0 <= k < |rows| && m.labels[0] == UuidOf(rows[k])
  }

  ghost predicate FromRows(s: seq<Metric>, rows: seq<Csv.Row>) { forall i :: 0 <= i < |s| ==> FromRow(s[i], rows) }

  lemma OneMoreRow(a: seq<Metric>, b: seq<Metric>, rows: seq<Csv.Row>)
    requires rows != [] && DistinctRows(rows) && FromRows(a, rows[..|rows| - 1]) && About(b, UuidOf(rows[|rows| - 1]))
    ensures Apart(a, b) && FromRows(a + b, rows)
  {
    var n := |rows| - 1;
    forall i | 0 <= i < |a|
      ensures a[i].labels[0] != UuidOf(rows[n]) && FromRow(a[i], rows)
    {
      assert FromRow(a[i], rows[..n]);
      var k :| 0 <= k < n && a[i].labels[0] == UuidOf(rows[..n][k]);
      assert rows[..n][k] == rows[k];
    }
  }

  // ---------------------------------------------------------------- processes

  ghost predicate FromApp(m: Metric, apps: seq<Process>, withMig: bool) {
    (m.family.AppInfo? || m.family.AppMemory?) && exists k :: 0 <= k < |apps| && m.labels == AppLabels(apps[k], withMig)
  }

  ghost predicate FromApps(s: seq<Metric>, apps: seq<Process>, withMig: bool) {
    forall i :: 0 <= i < |s| ==> FromApp(s[i], apps, withMig)
  }

  lemma FromMoreApps(s: seq<Metric>, apps: seq<Process>, n: nat, withMig: bool)
    requires n <= |apps| && FromApps(s, apps[..n], withMig)
    ensures FromApps(s, apps, withMig)
  {
    forall i | 0 <= i < |s|
      ensures FromApp(s[i], apps, withMig)
    {
      assert FromApp(s[i], apps[..n], withMig);
      var k :| 0 <= k < n && s[i].labels == AppLabels(apps[..n][k], withMig);
      assert apps[..n][k] == apps[k];
    }
  }

  lemma AppApart(s: seq<Metric>, apps: seq<Process>, p: Process, withMig: bool)
    requires FromApps(s, apps, withMig)
    requires forall k :: 0 <= k < |apps| ==> AppLabels(apps[k], withMig) != AppLabels(p, withMig)
    ensures Apart(s, AppMetrics(p, withMig))
  {
    OneApp(p, withMig);
    forall i | 0 <= i < |s|
      ensures s[i].labels != AppLabels(p, withMig)
    {
      assert FromApp(s[i], apps, withMig);
      var k :| 0 <= k < |apps| && s[i].labels == AppLabels(apps[k], withMig);
    }
  }

  lemma {:induction false} AppsUnique(apps: seq<Process>, withMig: bool)
    requires DistinctApps(apps, withMig)
    ensures Unique(Apps(apps, withMig)) && FromApps(Apps(apps, withMig), apps, withMig)
    decreases |apps|
  {
    if apps != [] {
      var n := |apps| - 1;
      var a, b := Apps(apps[..n], withMig), AppMetrics(apps[n], withMig);
      AppsUnique(apps[..n], withMig);
      AppApart(a, apps[..n], apps[n], withMig);
      OneApp(apps[n], withMig);
      Joined(a, b);
      FromMoreApps(a, apps, n, withMig);
      assert Apps(apps, withMig) == a + b;
    }
  }

  lemma OneApp(p: Process, withMig: bool)
    ensures Unique(AppMetrics(p, withMig))
    ensures forall i :: 0 <= i < |AppMetrics(p, withMig)| ==>
              var m := AppMetrics(p, withMig)[i]; (m.family.AppInfo? || m.family.AppMemory?) && m.labels == AppLabels(p, withMig)
  {
  }

  lemma CountsUnique(order: seq<string>, apps: seq<Process>)
    requires Distinct(order)
    ensures Unique(Counts(order, apps)) && InGroups(Counts(order, apps), 3, 3)
    ensures forall i :: 0 <= i < |Counts(order, apps)| ==> Counts(order, apps)[i].family.AppCount?
  {
    var s := Counts(order, apps);
    forall i, j | 0 <= i < j < |s|
      ensures SeriesOf(s[i]) != SeriesOf(s[j])
    {
      assert s[i].labels[0] == order[i] && s[j].labels[0] == order[j];
    }
  }

  lemma ProcessesAndCountsApart(apps: seq<Process>, withMig: bool, order: seq<string>)
    requires DistinctApps(apps, withMig) && Distinct(order)
    ensures Unique(Apps(apps, withMig) + Counts(order, apps)) && InGroups(Apps(apps, withMig) + Counts(order, apps), 3, 3)
    ensures forall i :: 0 <= i < |Apps(apps, withMig) + Counts(order, apps)| ==>
              !(Apps(apps, withMig) + Counts(order, apps))[i].family.AppsSuccess?
  {
    AppsUnique(apps, withMig);
    CountsUnique(order, apps);
    var a := Apps(apps, withMig);
    assert forall i :: 0 <= i < |a| ==> FromApp(a[i], apps, withMig);
    AppsThenCounts(a, Counts(order, apps));
  }

  lemma AppsThenCounts(a: seq<Metric>, b: seq<Metric>)
    requires Unique(a) && forall i :: 0 <= i < |a| ==> a[i].family.AppInfo? || a[i].family.AppMemory?
    requires Unique(b) && forall i :: 0 <= i < |b| ==> b[i].family.AppCount?
    ensures Unique(a + b) && InGroups(a + b, 3, 3) && forall i :: 0 <= i < |a + b| ==> !(a + b)[i].family.AppsSuccess?
  {
    Joined(a, b);
  }

  lemma AppsPartIs(r: Reading, f: Features, order: seq<string>)
    ensures var head, a, b := [Metric(AppsSuccess, [], 1.0)], Apps(r.apps, f.appsMig), Counts(order, r.apps);
            AppsPart(r, f, order) == (if !f.apps || !r.appsAttempted then []
                                      else if !r.appsSuccess then [Metric(AppsSuccess, [], 0.0)] else head + (a + b))
  {
  }

  lemma AppsPartUnique(r: Reading, f: Features, order: seq<string>)
    requires DistinctApps(r.apps, f.appsMig) && Distinct(order)
    ensures Unique(AppsPart(r, f, order)) && InGroups(AppsPart(r, f, order), 3, 3)
  {
    ProcessesAndCountsApart(r.apps, f.appsMig, order);
    AppsPartIs(r, f, order);
    var head, a, b := [Metric(AppsSuccess, [], 1.0)], Apps(r.apps, f.appsMig), Counts(order, r.apps);
    Joined(head, a + b);
    assert head + a + b == head + (a + b);
  }

  // ---------------------------------------------------------------- extras

  lemma {:induction false} PciesUnique(samples: seq<PcieSample>)
    requires DistinctPcie(samples)
    ensures var s := Pcies(samples);
            && Unique(s) && InGroups(s, 4, 4)
            && forall i :: 0 <= i < |s| ==> exists k :: 0 <= k < |samples| && s[i].labels == [samples[k].uuid]
    decreases |samples|
  {
    if samples != [] {
      var n := |samples| - 1;
      PciesUnique(samples[..n]);
      var a, p := Pcies(samples[..n]), samples[n];
      var b := [Metric(PcieTx, [p.uuid], p.tx), Metric(PcieRx, [p.uuid], p.rx)];
      forall i | 0 <= i < |a|
        ensures a[i].labels != [p.uuid] && exists k :: 0 <= k < |samples| && a[i].labels == [samples[k].uuid]
      {
        var k :| 0 <= k < n && a[i].labels == [samples[..n][k].uuid];
        assert samples[..n][k] == samples[k] && [samples[k].uuid][0] != [p.uuid][0];
      }
      Joined(a, b);
    }
  }

  lemma EnergiesUnique(readings: seq<EnergyReading>)
    requires DistinctEnergy(readings)
    ensures Unique(Energies(readings)) && InGroups(Energies(readings), 5, 5)
  {
    var s := Energies(readings);
    forall i, j | 0 <= i < j < |s|
      ensures SeriesOf(s[i]) != SeriesOf(s[j])
    {
      assert s[i].labels[0] == readings[i].uuid && s[j].labels[0] == readings[j].uuid;
    }
  }

  /** The families of a list are among these, in their order. */
  lemma {:induction false} TakenShape(gauges: seq<Gauge>, labels: seq<string>)
    requires forall i, j :: 0 <= i < j < |gauges| ==> gauges[i].family != gauges[j].family
    ensures var s := Taken(gauges, labels);
            && Unique(s)
            && forall i :: 0 <= i < |s| ==> s[i].labels == labels && exists k :: 0 <= k < |gauges| && s[i].family == gauges[k].family
    decreases |gauges|
  {
    if gauges != [] {
      var n := |gauges| - 1;
      TakenShape(gauges[..n], labels);
      var a := Taken(gauges[..n], labels);
      forall i | 0 <= i < |a|
        ensures a[i].family != gauges[n].family && exists k :: 0 <= k < |gauges| && a[i].family == gauges[k].family
      {
        var k :| 0 <= k < n && a[i].family == gauges[..n][k].family;
        assert gauges[..n][k] == gauges[k];
      }
    }
  }

  predicate OfInstance(m: Metric, d: MigDevice) { IsMig(m.family) && !m.family.MigInfo? && m.labels == [d.parent, d.gi] }

  lemma InstanceUnique(d: MigDevice)
    ensures Unique(InstanceMetrics(d))
    ensures forall i :: 0 <= i < |InstanceMetrics(d)| ==> OfInstance(InstanceMetrics(d)[i], d)
  {
    var labels := [d.parent, d.gi];
    var a := if d.memory.Some? then
      [Metric(MigTotal, labels, d.memory.value.total as real), Metric(MigUsed, labels, d.memory.value.used as real),
       Metric(MigFree, labels, d.memory.value.free as real), Metric(MigReserved, labels, d.memory.value.reserved as real)]
    else [];
    if d.activity.Some? {
      var gauges := Gauges(d.activity.value);
      TakenShape(gauges, labels);
      var b := Taken(gauges, labels);
      assert forall k :: 0 <= k < |gauges| ==>
        IsMig(gauges[k].family) && !gauges[k].family.MigInfo? && !gauges[k].family.MigTotal? && !gauges[k].family.MigUsed?
        && !gauges[k].family.MigFree? && !gauges[k].family.MigReserved?;
      Joined(a, b);
    }
  }

  /** A metric of the MIG part: a device's info, or a series of a GPU instance among the devices. */
  ghost predicate FromDevices(m: Metric, devices: seq<MigDevice>) {
    exists k :: 0 <= k < |devices| && ((m.family.MigInfo? && m.labels == MigLabels(devices[k])) || OfInstance(m, devices[k]))
  }

  lemma SameLabelsSameKey(a: MigDevice, b: MigDevice)
    requires [a.parent, a.gi] == [b.parent, b.gi]
    ensures DeviceKey(a) == DeviceKey(b)
  {
    assert [a.parent, a.gi][0] == a.parent && [a.parent, a.gi][1] == a.gi;
    assert [b.parent, b.gi][0] == b.parent && [b.parent, b.gi][1] == b.gi;
  }

  lemma EarlierDeviceApart(m: Metric, devices: seq<MigDevice>, d: MigDevice)
    requires FromDevices(m, devices)
    requires forall k :: 0 <= k < |devices| ==> MigLabels(devices[k]) != MigLabels(d)
    ensures SeriesOf(m) != Series(MigInfo, MigLabels(d))
    ensures forall other :: OfInstance(other, d) && !SeenBefore(devices, d) ==> SeriesOf(m) != SeriesOf(other)
  {
    var k :| 0 <= k < |devices| && ((m.family.MigInfo? && m.labels == MigLabels(devices[k])) || OfInstance(m, devices[k]));
    if m.labels == [d.parent, d.gi] && OfInstance(m, devices[k]) {
      SameLabelsSameKey(devices[k], d);
    }
  }

  ghost predicate AllFrom(s: seq<Metric>, devices: seq<MigDevice>) { forall i :: 0 <= i < |s| ==> FromDevices(s[i], devices) }

  lemma DeviceUnique(earlier: seq<MigDevice>, d: MigDevice)
    ensures Unique(DeviceMetrics(earlier, d)) && AllFrom(DeviceMetrics(earlier, d), earlier + [d])
  {
    InstanceUnique(d);
    var b := if SeenBefore(earlier, d) then [] else InstanceMetrics(d);
    Joined([Metric(MigInfo, MigLabels(d), 1.0)], b);
    assert (earlier + [d])[|earlier|] == d;
  }

  lemma DeviceApart(s: seq<Metric>, earlier: seq<MigDevice>, d: MigDevice)
    requires AllFrom(s, earlier) && forall k :: 0 <= k < |earlier| ==> MigLabels(earlier[k]) != MigLabels(d)
    ensures Apart(s, DeviceMetrics(earlier, d))
  {
    InstanceUnique(d);
    forall i | 0 <= i < |s|
      ensures forall j :: 0 <= j < |DeviceMetrics(earlier, d)| ==> SeriesOf(s[i]) != SeriesOf(DeviceMetrics(earlier, d)[j])
    {
      EarlierDeviceApart(s[i], earlier, d);
    }
  }

  lemma AllStillFrom(s: seq<Metric>, devices: seq<MigDevice>)
    requires devices != [] && AllFrom(s, devices[..|devices| - 1])
    ensures AllFrom(s, devices)
  {
    forall i | 0 <= i < |s|
      ensures FromDevices(s[i], devices)
    {
      StillFrom(s[i], devices);
    }
  }

  lemma {:induction false} MigsUnique(devices: seq<MigDevice>)
    requires DistinctMig(devices)
    ensures Unique(Migs(devices)) && AllFrom(Migs(devices), devices)
    decreases |devices|
  {
    if devices != [] {
      var n := |devices| - 1;
      var a, b := Migs(devices[..n]), DeviceMetrics(devices[..n], devices[n]);
      MigsUnique(devices[..n]);
      DeviceUnique(devices[..n], devices[n]);
      DeviceApart(a, devices[..n], devices[n]);
      Joined(a, b);
      AllStillFrom(a, devices);
      assert devices[..n] + [devices[n]] == devices;
    }
  }

  lemma MigsInGroup(s: seq<Metric>, devices: seq<MigDevice>)
    requires AllFrom(s, devices)
    ensures InGroups(s, 6, 6)
  {
  }

  lemma StillFrom(m: Metric, devices: seq<MigDevice>)
    requires devices != [] && FromDevices(m, devices[..|devices| - 1])
    ensures FromDevices(m, devices)
  {
    var front := devices[..|devices| - 1];
    var k :| 0 <= k < |front| && ((m.family.MigInfo? && m.labels == MigLabels(front[k])) || OfInstance(m, front[k]));
    assert front[k] == devices[k];
  }

  lemma ExtrasUnique(r: Reading, f: Features)
    requires DistinctPcie(r.pcie) && DistinctEnergy(r.energy) && DistinctMig(r.mig)
    ensures Unique(ExtrasPart(r, f)) && InGroups(ExtrasPart(r, f), 4, 6)
  {
    PciesUnique(r.pcie);
    EnergiesUnique(r.energy);
    MigsUnique(r.mig);
    MigsInGroup(Migs(r.mig), r.mig);
    var a, b, c := if f.pcie then Pcies(r.pcie) else [], if f.energy then Energies(r.energy) else [], if f.mig then Migs(r.mig) else [];
    GroupsApart(a, b, 4, 5, 4, 5);
    GroupsApart(a + b, c, 5, 6, 4, 6);
  }

  // ---------------------------------------------------------------- the scrape

  lemma FrontUnique(r: Reading, f: Features)
    requires DistinctXids(r.xids)
    ensures Unique(Front(r, f)) && InGroups(Front(r, f), 0, 1)
  {
    HealthUnique(r);
    XidsUnique(r.xids);
    GroupsApart(Health(r), if f.xids then Xids(r.xids) else [], 0, 1, 0, 1);
  }

  lemma TablePartUnique(r: Reading, f: Features, infos: map<string, Info>, order: seq<string>)
    requires r.table.Some? && Identified(r, f) && Distinct(order)
    ensures Unique(TablePart(r, f, infos, order)) && InGroups(TablePart(r, f, infos, order), 2, 6)
  {
    var a := Rows(r.table.value.rows, r.cuda, infos);
    var b, c := AppsPart(r, f, order), ExtrasPart(r, f);
    RowsUnique(r.table.value.rows, r.cuda, infos);
    AppsPartUnique(r, f, order);
    ExtrasUnique(r, f);
    GroupsApart(a, b, 2, 3, 2, 3);
    GroupsApart(a + b, c, 3, 4, 2, 6);
  }

  /** No scrape repeats a family with the same labels. */
  lemma ScrapeUnique(r: Reading, f: Features, infos: map<string, Info>, order: seq<string>)
    requires Identified(r, f) && Distinct(order)
    ensures Unique(Scrape(r, f, infos, order))
  {
    FrontUnique(r, f);
    if r.table.Some? {
      TablePartUnique(r, f, infos, order);
      GroupsApart(Front(r, f), TablePart(r, f, infos, order), 1, 2, 0, 6);
    }
  }
}
