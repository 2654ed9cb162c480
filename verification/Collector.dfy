/** The render loops of one scrape, and the guarantee the whole registry rests on: no series twice. */
module Collector {
  import opened Basics
  import opened MigKeys
  import opened Names
  import opened Exporter
  import opened Scrapes
  import Csv

  // ---------------------------------------------------------------- names

  /** A family's metric name as it is exposed. */
  function FullName(f: Family, prefix: string, status: string, infos: map<string, Info>): string
    requires f.FieldOf? ==> f.qField in infos
  {
    match f
    case FieldOf(q) => infos[q].name
    case ExitCode => FqName(prefix, status)
    case _ => FqName(prefix, BaseName(f))
  }

  /** Descriptors as BuildMetricInfos leaves them. */
  ghost predicate WellDescribed(infos: map<string, Info>, prefix: string, status: string) {
    && (forall q :: q in infos ==> infos[q].name != "" && infos[q].name !in Reserved(prefix, status))
    && (forall p, q :: p in infos && q in infos && p != q ==> infos[p].name != infos[q].name)
  }

  /** The status metric's name is none of the exporter's others. */
  ghost predicate OwnStatus(status: string) {
    status != "" && forall f: Family :: !f.FieldOf? && !f.ExitCode? ==> BaseName(f) != status
  }

  lemma BackendStatusesAreOwn()
    ensures OwnStatus(EXEC_STATUS) && OwnStatus(NVML_STATUS)
  {
    forall f: Family | !f.FieldOf? && !f.ExitCode?
      ensures BaseName(f) != EXEC_STATUS && BaseName(f) != NVML_STATUS
    {
      OwnerOfOwn(f);
      assert EXEC_STATUS[1] == 'o' && NVML_STATUS[0] == 'n' && |EXEC_STATUS| == 17 && |NVML_STATUS| == 16;
      assert Owner(EXEC_STATUS) == ExitCode;
      assert BaseName(XidCount)[0] == 'x' && BaseName(AppInfo)[0] == 'c';
      assert Owner(NVML_STATUS) == XidCount;
    }
  }

  lemma OwnIsReserved(f: Family, prefix: string, status: string)
    requires !f.FieldOf? && !f.ExitCode?
    ensures FqName(prefix, BaseName(f)) in Reserved(prefix, status)
  {
    FixedAreAll(f);
  }

  lemma FieldNamesDiffer(p: string, q: string, prefix: string, status: string, infos: map<string, Info>)
    ensures WellDescribed(infos, prefix, status) && p in infos && q in infos && p != q ==>
              FullName(FieldOf(p), prefix, status, infos) != FullName(FieldOf(q), prefix, status, infos)
  {
  }

  /** Different families are exposed under different names. */
  lemma NamesDiffer(f: Family, g: Family, prefix: string, status: string, infos: map<string, Info>)
    requires WellDescribed(infos, prefix, status) && OwnStatus(status) && f != g
    requires (f.FieldOf? ==> f.qField in infos) && (g.FieldOf? ==> g.qField in infos)
    ensures FullName(f, prefix, status, infos) != FullName(g, prefix, status, infos)
  {
    if f.FieldOf? && g.FieldOf? {
      FieldNamesDiffer(f.qField, g.qField, prefix, status, infos);
    } else if f.FieldOf? {
      FieldAgainstOwn(f, g, prefix, status, infos);
    } else if g.FieldOf? {
      FieldAgainstOwn(g, f, prefix, status, infos);
    } else {
      OwnFullNamesDiffer(f, g, prefix, status, infos);
    }
  }

  lemma FieldIsNotOwn(q: string, g: Family, prefix: string, status: string, infos: map<string, Info>)
    requires !g.FieldOf?
    ensures FullName(g, prefix, status, infos) in Reserved(prefix, status)
    ensures WellDescribed(infos, prefix, status) && q in infos ==> infos[q].name != FullName(g, prefix, status, infos)
  {
    if !g.ExitCode? {
      OwnIsReserved(g, prefix, status);
    }
  }

  lemma FieldAgainstOwn(f: Family, g: Family, prefix: string, status: string, infos: map<string, Info>)
    requires f.FieldOf? && !g.FieldOf? && f.qField in infos
    ensures WellDescribed(infos, prefix, status) ==> FullName(f, prefix, status, infos) != FullName(g, prefix, status, infos)
  {
    FieldIsNotOwn(f.qField, g, prefix, status, infos);
  }

  lemma OwnFullNamesDiffer(f: Family, g: Family, prefix: string, status: string, infos: map<string, Info>)
    requires OwnStatus(status) && f != g && !f.FieldOf? && !g.FieldOf?
    ensures FullName(f, prefix, status, infos) != FullName(g, prefix, status, infos)
  {
    var a, b := if f.ExitCode? then status else BaseName(f), if g.ExitCode? then status else BaseName(g);
    if !f.ExitCode? && !g.ExitCode? {
      OwnNamesDiffer(f, g);
    }
    assert a != b;
    if FqName(prefix, a) == FqName(prefix, b) {
      FqNameInjective(prefix, a, b);
    }
  }

  lemma {:induction false} FieldsAreDescribed(rows: seq<Csv.Row>, cuda: string, infos: map<string, Info>)
    ensures forall i :: 0 <= i < |Rows(rows, cuda, infos)| ==>
              (Rows(rows, cuda, infos)[i].family.FieldOf? ==> Rows(rows, cuda, infos)[i].family.qField in infos)
    decreases |rows|
  {
    if rows != [] {
      FieldsAreDescribed(rows[..|rows| - 1], cuda, infos);
      CellsAreDescribed(rows[|rows| - 1].cells, UuidOf(rows[|rows| - 1]), infos);
    }
  }

  lemma {:induction false} CellsAreDescribed(cells: seq<Csv.Cell>, uuid: string, infos: map<string, Info>)
    ensures forall i :: 0 <= i < |CellMetrics(cells, uuid, infos)| ==>
              (CellMetrics(cells, uuid, infos)[i].family.FieldOf? ==> CellMetrics(cells, uuid, infos)[i].family.qField in infos)
    decreases |cells|
  {
    if cells != [] {
      CellsAreDescribed(cells[..|cells| - 1], uuid, infos);
    }
  }

  ghost predicate NamedFields(s: seq<Metric>, infos: map<string, Info>) {
    forall i :: 0 <= i < |s| && s[i].family.FieldOf? ==> s[i].family.qField in infos
  }

  lemma NamedInTurn(a: seq<Metric>, b: seq<Metric>, infos: map<string, Info>)
    requires NamedFields(a, infos) && NamedFields(b, infos)
    ensures NamedFields(a + b, infos)
  {
  }

  lemma OtherPartsNameNoField(s: seq<Metric>, low: nat, high: nat, infos: map<string, Info>)
    requires InGroups(s, low, high) && (high < 2 || low > 2)
    ensures NamedFields(s, infos)
  {
  }

  lemma ScrapeIsDescribed(r: Reading, f: Features, infos: map<string, Info>, order: seq<string>)
    requires Identified(r, f) && Distinct(order)
    ensures NamedFields(Scrape(r, f, infos, order), infos)
  {
    FrontUnique(r, f);
    OtherPartsNameNoField(Front(r, f), 0, 1, infos);
    if r.table.Some? {
      var a, b, c := Rows(r.table.value.rows, r.cuda, infos), AppsPart(r, f, order), ExtrasPart(r, f);
      FieldsAreDescribed(r.table.value.rows, r.cuda, infos);
      AppsPartUnique(r, f, order);
      ExtrasUnique(r, f);
      OtherPartsNameNoField(b, 3, 3, infos);
      OtherPartsNameNoField(c, 4, 6, infos);
      NamedInTurn(a, b, infos);
      NamedInTurn(a + b, c, infos);
      NamedInTurn(Front(r, f), a + b + c, infos);
    }
  }

  /** No two metrics of a list are exposed under the same name with the same labels. */
  ghost predicate NoDuplicates(s: seq<Metric>, prefix: string, status: string, infos: map<string, Info>) {
    NamedFields(s, infos) && forall i, j :: 0 <= i < j < |s| ==>
      FullName(s[i].family, prefix, status, infos) != FullName(s[j].family, prefix, status, infos) || s[i].labels != s[j].labels
  }

  lemma UniqueNamesDoNotRepeat(s: seq<Metric>, prefix: string, status: string, infos: map<string, Info>)
    requires Unique(s) && NamedFields(s, infos) && WellDescribed(infos, prefix, status) && OwnStatus(status)
    ensures NoDuplicates(s, prefix, status, infos)
  {
    forall i, j | 0 <= i < j < |s|
      ensures FullName(s[i].family, prefix, status, infos) != FullName(s[j].family, prefix, status, infos) || s[i].labels != s[j].labels
    {
      assert SeriesOf(s[i]) != SeriesOf(s[j]);
      if s[i].family != s[j].family {
        NamesDiffer(s[i].family, s[j].family, prefix, status, infos);
      }
    }
  }

  /**
   Given distinct GPUs, processes, MIG devices and samples, no scrape emits one series twice, whatever the driver calls
   its columns: one duplicate would fail the whole scrape.
   */
  lemma NoScrapeRepeatsASeries(r: Reading, f: Features, infos: map<string, Info>, order: seq<string>, prefix: string, status: string)
    requires Identified(r, f) && Distinct(order) && WellDescribed(infos, prefix, status) && OwnStatus(status)
    ensures NoDuplicates(Scrape(r, f, infos, order), prefix, status, infos)
  {
    ScrapeUnique(r, f, infos, order);
    ScrapeIsDescribed(r, f, infos, order);
    UniqueNamesDoNotRepeat(Scrape(r, f, infos, order), prefix, status, infos);
  }

  /** The descriptors the exporter builds are well described, so the guarantee holds for every resolved field list. */
  lemma BuiltInfosAreWellDescribed(infos: map<string, Info>, returned: map<string, string>, naming: Naming, prefix: string, status: string)
    requires forall f :: f in infos <==> f in returned && Described(f, returned, naming, Reserved(prefix, status))
    requires forall f :: f in infos ==> infos[f] == InfoFor(f, returned, naming)
    ensures WellDescribed(infos, prefix, status)
  {
    forall q | q in infos
      ensures infos[q].name != "" && infos[q].name !in Reserved(prefix, status)
    {
      assert Described(q, returned, naming, Reserved(prefix, status));
    }
    forall p, q | p in infos && q in infos && p != q
      ensures infos[p].name != infos[q].name
    {
      assert Described(p, returned, naming, Reserved(prefix, status));
    }
  }

  /** A table parsed for a duplicate-free field list has rows of different fields. */
  lemma ParsedRowsHaveOwnFields(output: string, qFields: seq<string>, t: Csv.Table, k: nat)
    requires Csv.Reads(output, qFields, t) && Distinct(qFields) && k < |t.rows|
    ensures OwnFields(t.rows[k].cells)
  {
    assert Csv.Fits(output, |qFields|, k + 1);
    assert t.rows[k] == Csv.RowAt(output, qFields, k);
  }

  // ---------------------------------------------------------------- instances and counts

  lemma FirstDeviceShowsInstance(earlier: seq<MigDevice>, d: MigDevice)
    requires !SeenBefore(earlier, d)
    ensures |DeviceMetrics(earlier, d)| == 1 + |InstanceMetrics(d)| && DeviceMetrics(earlier, d)[1..] == InstanceMetrics(d)
  {
  }

  lemma MigsGrow(front: seq<MigDevice>, d: MigDevice)
    ensures Migs(front + [d]) == Migs(front) + DeviceMetrics(front, d)
  {
    assert (front + [d])[..|front|] == front;
  }

  /** A stretch of a list. */
  predicate At(s: seq<Metric>, i: nat, part: seq<Metric>) { i + |part| <= |s| && s[i..i + |part|] == part }

  lemma AtFront(s: seq<Metric>, t: seq<Metric>, i: nat, part: seq<Metric>)
    requires At(s, i, part)
    ensures At(s + t, i, part)
  {
    assert (s + t)[i..i + |part|] == s[i..i + |part|];
  }

  /** All memory series and every taken activity of a GPU instance go out with its first device: with uniqueness, once. */
  lemma {:induction false} InstanceGoesOut(devices: seq<MigDevice>, k: nat) returns (i: nat)
    requires k < |devices| && !SeenBefore(devices[..k], devices[k])
    ensures At(Migs(devices), i, InstanceMetrics(devices[k]))
    decreases |devices|
  {
    var n := |devices| - 1;
    var front, d := devices[..n], devices[n];
    assert devices == front + [d];
    MigsGrow(front, d);
    if k < n {
      assert front[..k] == devices[..k] && front[k] == devices[k];
      i := InstanceGoesOut(front, k);
      AtFront(Migs(front), DeviceMetrics(front, d), i, InstanceMetrics(devices[k]));
    } else {
      FirstDeviceShowsInstance(front, d);
      i := |Migs(front)| + 1;
      assert (Migs(front) + DeviceMetrics(front, d))[i..] == DeviceMetrics(front, d)[1..];
    }
  }

  /** Numeric instance ids hold no slash, so only a device of the same GPU instance can be why one is skipped. */
  lemma OnlySiblingsAreSkipped(devices: seq<MigDevice>, d: MigDevice)
    requires '/' !in d.gi && forall k :: 0 <= k < |devices| ==> '/' !in devices[k].gi
    ensures SeenBefore(devices, d) <==> exists k :: 0 <= k < |devices| && devices[k].parent == d.parent && devices[k].gi == d.gi
  {
    forall k | 0 <= k < |devices| && DeviceKey(devices[k]) == DeviceKey(d)
      ensures devices[k].parent == d.parent && devices[k].gi == d.gi
    {
      GiKeyInjective(devices[k].parent, devices[k].gi, d.parent, d.gi);
    }
  }

  function SumCounts(order: seq<string>, apps: seq<Process>): nat
    decreases |order|
  {
    if order == [] then 0 else SumCounts(order[..|order| - 1], apps) + HowMany(apps, order[|order| - 1])
  }

  lemma {:induction false} CountsGrow(order: seq<string>, apps: seq<Process>, p: Process)
    requires Distinct(order)
    ensures SumCounts(order, apps + [p]) == SumCounts(order, apps) + if p.app.uuid in order then 1 else 0
    decreases |order|
  {
    if order != [] {
      var n := |order| - 1;
      CountsGrow(order[..n], apps, p);
      assert (apps + [p])[..|apps|] == apps;
      assert p.app.uuid in order <==> p.app.uuid in order[..n] || p.app.uuid == order[n];
      if p.app.uuid == order[n] {
        assert p.app.uuid !in order[..n];
      }
    }
  }

  lemma {:induction false} NoApps(order: seq<string>)
    ensures SumCounts(order, []) == 0
    decreases |order|
  {
    if order != [] {
      NoApps(order[..|order| - 1]);
    }
  }

  /** The per-GPU counts add up to the processes: none is counted twice, none is lost. */
  lemma {:induction false} CountsAddUp(order: seq<string>, apps: seq<Process>)
    requires Distinct(order) && forall k :: 0 <= k < |apps| ==> apps[k].app.uuid in order
    ensures SumCounts(order, apps) == |apps|
    decreases |apps|
  {
    if apps == [] {
      NoApps(order);
    } else {
      var n := |apps| - 1;
      CountsAddUp(order, apps[..n]);
      CountsGrow(order, apps[..n], apps[n]);
      assert apps[n].app.uuid in order;
      assert apps[..n] + [apps[n]] == apps;
    }
  }
}
