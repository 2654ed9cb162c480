/** Which compute instance a process of the demo runs on: a stable pick among those its GPU's topology configures. */
module Attribution {
  import opened Basics
  import opened Numerals
  import opened Synth
  import Exporter

  type Process = Exporter.Process

  /** A place for a device: a partition and the number of one of its compute instances. */
  datatype Slot = Slot(placed: Placed, ci: nat)

  function SlotsOn(p: Placed): (s: seq<Slot>)
    ensures |s| == p.partition.cis
  {
    seq(p.partition.cis, ci requires 0 <= ci < p.partition.cis => Slot(p, ci))
  }

  /** The devices a topology stands for, in order. */
  function SlotsOf(placed: seq<Placed>): seq<Slot>
    decreases |placed|
  {
    if placed == [] then [] else SlotsOf(placed[..|placed| - 1]) + SlotsOn(placed[|placed| - 1])
  }

  lemma OneMorePlaced(front: seq<Placed>, p: Placed)
    ensures SlotsOf(front + [p]) == SlotsOf(front) + SlotsOn(p)
  {
    assert (front + [p])[..|front|] == front;
  }

  lemma {:induction false} SlotIsThere(placed: seq<Placed>, n: nat, ci: nat)
    requires n < |placed| && ci < placed[n].partition.cis
    ensures Slot(placed[n], ci) in SlotsOf(placed)
    decreases |placed|
  {
    var m := |placed| - 1;
    if n < m {
      assert placed[..m][n] == placed[n];
      SlotIsThere(placed[..m], n, ci);
    } else {
      assert SlotsOn(placed[m])[ci] == Slot(placed[m], ci);
    }
  }

  lemma {:induction false} SlotIsPlaced(placed: seq<Placed>, s: Slot)
    requires s in SlotsOf(placed)
    ensures s.placed in placed && s.ci < s.placed.partition.cis
    decreases |placed|
  {
    var m := |placed| - 1;
    if s in SlotsOf(placed[..m]) {
      SlotIsPlaced(placed[..m], s);
      assert forall n :: 0 <= n < m ==> placed[..m][n] == placed[n];
    } else {
      assert s in SlotsOn(placed[m]);
    }
  }

  /** A partition is placed exactly if some entry of a served GPU lists it. */
  lemma {:induction false} PlacedIsListed(uuids: seq<string>, mig: seq<GpuTopology>, p: Placed)
    ensures p in Topology(uuids, mig) <==> Listed(uuids, mig, p)
    decreases |mig|
  {
    if mig != [] {
      var n := |mig| - 1;
      var last := mig[n];
      PlacedIsListed(uuids, mig[..n], p);
      OneMoreListed(uuids, mig, p);
      if 0 <= last.gpu < |uuids| {
        PlacedOnIs(uuids[last.gpu], last.instances, p);
        assert Topology(uuids, mig) == Topology(uuids, mig[..n]) + PlacedOn(uuids[last.gpu], last.instances);
      } else {
        assert Topology(uuids, mig) == Topology(uuids, mig[..n]);
      }
    }
  }

  predicate Lists(e: GpuTopology, uuids: seq<string>, p: Placed) {
    0 <= e.gpu < |uuids| && p.parent == uuids[e.gpu] && p.partition in e.instances
  }

  lemma OneMoreListed(uuids: seq<string>, mig: seq<GpuTopology>, p: Placed)
    requires mig != []
    ensures Listed(uuids, mig, p) <==> Listed(uuids, mig[..|mig| - 1], p) || Lists(mig[|mig| - 1], uuids, p)
  {
    var n := |mig| - 1;
    assert forall g :: 0 <= g < n ==> mig[..n][g] == mig[g];
  }

  lemma PlacedOnIs(parent: string, instances: seq<Partition>, p: Placed)
    ensures p in PlacedOn(parent, instances) <==> p.parent == parent && p.partition in instances
  {
    if p.parent == parent && p.partition in instances {
      var i :| 0 <= i < |instances| && instances[i] == p.partition;
      assert PlacedOn(parent, instances)[i] == p;
    }
  }

  ghost predicate Listed(uuids: seq<string>, mig: seq<GpuTopology>, p: Placed) {
    exists g :: 0 <= g < |mig| && Lists(mig[g], uuids, p)
  }

  /** instanceRef. */
  datatype Ref = Ref(gi: nat, ci: nat)

  function RefOf(s: Slot): Ref { Ref(s.placed.partition.gi, s.ci) }

  /** The compute instances of one GPU, in order. */
  function RefsOf(slots: seq<Slot>, uuid: string): seq<Ref>
    decreases |slots|
  {
    if slots == [] then []
    else
      var last := slots[|slots| - 1];
      RefsOf(slots[..|slots| - 1], uuid) + if last.placed.parent == uuid then [RefOf(last)] else []
  }

  /** The pick of a process among instances: any fixed function of its pid. */
  type PidHash = string -> nat

  function Picked(p: Process, refs: seq<Ref>, hash: PidHash): Process {
    if refs == [] then p
    else
      var r := refs[hash(p.app.pid) % |refs|];
      p.(gi := Decimal(r.gi), ci := Decimal(r.ci))
  }

  function Attributed(apps: seq<Process>, slots: seq<Slot>, hash: PidHash): (own: seq<Process>)
    ensures |own| == |apps|
  {
    seq(|apps|, i requires 0 <= i < |apps| => Picked(apps[i], RefsOf(slots, apps[i].app.uuid), hash))
  }

  // ---------------------------------------------------------------- as the backend computes it

  function At(topology: map<string, seq<Ref>>, uuid: string): seq<Ref> { if uuid in topology then topology[uuid] else [] }

  ghost predicate Grouped(topology: map<string, seq<Ref>>, slots: seq<Slot>) {
    forall u :: At(topology, u) == RefsOf(slots, u)
  }

  lemma OneMoreRef(slots: seq<Slot>, s: Slot, uuid: string)
    ensures RefsOf(slots + [s], uuid) == RefsOf(slots, uuid) + if s.placed.parent == uuid then [RefOf(s)] else []
  {
    assert (slots + [s])[..|slots|] == slots;
  }

  lemma GroupedStep(topology: map<string, seq<Ref>>, slots: seq<Slot>, s: Slot)
    requires Grouped(topology, slots)
    ensures Grouped(topology[s.placed.parent := At(topology, s.placed.parent) + [RefOf(s)]], slots + [s])
  {
    var more := topology[s.placed.parent := At(topology, s.placed.parent) + [RefOf(s)]];
    forall u
      ensures At(more, u) == RefsOf(slots + [s], u)
    {
      OneMoreRef(slots, s, u);
      assert At(topology, u) == RefsOf(slots, u);
    }
  }

  method AppendRef(topology: map<string, seq<Ref>>, p: Placed, ci: nat, ghost before: seq<Slot>)
    returns (more: map<string, seq<Ref>>)
    requires Grouped(topology, before)
    ensures Grouped(more, before + [Slot(p, ci)])
  {
    GroupedStep(topology, before, Slot(p, ci));
    more := topology[p.parent := At(topology, p.parent) + [Ref(p.partition.gi, ci)]];
  }

  method AppendInstance(topology: map<string, seq<Ref>>, p: Placed, ghost before: seq<Slot>)
    returns (more: map<string, seq<Ref>>)
    requires Grouped(topology, before)
    ensures Grouped(more, before + SlotsOn(p))
  {
    more := topology;
    ghost var own := SlotsOn(p);
    assert before + own[..0] == before;
    for ci := 0 to p.partition.cis
      invariant Grouped(more, before + own[..ci])
    {
      more := AppendRef(more, p, ci, before + own[..ci]);
      assert before + own[..ci] + [Slot(p, ci)] == before + own[..ci + 1];
    }
    assert own[..p.partition.cis] == own;
  }

  lemma InTurn<T>(a: seq<T>, b: seq<T>, c: seq<T>)
    ensures (a + b) + c == a + (b + c)
  {
  }

  lemma LastPlaced(a: seq<Placed>, b: seq<Placed>)
    requires b != []
    ensures var n := |b| - 1;
            SlotsOf(a + b) == SlotsOf(a + b[..n]) + SlotsOn(b[n]) && SlotsOf(b) == SlotsOf(b[..n]) + SlotsOn(b[n])
  {
    var n := |b| - 1;
    OneMorePlaced(a + b[..n], b[n]);
    OneMorePlaced(b[..n], b[n]);
    assert a + b == (a + b[..n]) + [b[n]] && b == b[..n] + [b[n]];
  }

  lemma {:induction false} SlotsTogether(a: seq<Placed>, b: seq<Placed>)
    ensures SlotsOf(a + b) == SlotsOf(a) + SlotsOf(b)
    decreases |b|
  {
    if b == [] {
      assert a + b == a;
    } else {
      var n := |b| - 1;
      SlotsTogether(a, b[..n]);
      LastPlaced(a, b);
      InTurn(SlotsOf(a), SlotsOf(b[..n]), SlotsOn(b[n]));
    }
  }

  lemma OneMoreBehind(before: seq<Slot>, placed: seq<Placed>, n: nat)
    requires n < |placed|
    ensures before + SlotsOf(placed[..n]) + SlotsOn(placed[n]) == before + SlotsOf(placed[..n + 1])
  {
    OneMorePlaced(placed[..n], placed[n]);
    assert placed[..n] + [placed[n]] == placed[..n + 1];
    InTurn(before, SlotsOf(placed[..n]), SlotsOn(placed[n]));
  }

  method AppendGpu(topology: map<string, seq<Ref>>, uuid: string, instances: seq<Partition>, ghost before: seq<Slot>)
    returns (more: map<string, seq<Ref>>)
    requires Grouped(topology, before)
    ensures Grouped(more, before + SlotsOf(PlacedOn(uuid, instances)))
  {
    more := topology;
    ghost var placed := PlacedOn(uuid, instances);
    assert before + SlotsOf(placed[..0]) == before;
    for n := 0 to |instances|
      invariant Grouped(more, before + SlotsOf(placed[..n]))
    {
      OneMoreBehind(before, placed, n);
      more := AppendInstance(more, Placed(uuid, instances[n]), before + SlotsOf(placed[..n]));
    }
    assert placed[..|instances|] == placed;
  }

  /** The flattened topology by GPU; entries for GPUs the table does not serve are skipped. */
  method Flatten(uuids: seq<string>, mig: seq<GpuTopology>) returns (topology: map<string, seq<Ref>>)
    ensures Grouped(topology, SlotsOf(Topology(uuids, mig)))
  {
    topology := map[];
    for g := 0 to |mig|
      invariant Grouped(topology, SlotsOf(Topology(uuids, mig[..g])))
    {
      ghost var earlier := Topology(uuids, mig[..g]);
      assert mig[..g + 1][..g] == mig[..g];
      if mig[g].gpu < 0 || mig[g].gpu >= |uuids| {
        assert Topology(uuids, mig[..g + 1]) == earlier;
        continue;
      }
      ghost var placed := PlacedOn(uuids[mig[g].gpu], mig[g].instances);
      SlotsTogether(earlier, placed);
      assert Topology(uuids, mig[..g + 1]) == earlier + placed;
      topology := AppendGpu(topology, uuids[mig[g].gpu], mig[g].instances, SlotsOf(earlier));
    }
    assert mig[..|mig|] == mig;
  }

  /** attributeApps. */
  method AttributeApps(uuids: seq<string>, mig: seq<GpuTopology>, apps: seq<Process>, hash: PidHash) returns (own: seq<Process>)
    ensures own == Attributed(apps, SlotsOf(Topology(uuids, mig)), hash)
  {
    own := apps;
    ghost var slots := SlotsOf(Topology(uuids, mig));
    if |apps| == 0 || |mig| == 0 {
      return;
    }
    var topology := Flatten(uuids, mig);
    for i := 0 to |apps|
      invariant |own| == |apps|
      invariant own == Attributed(apps, slots, hash)[..i] + apps[i..]
    {
      var app := AttributeOne(own[i], topology, slots, hash);
      OneMoreAttributed(apps, Attributed(apps, slots, hash), i, app);
      own := own[i := app];
    }
  }

  lemma OneMoreAttributed(apps: seq<Process>, all: seq<Process>, i: nat, app: Process)
    requires i < |apps| == |all| && app == all[i]
    ensures (all[..i] + apps[i..])[i := app] == all[..i + 1] + apps[i + 1..]
  {
  }

  method AttributeOne(app: Process, topology: map<string, seq<Ref>>, ghost slots: seq<Slot>, hash: PidHash) returns (own: Process)
    requires Grouped(topology, slots)
    ensures own == Picked(app, RefsOf(slots, app.app.uuid), hash)
  {
    var refs := At(topology, app.app.uuid);
    if |refs| == 0 {
      return app;
    }
    var ref := refs[hash(app.app.pid) % |refs|];
    own := app.(gi := Decimal(ref.gi), ci := Decimal(ref.ci));
  }

  // ---------------------------------------------------------------- what it promises

  lemma {:induction false} RefsAreSlots(slots: seq<Slot>, uuid: string, n: nat)
    requires n < |RefsOf(slots, uuid)|
    ensures exists i :: 0 <= i < |slots| && slots[i].placed.parent == uuid && RefsOf(slots, uuid)[n] == RefOf(slots[i])
    decreases |slots|
  {
    var m := |slots| - 1;
    var front := slots[..m];
    if n < |RefsOf(front, uuid)| {
      RefsAreSlots(front, uuid, n);
      var i :| 0 <= i < |front| && front[i].placed.parent == uuid && RefsOf(front, uuid)[n] == RefOf(front[i]);
      assert slots[i] == front[i];
    } else {
      assert slots[m].placed.parent == uuid;
    }
  }

  lemma {:induction false} NoRefs(slots: seq<Slot>, uuid: string)
    ensures RefsOf(slots, uuid) == [] <==> forall i :: 0 <= i < |slots| ==> slots[i].placed.parent != uuid
    decreases |slots|
  {
    if slots != [] {
      var m := |slots| - 1;
      NoRefs(slots[..m], uuid);
      assert forall i :: 0 <= i < m ==> slots[..m][i] == slots[i];
    }
  }

  /** Process `p` runs on the compute instance of slot `s`. */
  predicate RunsOn(p: Process, s: Slot) {
    s.placed.parent == p.app.uuid && p.gi == Decimal(s.placed.partition.gi) && p.ci == Decimal(s.ci)
  }

  /**
   A process ends up on a configured compute instance of its own GPU, and one whose GPU has none stays as it was; the
   process itself does not change.
   */
  lemma AttributedToOwnGpu(apps: seq<Process>, slots: seq<Slot>, hash: PidHash, i: nat)
    requires i < |apps|
    ensures var p := Attributed(apps, slots, hash)[i];
            && p.app == apps[i].app
            && if exists k :: 0 <= k < |slots| && slots[k].placed.parent == p.app.uuid
               then exists k :: 0 <= k < |slots| && RunsOn(p, slots[k])
               else p == apps[i]
  {
    var refs := RefsOf(slots, apps[i].app.uuid);
    NoRefs(slots, apps[i].app.uuid);
    if refs != [] {
      RefsAreSlots(slots, apps[i].app.uuid, hash(apps[i].app.pid) % |refs|);
      var k :| 0 <= k < |slots| && slots[k].placed.parent == apps[i].app.uuid
               && refs[hash(apps[i].app.pid) % |refs|] == RefOf(slots[k]);
      assert RunsOn(Attributed(apps, slots, hash)[i], slots[k]);
    }
  }

  lemma {:induction false} RefsTogether(a: seq<Slot>, b: seq<Slot>, uuid: string)
    ensures RefsOf(a + b, uuid) == RefsOf(a, uuid) + RefsOf(b, uuid)
    decreases |b|
  {
    if b == [] {
      assert a + b == a;
    } else {
      var n := |b| - 1;
      assert (a + b)[..|a + b| - 1] == a + b[..n];
      RefsTogether(a, b[..n], uuid);
    }
  }

  lemma {:induction false} SlotParents(placed: seq<Placed>, uuid: string)
    requires forall i :: 0 <= i < |placed| ==> placed[i].parent != uuid
    ensures RefsOf(SlotsOf(placed), uuid) == []
    decreases |placed|
  {
    if placed != [] {
      var n := |placed| - 1;
      SlotParents(placed[..n], uuid);
      RefsTogether(SlotsOf(placed[..n]), SlotsOn(placed[n]), uuid);
      NoRefs(SlotsOn(placed[n]), uuid);
    }
  }

  /** The compute instances an entry brings, whatever its GPU. */
  function EntryRefs(instances: seq<Partition>): seq<Ref> { RefsOf(SlotsOf(PlacedOn("", instances)), "") }

  lemma {:induction false} RefsOfAnyName(instances: seq<Partition>, uuid: string)
    ensures RefsOf(SlotsOf(PlacedOn(uuid, instances)), uuid) == EntryRefs(instances)
    decreases |instances|
  {
    if instances != [] {
      var n := |instances| - 1;
      RefsOfAnyName(instances[..n], uuid);
      LastOfEntry(instances, uuid);
      LastOfEntry(instances, "");
    }
  }

  lemma LastOfEntry(instances: seq<Partition>, uuid: string)
    requires instances != []
    ensures var n := |instances| - 1;
            RefsOf(SlotsOf(PlacedOn(uuid, instances)), uuid)
            == RefsOf(SlotsOf(PlacedOn(uuid, instances[..n])), uuid)
               + seq(instances[n].cis, ci requires 0 <= ci < instances[n].cis => Ref(instances[n].gi, ci))
  {
    var n := |instances| - 1;
    var front, p := PlacedOn(uuid, instances[..n]), Placed(uuid, instances[n]);
    assert PlacedOn(uuid, instances) == front + [p];
    OneMorePlaced(front, p);
    RefsTogether(SlotsOf(front), SlotsOn(p), uuid);
    RefsOnOne(p, p.partition.cis);
    assert SlotsOn(p)[..p.partition.cis] == SlotsOn(p);
  }

  lemma {:induction false} RefsOnOne(p: Placed, n: nat)
    requires n <= p.partition.cis
    ensures RefsOf(SlotsOn(p)[..n], p.parent) == seq(n, ci requires 0 <= ci < n => Ref(p.partition.gi, ci))
    decreases n
  {
    if n > 0 {
      RefsOnOne(p, n - 1);
      assert SlotsOn(p)[..n] == SlotsOn(p)[..n - 1] + [Slot(p, n - 1)];
      OneMoreRef(SlotsOn(p)[..n - 1], Slot(p, n - 1), p.parent);
    }
  }

  /** The compute instances the entries of one GPU bring. */
  function EntriesOf(mig: seq<GpuTopology>, g: nat): seq<Ref>
    decreases |mig|
  {
    if mig == [] then []
    else
      var last := mig[|mig| - 1];
      EntriesOf(mig[..|mig| - 1], g) + if last.gpu == g then EntryRefs(last.instances) else []
  }

  /** Over distinct GPUs, the instances of one GPU are those of its own entries, whatever other entries there are. */
  lemma {:induction false} OwnEntriesOnly(uuids: seq<string>, mig: seq<GpuTopology>, g: nat)
    requires Distinct(uuids) && g < |uuids|
    ensures RefsOf(SlotsOf(Topology(uuids, mig)), uuids[g]) == EntriesOf(mig, g)
    decreases |mig|
  {
    if mig != [] {
      OwnEntriesOnly(uuids, mig[..|mig| - 1], g);
      OneMoreEntry(uuids, mig, g);
    }
  }

  lemma OneMoreEntry(uuids: seq<string>, mig: seq<GpuTopology>, g: nat)
    requires Distinct(uuids) && mig != [] && g < |uuids|
    ensures var n := |mig| - 1;
            RefsOf(SlotsOf(Topology(uuids, mig)), uuids[g])
            == RefsOf(SlotsOf(Topology(uuids, mig[..n])), uuids[g]) + if mig[n].gpu == g then EntryRefs(mig[n].instances) else []
  {
    var n := |mig| - 1;
    var front, last := Topology(uuids, mig[..n]), mig[n];
    if 0 <= last.gpu < |uuids| {
      var back := PlacedOn(uuids[last.gpu], last.instances);
      SlotsTogether(front, back);
      RefsTogether(SlotsOf(front), SlotsOf(back), uuids[g]);
      if last.gpu == g {
        RefsOfAnyName(last.instances, uuids[g]);
      } else {
        SlotParents(back, uuids[g]);
      }
    } else {
      assert Topology(uuids, mig) == front;
    }
  }

  /**
   A process keeps its instance from cycle to cycle: what it is given depends on its pid and the entries of its own GPU,
   not on the other processes, the other GPUs, their entries or the order of any of them.
   */
  lemma AttributionIsStable(
    uuids: seq<string>, more: seq<string>, mig: seq<GpuTopology>, other: seq<GpuTopology>, apps: seq<Process>, hash: PidHash,
    again: seq<Process>, g: nat, h: nat, i: nat, n: nat)
    requires Distinct(uuids) && Distinct(more) && g < |uuids| && h < |more| && uuids[g] == more[h]
    requires EntriesOf(mig, g) == EntriesOf(other, h)
    requires i < |apps| && n < |again| && apps[i] == again[n] && apps[i].app.uuid == uuids[g]
    ensures Attributed(apps, SlotsOf(Topology(uuids, mig)), hash)[i] == Attributed(again, SlotsOf(Topology(more, other)), hash)[n]
  {
    OwnEntriesOnly(uuids, mig, g);
    OwnEntriesOnly(more, other, h);
  }
}
