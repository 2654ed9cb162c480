/** What a cycle serves of MIG: the driver's own readings, of every device it reached, with the activity it measured. */
module MigServed {
  import opened Basics
  import opened Numerals
  import opened MigKeys
  import opened Gpm
  import opened Ids
  import opened MigCycle

  // ---------------------------------------------------------------- devices

  /** The served instance says of a device what the driver said. */
  predicate Describes(i: Instance, parent: string, slot: Slot) {
    && slot.Device? && i.parent == parent && i.uuid == slot.uuid && i.gi == slot.gi && i.ci == slot.ci
    && i.profile == (if slot.name == Success then slot.profile else "[N/A]")
    && i.memory == (if slot.memory == Success then Some(slot.bytes) else None)
  }

  /** A getter of the device answered that the library or the GPU is gone. */
  predicate Gone(slot: Slot) {
    var gone := {GpuIsLost, Uninitialized, DriverNotLoaded, LibRmVersionMismatch, GpuNotFound};
    (slot.Failing? && slot.ret in gone) || (slot.Device? && (slot.name in gone || slot.memory in gone))
  }

  /** `at` says which slots the instances were read from, in order. */
  ghost predicate ReadFrom(found: seq<Instance>, parent: string, slots: seq<Slot>, at: seq<nat>) {
    && |at| == |found|
    && (forall i :: 0 <= i < |at| ==> at[i] < |slots| && Describes(found[i], parent, slots[at[i]]))
    && (forall i, j :: 0 <= i < j < |at| ==> at[i] < at[j])
  }

  lemma ReadOneMore(found: seq<Instance>, more: seq<Instance>, parent: string, slots: seq<Slot>, at: seq<nat>)
    requires slots != [] && ReadFrom(found, parent, slots[..|slots| - 1], at)
    ensures ReadFrom(found, parent, slots, at)
    ensures |more| == |found| + 1 && more[..|found|] == found && Describes(more[|found|], parent, slots[|slots| - 1]) ==>
              ReadFrom(more, parent, slots, at + [|slots| - 1])
  {
    var n := |slots| - 1;
    assert forall k :: 0 <= k < n ==> slots[..n][k] == slots[k];
    if |more| == |found| + 1 && more[..|found|] == found {
      assert forall i :: 0 <= i < |found| ==> more[i] == found[i];
    }
  }

  lemma OneMoreSlot(parent: string, slots: seq<Slot>)
    requires slots != []
    ensures var n := |slots| - 1;
            var earlier, walk := WalkSlots(parent, slots[..n]), WalkSlots(parent, slots);
            && walk.lost == (earlier.lost || Gone(slots[n]))
            && (if walk.lost || !slots[n].Device? then walk.found == earlier.found
                else |walk.found| == |earlier.found| + 1 && walk.found[..|earlier.found|] == earlier.found
                     && Describes(walk.found[|earlier.found|], parent, slots[n]))
  {
    assert Gone(slots[|slots| - 1]) <==> Cuts(slots[|slots| - 1]);
  }

  /** Enumeration stops exactly at a device that says the library is gone; otherwise it finds every device, in order. */
  lemma {:induction false} WalkFindsTheDevices(parent: string, slots: seq<Slot>) returns (at: seq<nat>)
    ensures var walk := WalkSlots(parent, slots);
            && (walk.lost <==> Any(slots, Gone))
            && ReadFrom(walk.found, parent, slots, at)
            && (!walk.lost ==> forall n :: 0 <= n < |slots| && slots[n].Device? ==> n in at)
    decreases |slots|
  {
    if slots == [] {
      at := [];
    } else {
      var n := |slots| - 1;
      at := WalkFindsTheDevices(parent, slots[..n]);
      assert forall k :: 0 <= k < n ==> slots[..n][k] == slots[k];
      OneMoreSlot(parent, slots);
      AnyOneMore(slots, Gone);
      ReadOneMore(WalkSlots(parent, slots[..n]).found, WalkSlots(parent, slots).found, parent, slots, at);
      if !WalkSlots(parent, slots).lost && slots[n].Device? {
        at := at + [n];
      }
    }
  }

  // ---------------------------------------------------------------- activity

  /** What a device's activity must be, when its sample pair was usable and the driver answered. */
  ghost predicate Reports(u: Option<Util>, prev: nat, metrics: seq<Metric>) {
    && u.Some? && u.value.prev == prev && |u.value.values| == |metrics|
    && forall i :: 0 <= i < |metrics| ==>
         && (u.value.values[i].Some? <==> metrics[i].ret == Success && metrics[i].value.Some?)
         && (u.value.values[i].Some? && i < 4 ==> 100.0 * u.value.values[i].value == metrics[i].value.value)
         && (u.value.values[i].Some? && i >= 4 ==> u.value.values[i].value == 1048576.0 * metrics[i].value.value)
  }

  /** The retained sample is of this generation, one second to ten minutes old, and the driver answers every call. */
  predicate Answered(k: Kept, fp: Fingerprint, g: Sampling) {
    && k.fingerprint == fp && 1_000_000_000 <= g.now - k.taken <= 600_000_000_000
    && g.alloc == Success && g.get == Success && g.outer == Success
    && forall i :: 0 <= i < |g.metrics| ==>
         g.metrics[i].ret !in {GpuIsLost, Uninitialized, DriverNotLoaded, LibRmVersionMismatch, GpuNotFound}
  }

  lemma SampleReports(st: Store, key: string, fp: Fingerprint, g: Sampling)
    requires key in st.kept && Answered(st.kept[key], fp, g)
    ensures Reports(Sample(st, key, fp, g).util, st.kept[key].sample, g.metrics)
  {
    ServesWhatIsMeasured(st, key, fp, g);
  }

  lemma KeysAreOwn(parent: string, gi: int, others: seq<int>)
    requires gi !in others
    ensures GiKey(parent, Decimal(gi)) !in KeysOf(parent, others)
  {
    forall other | other in others
      ensures GiKey(parent, Decimal(other)) != GiKey(parent, Decimal(gi))
    {
      if GiKey(parent, Decimal(other)) == GiKey(parent, Decimal(gi)) {
        assert GiKey(parent, Decimal(other))[|parent| + 1..] == Decimal(other);
        assert GiKey(parent, Decimal(gi))[|parent| + 1..] == Decimal(gi);
        DecimalInjective(other, gi);
      }
    }
  }

  /** A pass that runs to its end reports every GPU instance whose sample pair is usable. */
  lemma {:induction false} GroupsReport(
    st: Store, parent: string, found: seq<Instance>, gis: seq<int>, answers: int -> Sampling, gi: int, key: string)
    requires Distinct(gis) && gi in gis && key == GiKey(parent, Decimal(gi)) && key in st.kept
    requires Answered(st.kept[key], FingerprintOf(found, gi), answers(gi))
    requires SampleGroups(st, parent, found, gis, answers).more
    ensures var utils := SampleGroups(st, parent, found, gis, answers).utils;
            gi in utils && Reports(utils[gi], st.kept[key].sample, answers(gi).metrics)
    decreases |gis|
  {
    var n := |gis| - 1;
    var earlier := SampleGroups(st, parent, found, gis[..n], answers);
    LastGroup(st, parent, found, gis, answers);
    if gis[n] == gi {
      assert gi !in gis[..n];
      KeysAreOwn(parent, gi, gis[..n]);
      GroupsTouchOwnKeys(st, parent, found, gis[..n], answers, key);
      SampleReports(earlier.store, key, FingerprintOf(found, gi), answers(gi));
    } else {
      assert gi in gis[..n];
      GroupsReport(st, parent, found, gis[..n], answers, gi, key);
    }
  }

  /** The last group of a pass that runs to its end. */
  lemma LastGroup(st: Store, parent: string, found: seq<Instance>, gis: seq<int>, answers: int -> Sampling)
    requires gis != [] && SampleGroups(st, parent, found, gis, answers).more
    ensures var n := |gis| - 1;
            var earlier := SampleGroups(st, parent, found, gis[..n], answers);
            var last := Sample(earlier.store, GiKey(parent, Decimal(gis[n])), FingerprintOf(found, gis[n]), answers(gis[n]));
            && earlier.more
            && SampleGroups(st, parent, found, gis, answers).utils == earlier.utils[gis[n] := last.util]
  {
  }

  /**
   On a GPU with MIG, working activity sampling and no lost library, every device of a GPU instance whose sample pair is
   usable is served with the metrics measured between the two samples.
   */
  lemma UtilizationIsServed(e: Extras, parent: string, mig: Mig, i: nat, key: string)
    requires mig.Enabled? && mig.gpmThere && mig.support == Success && mig.supported && CollectMig(e, parent, mig).more
    requires i < |CollectMig(e, parent, mig).all| && CollectMig(e, parent, mig).all[i].parent == parent
    requires var gi := CollectMig(e, parent, mig).all[i].gi;
             var found := WalkSlots(parent, mig.slots).found;
             && gi in Gis(found) && key == GiKey(parent, Decimal(gi)) && key in e.store.kept
             && Answered(e.store.kept[key], FingerprintOf(found, gi), mig.answers(gi))
    ensures var d := CollectMig(e, parent, mig).all[i];
            Reports(d.util, e.store.kept[key].sample, mig.answers(d.gi).metrics)
  {
    var found := WalkSlots(parent, mig.slots).found;
    var gi := CollectMig(e, parent, mig).all[i].gi;
    var pass := SampleGroups(e.store, parent, found, Gis(found), mig.answers);
    assert found != [];
    AscendingIsDistinct(Gis(found));
    CompletePassStamps(e, parent, mig);
    GroupsReport(e.store, parent, found, Gis(found), mig.answers, gi, key);
  }

  lemma CompletePassStamps(e: Extras, parent: string, mig: Mig)
    requires mig.Enabled? && mig.gpmThere && mig.support == Success && mig.supported && CollectMig(e, parent, mig).more
    requires WalkSlots(parent, mig.slots).found != []
    ensures var found := WalkSlots(parent, mig.slots).found;
            var pass := SampleGroups(e.store, parent, found, Gis(found), mig.answers);
            pass.more && CollectMig(e, parent, mig).all == Stamp(e.all + found, parent, pass.utils)
  {
  }

  lemma AscendingIsDistinct(ids: seq<int>)
    requires Ascending(ids)
    ensures Distinct(ids)
  {
  }

  // ---------------------------------------------------------------- the whole pass

  /** Slot `n` of GPU `g`, read by a pass that reaches it. */
  predicate Readable(gpus: seq<Gpu>, g: nat, n: nat) {
    && g < |gpus| && gpus[g].handle == Success && gpus[g].uuidRet == Success
    && gpus[g].mig.Some? && gpus[g].mig.value.Enabled? && n < |gpus[g].mig.value.slots|
    && gpus[g].mig.value.slots[n].Device?
  }

  ghost predicate IsRead(gpus: seq<Gpu>, g: nat, n: nat, i: Instance) {
    Readable(gpus, g, n) && Describes(i, gpus[g].uuid, gpus[g].mig.value.slots[n])
  }

  /** Every served instance describes a device of the driver. */
  ghost predicate Honest(all: seq<Instance>, gpus: seq<Gpu>) {
    forall i :: 0 <= i < |all| ==> IsSomeDevice(gpus, all[i])
  }

  ghost predicate IsSomeDevice(gpus: seq<Gpu>, i: Instance) { exists g: nat, n: nat :: IsRead(gpus, g, n, i) }

  /** Every device of the driver is served. */
  ghost predicate Full(all: seq<Instance>, gpus: seq<Gpu>) {
    forall g: nat, n: nat :: Readable(gpus, g, n) ==> exists i :: 0 <= i < |all| && IsRead(gpus, g, n, all[i])
  }

  /** Only the activity of an instance changed. */
  ghost predicate SameDevices(a: seq<Instance>, b: seq<Instance>) {
    |a| == |b| && forall i :: 0 <= i < |a| ==> a[i].(util := None) == b[i].(util := None)
  }

  lemma MigAppends(e: Extras, parent: string, mig: Mig)
    ensures var found := if mig.Enabled? then WalkSlots(parent, mig.slots).found else [];
            && SameDevices(CollectMig(e, parent, mig).all, e.all + found)
            && (CollectMig(e, parent, mig).more && mig.Enabled? ==> !WalkSlots(parent, mig.slots).lost)
  {
    assert e.all + [] == e.all;
  }

  lemma BeforeMigLeavesAll(e: Extras, gpu: Gpu)
    ensures BeforeMig(e, gpu).all == e.all
  {
  }

  /** What one GPU adds. */
  function Added(gpu: Gpu): seq<Instance> {
    if gpu.handle == Success && gpu.uuidRet == Success && gpu.mig.Some? && gpu.mig.value.Enabled?
    then WalkSlots(gpu.uuid, gpu.mig.value.slots).found
    else []
  }

  lemma GpuAppends(e: Extras, gpu: Gpu)
    ensures SameDevices(OneGpu(e, gpu).all, e.all) || SameDevices(OneGpu(e, gpu).all, e.all + Added(gpu))
    ensures OneGpu(e, gpu).more && e.more ==>
              && SameDevices(OneGpu(e, gpu).all, e.all + Added(gpu))
              && (gpu.handle == Success && gpu.uuidRet == Success && gpu.mig.Some? && gpu.mig.value.Enabled? ==>
                    !WalkSlots(gpu.uuid, gpu.mig.value.slots).lost)
  {
    BeforeMigLeavesAll(e, gpu);
    assert e.all + [] == e.all;
    assert SameDevices(e.all, e.all);
    var ready := BeforeMig(e, gpu);
    if !gpu.handle.Success? || !gpu.uuidRet.Success? {
      assert Added(gpu) == [] && OneGpu(e, gpu).all == e.all;
    } else if ready.more && gpu.mig.Some? {
      MigAppends(ready, gpu.uuid, gpu.mig.value);
      assert OneGpu(e, gpu) == CollectMig(ready, gpu.uuid, gpu.mig.value);
    } else {
      assert OneGpu(e, gpu) == ready;
    }
  }

  lemma HonestGrows(all: seq<Instance>, front: seq<Gpu>, gpu: Gpu, more: seq<Instance>)
    requires Honest(all, front) && (SameDevices(more, all) || SameDevices(more, all + Added(gpu)))
    ensures Honest(more, front + [gpu])
  {
    var gpus := front + [gpu];
    forall i | 0 <= i < |more|
      ensures IsSomeDevice(gpus, more[i])
    {
      if i < |all| {
        assert IsSomeDevice(front, all[i]);
        var g: nat, n: nat :| IsRead(front, g, n, all[i]);
        assert gpus[g] == front[g] && more[i].(util := None) == all[i].(util := None);
        assert IsRead(gpus, g, n, more[i]);
      } else {
        var at := WalkFindsTheDevices(gpu.uuid, gpu.mig.value.slots);
        var k := i - |all|;
        assert more[i].(util := None) == Added(gpu)[k].(util := None) && gpus[|front|] == gpu;
        assert Describes(Added(gpu)[k], gpu.uuid, gpu.mig.value.slots[at[k]]);
        assert IsRead(gpus, |front|, at[k], more[i]);
      }
    }
  }

  lemma FullGrows(all: seq<Instance>, front: seq<Gpu>, gpu: Gpu, more: seq<Instance>)
    requires Full(all, front) && SameDevices(more, all + Added(gpu))
    requires gpu.handle == Success && gpu.uuidRet == Success && gpu.mig.Some? && gpu.mig.value.Enabled? ==>
               !WalkSlots(gpu.uuid, gpu.mig.value.slots).lost
    ensures Full(more, front + [gpu])
  {
    var gpus := front + [gpu];
    forall g: nat, n: nat | Readable(gpus, g, n)
      ensures exists i :: 0 <= i < |more| && IsRead(gpus, g, n, more[i])
    {
      if g < |front| {
        assert Readable(front, g, n) && gpus[g] == front[g];
        var i :| 0 <= i < |all| && IsRead(front, g, n, all[i]);
        assert more[i].(util := None) == all[i].(util := None) && IsRead(gpus, g, n, more[i]);
      } else {
        assert gpus[g] == gpu;
        var k := NewIsServed(gpu, n);
        var i := |all| + k;
        assert (all + Added(gpu))[i] == Added(gpu)[k];
        assert more[i].(util := None) == Added(gpu)[k].(util := None) && IsRead(gpus, g, n, more[i]);
      }
    }
  }

  lemma NewIsServed(gpu: Gpu, n: nat) returns (k: nat)
    requires Readable([gpu], 0, n) && !WalkSlots(gpu.uuid, gpu.mig.value.slots).lost
    ensures k < |Added(gpu)| && Describes(Added(gpu)[k], gpu.uuid, gpu.mig.value.slots[n])
  {
    var at := WalkFindsTheDevices(gpu.uuid, gpu.mig.value.slots);
    k :| 0 <= k < |at| && at[k] == n;
  }

  /**
   What a cycle serves of MIG are the driver's devices: every instance describes one, memory and all, and a pass that
   was not cut short serves every one it could read.
   */
  lemma {:induction false} ServedAreTheDevices(st: Store, gpus: seq<Gpu>)
    ensures var e := AllGpus(Extras(st, [], {}, true), gpus);
            Honest(e.all, gpus) && (e.more ==> Full(e.all, gpus))
    decreases |gpus|
  {
    if gpus != [] {
      var front, gpu := gpus[..|gpus| - 1], gpus[|gpus| - 1];
      var earlier := AllGpus(Extras(st, [], {}, true), front);
      assert gpus == front + [gpu];
      ServedAreTheDevices(st, front);
      GpuAppends(earlier, gpu);
      if !earlier.more || gpu.interrupted {
        HonestGrows(earlier.all, front, gpu, earlier.all);
      } else {
        HonestGrows(earlier.all, front, gpu, OneGpu(earlier, gpu).all);
        if OneGpu(earlier, gpu).more {
          FullGrows(earlier.all, front, gpu, OneGpu(earlier, gpu).all);
        }
      }
    }
  }

  // ---------------------------------------------------------------- how a cycle ends

  /** A return that says the library or the GPU is gone. */
  predicate SaysGone(ret: Ret) { ret in {GpuIsLost, Uninitialized, DriverNotLoaded, LibRmVersionMismatch, GpuNotFound} }

  ghost predicate ClearedDown(e: Extras) { !e.store.initialized && e.store.kept == map[] && e.all == [] }

  /**
   How a cycle ends before its pass over the GPUs: without a library nothing happens; a table, a process query or a version
   query that says the library is gone leaves it down with nothing retained; any other failed table only ends the cycle.
   */
  lemma CycleEndsEarly(st: Store, op: Op)
    requires op.CycleOp?
    ensures var e := Cycle(st, op);
            var up := st.initialized || op.init == Success;
            && (!up ==> e.store == st.(wins := op.wins) && e.all == [])
            && (up && SaysGone(op.table) ==> ClearedDown(e))
            && (up && op.table != Success && !SaysGone(op.table) ==>
                  e.store.initialized && e.store.kept == st.kept && e.all == [])
            && (up && op.table == Success && op.apps.Some? && SaysGone(op.apps.value) ==> ClearedDown(e))
            && (up && op.table == Success && SaysGone(op.cuda) ==> ClearedDown(e))
  {
    var up := Up(st, op);
    if up.initialized && op.table != Success {
      SoftIs(up, op.table);
      assert Cycle(st, op) == Extras(Soft(up, op.table), [], {}, false);
    } else if up.initialized {
      var queried := if op.apps.Some? then Soft(up, op.apps.value) else up;
      if op.apps.Some? {
        SoftIs(up, op.apps.value);
      }
      assert Cycle(st, op) == CollectExtras(queried, op);
      VersionSaysGone(queried, op);
    }
  }

  lemma VersionSaysGone(st: Store, op: Op)
    requires op.CycleOp?
    ensures !st.initialized ==> CollectExtras(st, op) == Extras(st, [], {}, true)
    ensures st.initialized && SaysGone(op.cuda) ==> ClearedDown(CollectExtras(st, op))
  {
  }

  lemma SoftIs(st: Store, ret: Ret)
    requires st.initialized
    ensures if SaysGone(ret) then !Soft(st, ret).initialized && Soft(st, ret).kept == map[] else Soft(st, ret) == st
  {
  }

  /** And otherwise, with extras wanted and the GPUs counted, it serves what the pass found, whatever the process query did. */
  lemma CycleRunsThePass(st: Store, op: Op)
    requires op.CycleOp? && (st.initialized || op.init == Success) && op.table == Success && !SaysGone(op.cuda)
    requires (op.apps.Some? ==> !SaysGone(op.apps.value)) && op.wanted && op.count == Success
    ensures Honest(Cycle(st, op).all, op.gpus)
    ensures AllGpus(Extras(Up(st, op), [], {}, true), op.gpus).more ==> Full(Cycle(st, op).all, op.gpus)
  {
    assert Soft(Up(st, op), if op.apps.Some? then op.apps.value else Success) == Up(st, op);
    assert Cycle(st, op).all == AllGpus(Extras(Up(st, op), [], {}, true), op.gpus).all;
    ServedAreTheDevices(Up(st, op), op.gpus);
  }

  /** The energy and PCIe reads stop a pass exactly when one says the library is gone, or the context ends between the two. */
  lemma BeforeMigStops(e: Extras, gpu: Gpu)
    requires e.more
    ensures BeforeMig(e, gpu).more <==>
              && !(gpu.energy.Some? && SaysGone(gpu.energy.value))
              && (gpu.pcie.Some? ==>
                    var p := gpu.pcie.value;
                    !SaysGone(p.tx) && (p.tx == Success ==> !p.interrupted && !SaysGone(p.rx)))
    ensures e.store.initialized && !BeforeMig(e, gpu).store.initialized ==> BeforeMig(e, gpu).store.kept == map[]
  {
  }

  // ---------------------------------------------------------------- fingerprints

  /** Members tell devices apart: by uuid, profile and compute instance. */
  lemma MemberInjective(a: Instance, b: Instance)
    requires ':' !in a.uuid && ':' !in b.uuid && ':' !in a.profile && ':' !in b.profile
    requires Member(a) == Member(b)
    ensures a.uuid == b.uuid && a.profile == b.profile && a.ci == b.ci
  {
    MemberIs(a, Decimal(a.ci));
    MemberIs(b, Decimal(b.ci));
    FirstColon(a.uuid, a.profile + ":" + Decimal(a.ci), b.uuid, b.profile + ":" + Decimal(b.ci));
    FirstColon(a.profile, Decimal(a.ci), b.profile, Decimal(b.ci));
    DecimalInjective(a.ci, b.ci);
  }

  lemma MemberIs(i: Instance, ci: string)
    requires ci == Decimal(i.ci)
    ensures Member(i) == i.uuid + ":" + (i.profile + ":" + ci)
  {
    assert i.uuid + ":" + i.profile + ":" + ci == i.uuid + ":" + (i.profile + ":" + ci);
  }

  lemma FirstColon(a: string, x: string, b: string, y: string)
    requires ':' !in a && ':' !in b && a + ":" + x == b + ":" + y
    ensures a == b && x == y
  {
    var s, t := a + ":" + x, b + ":" + y;
    assert s[|a|] == ':' && t[|b|] == ':';
    assert forall i :: 0 <= i < |a| ==> s[i] == a[i];
    assert forall i :: 0 <= i < |b| ==> t[i] == b[i];
    assert s[..|a|] == a && t[..|b|] == b && s[|a| + 1..] == x && t[|b| + 1..] == y;
  }

  lemma OneMoreMember(found: seq<Instance>, gi: int, m: string)
    requires found != []
    ensures var n := |found| - 1;
            m in FingerprintOf(found, gi) <==> m in FingerprintOf(found[..n], gi) || (found[n].gi == gi && Member(found[n]) == m)
  {
  }

  ghost predicate HasMember(found: seq<Instance>, gi: int, m: string) {
    Any(found, (i: Instance) => i.gi == gi && Member(i) == m)
  }

  lemma HasOneMore(found: seq<Instance>, gi: int, m: string)
    requires found != []
    ensures var n := |found| - 1;
            HasMember(found, gi, m) <==> HasMember(found[..n], gi, m) || (found[n].gi == gi && Member(found[n]) == m)
  {
    AnyOneMore(found, (i: Instance) => i.gi == gi && Member(i) == m);
  }

  /** A fingerprint holds the member of each device of its GPU instance, and of no other. */
  lemma {:induction false} FingerprintHolds(found: seq<Instance>, gi: int, m: string)
    ensures m in FingerprintOf(found, gi) <==> HasMember(found, gi, m)
    decreases |found|
  {
    if found != [] {
      FingerprintHolds(found[..|found| - 1], gi, m);
      OneMoreMember(found, gi, m);
      HasOneMore(found, gi, m);
    }
  }
}
