/**
 The NVML backend as the object it is: its fields updated in place by the operations that hold the cycle mutex. The
 driver's answers are parameters; the driver's own books (what was allocated, freed and shut down) are ghost fields.
 */
module NvmlBackend {
  import opened Basics
  import opened Numerals
  import opened MigKeys
  import opened Gpm
  import opened Ids
  import opened MigCycle

  class Backend {
    var initialized: bool
    var generation: nat
    var genLive: bool
    var gpm: map<string, Kept>
    var allocs: nat
    /** Whether the exclusive lifecycle lock can be had before the deadline in the present operation. */
    var wins: bool
    ghost var frees: nat
    ghost var freed: set<nat>
    ghost var born: map<nat, Origin>
    ghost var late: set<nat>
    ghost var lost: map<nat, bool>
    ghost var down: bool
    ghost var inits: nat
    ghost var shutdowns: nat
    ghost var skipped: nat

    ghost function View(): Store
      reads this
    {
      Store(initialized, gpm, allocs, frees, freed, born, wins, down, late, lost)
    }

    /** Between operations: the watcher's view agrees, and every init is accounted for. */
    ghost predicate Valid()
      reads this
    {
      && genLive == initialized && (initialized ==> !down)
      && inits == generation && inits == shutdowns + skipped + if initialized then 1 else 0
    }

    constructor ()
      ensures Valid() && View() == NEW && generation == 1
    {
      initialized, generation, genLive, gpm, allocs, wins := true, 1, true, map[], 0, true;
      frees, freed, born, late, lost, down := 0, {}, map[], {}, map[], false;
      inits, shutdowns, skipped := 1, 0, 0;
    }

    /** gpmSampleFree. */
    method FreeSample(x: nat)
      requires Valid()
      modifies this`frees, this`freed, this`late
      ensures Valid() && View() == Free(old(View()), x)
    {
      late := if down then late + {x} else late;
      frees, freed := frees + 1, freed + {x};
    }

    /** freeGPMSamples. */
    method FreeGpmSamples()
      requires Valid()
      modifies this`gpm, this`frees, this`freed, this`late
      ensures Valid() && View() == FreeAll(old(View()))
    {
      DropAllBut({});
      assert old(gpm) - {} == old(gpm);
      assert gpm == map[];
    }

    /** Frees one retained sample and forgets it. */
    method DropOne(k: string)
      requires Valid() && k in gpm
      modifies this`gpm, this`frees, this`freed, this`late
      ensures Valid() && View() == Free(old(View()), old(gpm)[k].sample).(kept := old(gpm) - {k})
    {
      FreeSample(gpm[k].sample);
      gpm := gpm - {k};
    }

    /** dropOrphanGPMStates; the loop of freeGPMSamples is the one with nothing to keep. */
    method DropAllBut(keep: set<string>)
      requires Valid()
      modifies this`gpm, this`frees, this`freed, this`late
      ensures Valid() && View() == FreeExcept(old(View()), keep)
    {
      ghost var st, done: map<string, Kept> := View(), map[];
      DropNone(st);
      while gpm.Keys - keep != {}
        invariant Valid() && View() == Dropped(st, done)
        invariant forall k :: k in done ==> k in st.kept && k !in keep && done[k] == st.kept[k]
        decreases |gpm|
      {
        var k :| k in gpm.Keys - keep;
        MapSizes(gpm, k, gpm[k]);
        assert gpm == st.kept - done.Keys;
        DropStep(st, done, k);
        DropOne(k);
        done := done[k := st.kept[k]];
      }
      assert forall k :: k in gpm && k !in keep ==> k in gpm.Keys - keep;
      DropsAll(st, done, keep);
    }

    /** markLost's and Close's common part. */
    method ShutDown()
      requires Valid()
      modifies this
      ensures Valid() && View() == TearDown(old(View())) && generation == old(generation)
      ensures !initialized
    {
      if !initialized {
        return;
      }
      FreeGpmSamples();
      TurnOff();
    }

    /** The flags, then the shutdown unless the exclusive lock cannot be had. */
    method TurnOff()
      requires Valid() && initialized
      modifies this`initialized, this`genLive, this`down, this`shutdowns, this`skipped
      ensures Valid() && View() == old(View()).(initialized := false, down := wins)
    {
      initialized := false;
      genLive := false;
      if !wins {
        skipped := skipped + 1;
        return;
      }
      down := true;
      shutdowns := shutdowns + 1;
    }

    /** api.init and the stores that follow a success. */
    method Reinitialize(ret: Ret) returns (ok: bool)
      requires Valid() && !initialized
      modifies this
      ensures Valid() && View() == Initialized(old(View()), ret)
      ensures ok == ret.Success? == initialized
      ensures generation == old(generation) + if ok then 1 else 0
    {
      if !ret.Success? {
        return false;
      }
      inits, down := inits + 1, false;
      initialized := true;
      generation := generation + 1;
      genLive := true;
      return true;
    }

    method Close(lockWins: bool)
      requires Valid()
      modifies this
      ensures Valid() && View() == Do(old(View()), CloseOp(lockWins)) && !initialized
    {
      wins := lockWins;
      ShutDown();
    }

    method TryRecover(init: Ret, lockWins: bool)
      requires Valid()
      modifies this
      ensures Valid() && View() == Do(old(View()), RecoverOp(init, lockWins))
      ensures generation == old(generation) + if init.Success? then 1 else 0
    {
      wins := lockWins;
      if initialized {
        ShutDown();
      }
      var ok := Reinitialize(init);
    }

    /** extrasFailure, and the state change of softLifecycle. */
    method Failure(ret: Ret) returns (more: bool)
      requires Valid()
      modifies this
      ensures generation == old(generation)
      ensures Valid() && Outcome(View(), None, more) == Failed(old(View()), ret)
    {
      if IsLifecycle(ret) {
        ShutDown();
        return false;
      }
      return true;
    }

    /** Percentages become ratios, MiB per second bytes per second; a value that is not finite stays absent. */
    method Scale(n: nat, value: Option<real>) returns (scaled: Option<real>)
      ensures forall ret: Ret :: ret.Success? ==> scaled == Scaled(n, Metric(ret, value))
    {
      if value.None? {
        return None;
      }
      return Some(if n < RATIOS then value.value / 100.0 else value.value * MIB);
    }

    method GpmMetrics(prev: nat, cur: nat, g: Sampling) returns (util: Option<Util>, more: bool)
      requires Valid()
      modifies this
      ensures generation == old(generation)
      ensures Valid() && Outcome(View(), util, more) == Diff(old(View()), prev, cur, g)
    {
      if !g.outer.Success? {
        more := Failure(g.outer);
        return None, more;
      }
      var values: seq<Option<real>> := [];
      var n := 0;
      while n < |g.metrics|
        invariant 0 <= n <= |g.metrics| && Valid() && generation == old(generation) && View() == old(View())
        invariant FirstLost(g.metrics) == FirstLost(g.metrics[n..])
        invariant values == Values(g.metrics)[..n]
      {
        var m := g.metrics[n];
        if !m.ret.Success? {
          if IsLifecycle(m.ret) {
            more := Failure(m.ret);
            return None, more;
          }
          values := values + [None];
        } else {
          var scaled := Scale(n, m.value);
          values := values + [scaled];
        }
        n := n + 1;
      }
      assert Values(g.metrics)[..n] == Values(g.metrics);
      return Some(Util(prev, cur, values)), true;
    }

    /** The second sample of a pair: diff, then rotate the retention, or give the fresh sample back. */
    method RotateSample(key: string, fp: Fingerprint, g: Sampling) returns (util: Option<Util>, more: bool)
      requires Valid() && key in gpm
      modifies this
      ensures generation == old(generation)
      ensures Valid() && Outcome(View(), util, more) == Rotate(old(View()), key, fp, g)
    {
      var retained, sample := gpm[key].sample, allocs;
      allocs := allocs + 1;
      born := born[sample := Origin(key, fp, g.now, g.metrics)];
      assert View() == Filled(old(View()), key, fp, g);
      util, more := GpmMetrics(retained, sample, g);
      ghost var diffed := Outcome(View(), util, more);
      assert diffed == Diff(Filled(old(View()), key, fp, g), retained, sample, g);
      if !more {
        FreeSample(sample);
        lost := lost[sample := wins];
        return None, false;
      }
      FreeSample(retained);
      gpm := gpm[key := Kept(sample, g.now, fp, util)];
    }

    method TakeSample(key: string, fp: Fingerprint, g: Sampling) returns (util: Option<Util>, more: bool)
      requires Valid()
      modifies this
      ensures generation == old(generation)
      ensures Valid() && Outcome(View(), util, more) == Resample(old(View()), key, fp, g)
    {
      if !g.alloc.Success? {
        more := Failure(g.alloc);
        return None, more;
      }
      if !g.get.Success? {
        var sample := allocs;
        allocs := allocs + 1;
        FreeSample(sample);
        more := Failure(g.get);
        return None, more;
      }
      if key in gpm {
        util, more := RotateSample(key, fp, g);
        return;
      }
      var sample := allocs;
      allocs := allocs + 1;
      born := born[sample := Origin(key, fp, g.now, g.metrics)];
      gpm := gpm[key := Kept(sample, g.now, fp, None)];
      return None, true;
    }

    method GpmUtilization(key: string, fp: Fingerprint, g: Sampling) returns (util: Option<Util>, more: bool)
      requires Valid()
      modifies this
      ensures generation == old(generation)
      ensures Valid() && Outcome(View(), util, more) == Sample(old(View()), key, fp, g)
    {
      if key in gpm && (gpm[key].fingerprint != fp || g.now - gpm[key].taken > MAX_WINDOW) {
        FreeSample(gpm[key].sample);
        gpm := gpm - {key};
      }
      assert View() == Invalidated(old(View()), key, fp, g.now);
      if key in gpm && g.now - gpm[key].taken < MIN_WINDOW {
        return gpm[key].last, true;
      }
      util, more := TakeSample(key, fp, g);
    }

    /** One more readable device, and its member in the group of its GPU instance. */
    method AddDevice(parent: string, slot: Slot, found: seq<Instance>, groups: map<int, Fingerprint>)
      returns (more: seq<Instance>, grouped: map<int, Fingerprint>)
      requires slot.Device? && GroupedBy(groups, found)
      ensures more == found + [Read(parent, slot)] && GroupedBy(grouped, more)
    {
      var instance := Read(parent, slot);
      var members := (if slot.gi in groups then groups[slot.gi] else multiset{}) + multiset{Member(instance)};
      more, grouped := found + [instance], groups[slot.gi := members];
      assert more[..|found|] == found;
    }

    /**
     enumerateMIG: appends the readable devices and groups their members by GPU instance; a lifecycle error ends it.
     */
    method EnumerateMig(parent: string, slots: seq<Slot>)
      returns (found: seq<Instance>, groups: map<int, Fingerprint>, lost: bool)
      requires Valid()
      modifies this
      ensures generation == old(generation)
      ensures Valid() && Walk(found, lost) == WalkSlots(parent, slots)
      ensures View() == if lost then TearDown(old(View())) else old(View())
      ensures !lost ==> forall gi :: gi in groups <==> gi in Gis(found)
      ensures !lost ==> forall gi :: gi in groups ==> groups[gi] == FingerprintOf(found, gi)
    {
      found, groups, lost := [], map[], false;
      var n := 0;
      while n < |slots|
        invariant 0 <= n <= |slots| && Valid() && generation == old(generation) && View() == old(View())
        invariant Walk(found, false) == WalkSlots(parent, slots[..n])
        invariant GroupedBy(groups, found)
      {
        var slot := slots[n];
        assert slots[..n + 1][..n] == slots[..n];
        if Cuts(slot) {
          ShutDown();
          WalkStops(parent, slots, n + 1);
          return found, groups, true;
        }
        if slot.Device? {
          found, groups := AddDevice(parent, slot, found, groups);
        }
        n := n + 1;
      }
      assert slots[..n] == slots;
    }

    /** One more GPU instance of the pass. */
    method SampleOne(parent: string, ghost found: seq<Instance>, gis: seq<int>, n: nat, fp: Fingerprint, answers: int -> Sampling,
                     before: map<int, Option<Util>>, ghost start: Store)
      returns (utils: map<int, Option<Util>>, more: bool)
      requires Valid() && n < |gis| && fp == FingerprintOf(found, gis[n])
      requires Pass(View(), before, true) == SampleGroups(start, parent, found, gis[..n], answers)
      modifies this
      ensures generation == old(generation)
      ensures Valid() && Pass(View(), utils, more) == SampleGroups(start, parent, found, gis[..n + 1], answers)
    {
      OneMoreGroup(start, parent, found, gis, answers, n);
      var util;
      util, more := GpmUtilization(GiKey(parent, Decimal(gis[n])), fp, answers(gis[n]));
      utils := if more then before[gis[n] := util] else before;
    }

    /** The pass over the GPU instances, in ascending order. */
    method SampleInstances(parent: string, found: seq<Instance>, groups: map<int, Fingerprint>, answers: int -> Sampling)
      returns (utils: map<int, Option<Util>>, more: bool)
      requires Valid()
      requires forall gi :: gi in groups <==> gi in Gis(found)
      requires forall gi :: gi in groups ==> groups[gi] == FingerprintOf(found, gi)
      modifies this
      ensures generation == old(generation)
      ensures Valid() && Pass(View(), utils, more) == SampleGroups(old(View()), parent, found, Gis(found), answers)
    {
      var gis := SortedIds(groups.Keys);
      AscendingUnique(gis, Gis(found));
      utils := map[];
      var n := 0;
      while n < |gis|
        invariant 0 <= n <= |gis| && Valid() && generation == old(generation)
        invariant Pass(View(), utils, true) == SampleGroups(old(View()), parent, found, gis[..n], answers)
      {
        assert gis[n] in gis;
        utils, more := SampleOne(parent, found, gis, n, groups[gis[n]], answers, utils, old(View()));
        if !more {
          SamplingStops(old(View()), parent, found, gis, answers, n + 1);
          return;
        }
        n := n + 1;
      }
      assert gis[..n] == gis;
      return utils, true;
    }

    method UtilizeMig(parent: string, mig: Mig, groups: map<int, Fingerprint>, before: seq<Instance>, ghost seen: set<string>)
      returns (all: seq<Instance>, more: bool)
      requires Valid() && mig.Enabled?
      requires var found := WalkSlots(parent, mig.slots).found;
               && (forall gi :: gi in groups <==> gi in Gis(found))
               && (forall gi :: gi in groups ==> groups[gi] == FingerprintOf(found, gi))
      modifies this
      ensures generation == old(generation)
      ensures Valid() && Extras(View(), all, seen, more) == Utilize(Extras(old(View()), before, seen, true), parent, mig)
    {
      if IsLifecycle(mig.support) {
        more := Failure(mig.support);
        return before, more;
      }
      if !mig.support.Success? || !mig.supported {
        return before, true;
      }
      var utils, ok := SampleInstances(parent, WalkSlots(parent, mig.slots).found, groups, mig.answers);
      return if ok then Stamp(before, parent, utils) else before, ok;
    }

    /** collectMIG: `before` and `seen` are what earlier devices left. */
    method CollectMigOf(parent: string, mig: Mig, before: seq<Instance>, seen: set<string>)
      returns (all: seq<Instance>, marked: set<string>, more: bool)
      requires Valid()
      modifies this
      ensures generation == old(generation)
      ensures Valid() && Extras(View(), all, marked, more) == CollectMig(Extras(old(View()), before, seen, true), parent, mig)
    {
      match mig {
        case ModeFails(ret) =>
          if ret.NotSupported? {
            return before, seen, true;
          }
          more := Failure(ret);
          return before, seen, more;
        case ModeOff =>
          return before, seen, true;
        case CountFails(ret) =>
          more := Failure(ret);
          return before, seen, more;
        case Enabled(slots, gpmThere, _, _, _) =>
          var found, groups, lost := EnumerateMig(parent, slots);
          all := before + found;
          if lost {
            return all, seen, false;
          }
          if found == [] {
            return all, seen, true;
          }
          marked := seen + set gi | gi in groups :: GiKey(parent, Decimal(gi));
          assert marked == seen + KeysOf(parent, Gis(found));
          if !gpmThere {
            return all, marked, false;
          }
          all, more := UtilizeMig(parent, mig, groups, all, marked);
      }
    }

    /** collectDeviceExtras. */
    method CollectDeviceExtras(gpu: Gpu, before: seq<Instance>, marked: set<string>)
      returns (all: seq<Instance>, seen: set<string>, more: bool)
      requires Valid()
      modifies this
      ensures generation == old(generation)
      ensures Valid() && Extras(View(), all, seen, more) == OneGpu(Extras(old(View()), before, marked, true), gpu)
    {
      all, seen := before, marked;
      if !gpu.handle.Success? {
        more := Failure(gpu.handle);
        return;
      }
      if !gpu.uuidRet.Success? {
        more := Failure(gpu.uuidRet);
        return;
      }
      more := true;
      if gpu.energy.Some? && !gpu.energy.value.Success? && !gpu.energy.value.NotSupported? {
        more := Failure(gpu.energy.value);
      }
      if more && gpu.pcie.Some? {
        more := CollectPcie(gpu.pcie.value);
      }
      assert Extras(View(), all, seen, more) == BeforeMig(Extras(old(View()), before, marked, true), gpu);
      if more && gpu.mig.Some? {
        all, seen, more := CollectMigOf(gpu.uuid, gpu.mig.value, all, seen);
      }
    }

    method CollectPcie(p: Pcie) returns (more: bool)
      requires Valid()
      modifies this
      ensures generation == old(generation)
      ensures Valid() && forall all, seen ::
                Extras(View(), all, seen, more) == PcieOf(Extras(old(View()), all, seen, true), p)
    {
      if !p.tx.Success? {
        more := Failure(p.tx);
      } else if p.interrupted {
        return false;
      } else if !p.rx.Success? {
        more := Failure(p.rx);
      } else {
        return true;
      }
    }

    /** The pass over the GPUs, as far as it goes. */
    method CollectGpus(gpus: seq<Gpu>) returns (all: seq<Instance>, seen: set<string>, more: bool)
      requires Valid()
      modifies this
      ensures generation == old(generation)
      ensures Valid() && Extras(View(), all, seen, more) == AllGpus(Extras(old(View()), [], {}, true), gpus)
    {
      all, seen, more := [], {}, true;
      ghost var start := Extras(View(), [], {}, true);
      for n := 0 to |gpus|
        invariant Valid() && generation == old(generation)
        invariant Extras(View(), all, seen, true) == AllGpus(start, gpus[..n])
      {
        assert gpus[..n + 1][..n] == gpus[..n];
        if gpus[n].interrupted {
          more := false;
        } else {
          all, seen, more := CollectDeviceExtras(gpus[n], all, seen);
        }
        if !more {
          GpusStop(start, gpus, n + 1);
          return;
        }
      }
      assert gpus[..|gpus|] == gpus;
      more := true;
    }

    /** collectExtras: retained samples of instances no longer there are freed after a complete pass. */
    method CollectAllExtras(op: Op) returns (all: seq<Instance>, seen: set<string>, more: bool)
      requires Valid() && op.CycleOp?
      modifies this
      ensures generation == old(generation)
      ensures Valid() && Extras(View(), all, seen, more) == CollectExtras(old(View()), op)
    {
      all, seen, more := [], {}, true;
      if !initialized {
        return;
      }
      if IsLifecycle(op.cuda) {
        ShutDown();
        return;
      }
      if !op.wanted {
        return;
      }
      if !op.count.Success? {
        var _ := Failure(op.count);
        return;
      }
      all, seen, more := CollectGpus(op.gpus);
      if more && op.mig {
        DropAllBut(seen);
      }
    }

    /** collectCycle: re-initialize if needed, then the table, the processes and the extras. */
    method CollectCycle(op: Op) returns (all: seq<Instance>, seen: set<string>, more: bool)
      requires Valid() && op.CycleOp?
      modifies this
      ensures Valid() && Extras(View(), all, seen, more) == Cycle(old(View()), op)
      ensures generation == old(generation) + if !old(initialized) && op.init.Success? then 1 else 0
    {
      wins := op.wins;
      if !initialized {
        var ok := Reinitialize(op.init);
        if !ok {
          return [], {}, false;
        }
      }
      if !op.table.Success? {
        var _ := Failure(op.table);
        return [], {}, false;
      }
      if op.apps.Some? {
        var _ := Failure(op.apps.value);
      }
      all, seen, more := CollectAllExtras(op);
    }
  }

  /** The groups are the fingerprints of the GPU instances found so far. */
  ghost predicate GroupedBy(groups: map<int, Fingerprint>, found: seq<Instance>) {
    && (forall gi :: gi in groups <==> gi in Gis(found))
    && (forall gi :: gi in groups ==> groups[gi] == FingerprintOf(found, gi))
    && (forall gi :: gi !in groups ==> FingerprintOf(found, gi) == multiset{})
  }

  lemma DropsAll(st: Store, done: map<string, Kept>, keep: set<string>)
    requires forall k :: k in done ==> k in st.kept && k !in keep && done[k] == st.kept[k]
    requires forall k :: k in st.kept - done.Keys ==> k in keep
    ensures done == st.kept - keep
  {
    assert forall k :: k in st.kept && k !in keep ==> k !in st.kept - done.Keys;
  }

  lemma DropNone(st: Store)
    ensures Dropped(st, map[]) == st
  {
    var none: map<string, Kept> := map[];
    assert SamplesOf(none) == {} && st.kept - none.Keys == st.kept;
  }

  lemma UnionStep(base: set<nat>, done: map<string, Kept>, k: string, v: Kept)
    requires k !in done
    ensures base + SamplesOf(done[k := v]) == base + SamplesOf(done) + {v.sample}
  {
    SamplesGrow(done, k, v);
  }

  lemma MinusStep(all: map<string, Kept>, done: map<string, Kept>, k: string)
    requires k in all
    ensures all - done.Keys - {k} == all - done[k := all[k]].Keys
  {
  }

  lemma DropStep(st: Store, done: map<string, Kept>, k: string)
    requires k in st.kept && k !in done
    ensures var freed := Free(Dropped(st, done), st.kept[k].sample);
            freed.(kept := freed.kept - {k}) == Dropped(st, done[k := st.kept[k]])
  {
    var v := st.kept[k];
    MapSizes(done, k, v);
    MinusStep(st.kept, done, k);
    UnionStep(st.freed, done, k, v);
    UnionStep(st.late, done, k, v);
    var a := Free(Dropped(st, done), v.sample);
    var b := Dropped(st, done[k := v]);
    assert a.frees == b.frees && a.freed == b.freed && a.late == b.late && a.kept - {k} == b.kept;
  }

  lemma SamplesGrow(done: map<string, Kept>, k: string, v: Kept)
    requires k !in done
    ensures SamplesOf(done[k := v]) == SamplesOf(done) + {v.sample}
  {
    var more := done[k := v];
    forall x | x in SamplesOf(done) + {v.sample}
      ensures x in SamplesOf(more)
    {
      if x in SamplesOf(done) {
        var j :| j in done && done[j].sample == x;
        assert more[j].sample == x;
      } else {
        assert more[k].sample == x;
      }
    }
  }
}
