/**
 Whole operations on the NVML backend, as functions of the state and the driver's answers: a collection cycle with
 its MIG enumeration and GPM pass, Close, and the watcher's recovery.
 */
module MigCycle {
  import opened Basics
  import opened Numerals
  import opened MigKeys
  import opened Gpm
  import opened Ids

  /** One slot of a parent GPU: empty, a device some required getter failed on, or a device. */
  datatype Slot =
    | EmptySlot
    | Failing(ret: Ret)
    | Device(uuid: string, gi: int, ci: int, profile: string, name: Ret, memory: Ret, bytes: Bytes)

  /** A MIG device's memory. */
  datatype Bytes = Bytes(total: nat, used: nat, free: nat, reserved: nat)

  datatype Instance = Instance(
    parent: string, uuid: string, gi: int, ci: int, profile: string, memory: Option<Bytes>, util: Option<Util>)

  /** What the enumeration appended, and whether a lifecycle error cut it short. */
  datatype Walk = Walk(found: seq<Instance>, lost: bool)

  predicate Cuts(slot: Slot) {
    match slot
    case EmptySlot => false
    case Failing(ret) => IsLifecycle(ret)
    case Device(_, _, _, _, name, memory, _) => IsLifecycle(name) || IsLifecycle(memory)
  }

  /** The instance of a readable device slot. */
  function Read(parent: string, slot: Slot): Instance
    requires slot.Device?
  {
    Instance(parent, slot.uuid, slot.gi, slot.ci, if slot.name.Success? then slot.profile else "[N/A]",
             if slot.memory.Success? then Some(slot.bytes) else None, None)
  }

  function WalkSlots(parent: string, slots: seq<Slot>): Walk
    decreases |slots|
  {
    if slots == [] then Walk([], false)
    else
      var earlier, slot := WalkSlots(parent, slots[..|slots| - 1]), slots[|slots| - 1];
      if earlier.lost then earlier
      else if Cuts(slot) then Walk(earlier.found, true)
      else if slot.Device? then Walk(earlier.found + [Read(parent, slot)], false)
      else earlier
  }

  function Member(i: Instance): string {
    i.uuid + ":" + i.profile + ":" + Decimal(i.ci)
  }

  /** The members of one GPU instance. */
  function FingerprintOf(found: seq<Instance>, gi: int): Fingerprint
    decreases |found|
  {
    if found == [] then multiset{}
    else
      var earlier, i := FingerprintOf(found[..|found| - 1], gi), found[|found| - 1];
      if i.gi == gi then earlier + multiset{Member(i)} else earlier
  }

  /** The GPU instances an enumeration found, in ascending order. */
  function Gis(found: seq<Instance>): (ids: seq<int>)
    ensures Ascending(ids) && forall gi :: gi in ids <==> exists i :: i in found && i.gi == gi
    decreases |found|
  {
    if found == [] then []
    else
      var n := |found| - 1;
      assert forall i :: i in found <==> i in found[..n] || i == found[n];
      InsertId(Gis(found[..n]), found[n].gi)
  }

  /** What the pass over the groups produced. */
  datatype Pass = Pass(store: Store, utils: map<int, Option<Util>>, more: bool)

  /** Samples the groups in order until one stops the pass. */
  function SampleGroups(st: Store, parent: string, found: seq<Instance>, gis: seq<int>, answers: int -> Sampling): Pass
    decreases |gis|
  {
    if gis == [] then Pass(st, map[], true)
    else
      var earlier, gi := SampleGroups(st, parent, found, gis[..|gis| - 1], answers), gis[|gis| - 1];
      if !earlier.more then earlier
      else
        var r := Sample(earlier.store, GiKey(parent, Decimal(gi)), FingerprintOf(found, gi), answers(gi));
        Pass(r.store, if r.more then earlier.utils[gi := r.util] else earlier.utils, r.more)
  }

  /** One more GPU instance of the pass. */
  lemma OneMoreGroup(st: Store, parent: string, found: seq<Instance>, gis: seq<int>, answers: int -> Sampling, n: nat)
    requires n < |gis| && SampleGroups(st, parent, found, gis[..n], answers).more
    ensures var earlier := SampleGroups(st, parent, found, gis[..n], answers);
            var r := Sample(earlier.store, GiKey(parent, Decimal(gis[n])), FingerprintOf(found, gis[n]), answers(gis[n]));
            SampleGroups(st, parent, found, gis[..n + 1], answers)
            == Pass(r.store, if r.more then earlier.utils[gis[n] := r.util] else earlier.utils, r.more)
  {
    assert gis[..n + 1][..n] == gis[..n];
  }

  /** Writes the utilization of each GPU instance onto its MIG devices. */
  function Stamp(all: seq<Instance>, parent: string, utils: map<int, Option<Util>>): (stamped: seq<Instance>)
    ensures |stamped| == |all|
  {
    seq(|all|, n requires 0 <= n < |all| =>
      if all[n].parent != parent then all[n]
      else all[n].(util := if all[n].gi in utils then utils[all[n].gi] else None))
  }

  /** The driver's answers about one parent's MIG. */
  datatype Mig =
    | ModeFails(ret: Ret)
    | ModeOff
    | CountFails(ret: Ret)
    | Enabled(slots: seq<Slot>, gpmThere: bool, support: Ret, supported: bool, answers: int -> Sampling)

  /** The extras gathered so far and the retention keys seen. */
  datatype Extras = Extras(store: Store, all: seq<Instance>, seen: set<string>, more: bool)

  function Fail(e: Extras, ret: Ret): Extras {
    var r := Failed(e.store, ret);
    e.(store := r.store, more := r.more)
  }

  function KeysOf(parent: string, gis: seq<int>): set<string> {
    set gi | gi in gis :: GiKey(parent, Decimal(gi))
  }

  function Utilize(e: Extras, parent: string, mig: Mig): Extras
    requires mig.Enabled?
  {
    if IsLifecycle(mig.support) then Fail(e, mig.support)
    else if !mig.support.Success? || !mig.supported then e
    else
      var found := WalkSlots(parent, mig.slots).found;
      var pass := SampleGroups(e.store, parent, found, Gis(found), mig.answers);
      if !pass.more then e.(store := pass.store, more := false)
      else e.(store := pass.store, all := Stamp(e.all, parent, pass.utils))
  }

  /** collectMIG. */
  function CollectMig(e: Extras, parent: string, mig: Mig): Extras {
    match mig
    case ModeFails(ret) => if ret.NotSupported? then e else Fail(e, ret)
    case ModeOff => e
    case CountFails(ret) => Fail(e, ret)
    case Enabled(slots, gpmThere, _, _, _) =>
      var walk := WalkSlots(parent, slots);
      var grown := e.(all := e.all + walk.found);
      if walk.lost then grown.(store := TearDown(e.store), more := false)
      else if walk.found == [] then grown
      else
        var marked := grown.(seen := e.seen + KeysOf(parent, Gis(walk.found)));
        if !gpmThere then marked.(more := false) else Utilize(marked, parent, mig)
  }

  datatype Pcie = Pcie(tx: Ret, interrupted: bool, rx: Ret)

  /** One GPU's answers to the extras pass; the families that are off are None. */
  datatype Gpu = Gpu(
    interrupted: bool, handle: Ret, uuidRet: Ret, uuid: string, energy: Option<Ret>, pcie: Option<Pcie>, mig: Option<Mig>)

  function Energy(e: Extras, ret: Ret): Extras {
    if ret.Success? || ret.NotSupported? then e else Fail(e, ret)
  }

  function PcieOf(e: Extras, p: Pcie): Extras {
    if !p.tx.Success? then Fail(e, p.tx)
    else if p.interrupted then e.(more := false)
    else if !p.rx.Success? then Fail(e, p.rx)
    else e
  }

  /** The energy and PCIe families of one GPU. */
  function BeforeMig(e: Extras, gpu: Gpu): Extras {
    var e1 := if gpu.energy.Some? then Energy(e, gpu.energy.value) else e;
    if e1.more && gpu.pcie.Some? then PcieOf(e1, gpu.pcie.value) else e1
  }

  /** collectDeviceExtras: a plain failure to reach the device skips it, a lifecycle-class one ends the pass. */
  function OneGpu(e: Extras, gpu: Gpu): Extras {
    if !gpu.handle.Success? then Fail(e, gpu.handle)
    else if !gpu.uuidRet.Success? then Fail(e, gpu.uuidRet)
    else
      var ready := BeforeMig(e, gpu);
      if ready.more && gpu.mig.Some? then CollectMig(ready, gpu.uuid, gpu.mig.value) else ready
  }

  function AllGpus(e: Extras, gpus: seq<Gpu>): Extras
    decreases |gpus|
  {
    if gpus == [] then e
    else
      var earlier, gpu := AllGpus(e, gpus[..|gpus| - 1]), gpus[|gpus| - 1];
      if !earlier.more then earlier
      else if gpu.interrupted then earlier.(more := false)
      else OneGpu(earlier, gpu)
  }

  /** One operation under the cycle mutex; `wins` says whether a teardown in it gets the exclusive lock in time. */
  datatype Op =
    | CycleOp(init: Ret, table: Ret, apps: Option<Ret>, cuda: Ret, wanted: bool, count: Ret, gpus: seq<Gpu>, mig: bool, wins: bool)
    | CloseOp(wins: bool)
    | RecoverOp(init: Ret, wins: bool)

  function Initialized(st: Store, ret: Ret): Store {
    if ret.Success? then st.(initialized := true, down := false) else st
  }

  /** A lifecycle-class return tears down; any other leaves the state alone. */
  function Soft(st: Store, ret: Ret): Store { Failed(st, ret).store }

  /** collectExtras. */
  function CollectExtras(st: Store, op: Op): Extras
    requires op.CycleOp?
  {
    var e := Extras(st, [], {}, true);
    if !st.initialized then e
    else if IsLifecycle(op.cuda) then e.(store := TearDown(st))
    else if !op.wanted then e
    else if !op.count.Success? then e.(store := Soft(st, op.count))
    else
      var pass := AllGpus(e, op.gpus);
      if pass.more && op.mig then pass.(store := FreeExcept(pass.store, pass.seen)) else pass
  }

  /** collectCycle: the extras run whatever the per-process query did. */
  function Cycle(st0: Store, op: Op): Extras
    requires op.CycleOp?
  {
    var st := st0.(wins := op.wins);
    var up := if st.initialized then st else Initialized(st, op.init);
    if !up.initialized then Extras(up, [], {}, false)
    else if !op.table.Success? then Extras(Soft(up, op.table), [], {}, false)
    else CollectExtras(if op.apps.Some? then Soft(up, op.apps.value) else up, op)
  }

  function Do(st: Store, op: Op): Store {
    match op
    case CycleOp(_, _, _, _, _, _, _, _, _) => Cycle(st, op).store
    case CloseOp(wins) => TearDown(st.(wins := wins))
    case RecoverOp(init, wins) => Initialized(TearDown(st.(wins := wins)), init)
  }

  /** Every run of operations, from the state the constructor leaves. */
  function Runs(ops: seq<Op>): Store
    decreases |ops|
  {
    if ops == [] then NEW else Do(Runs(ops[..|ops| - 1]), ops[|ops| - 1])
  }

  // ---------------------------------------------------------------- conservation

  ghost predicate Fine(e: Extras) {
    && Good(e.store)
    && (e.more ==> e.store.initialized)
    && (forall n :: 0 <= n < |e.all| && e.all[n].util.Some? ==>
          Sound(e.store, GiKey(e.all[n].parent, Decimal(e.all[n].gi)), e.all[n].util.value))
  }

  lemma FailFine(e: Extras, ret: Ret)
    requires Fine(e) && e.more
    ensures Fine(Fail(e, ret)) && Remembers(e.store, Fail(e, ret).store)
  {
    FailedBooks(e.store, ret);
    var after := Fail(e, ret);
    assert Remembers(e.store, after.store);
    forall n | 0 <= n < |e.all| && e.all[n].util.Some?
      ensures Sound(after.store, GiKey(e.all[n].parent, Decimal(e.all[n].gi)), e.all[n].util.value)
    {
      SoundStays(e.store, after.store, GiKey(e.all[n].parent, Decimal(e.all[n].gi)), e.all[n].util.value);
    }
  }

  /** After a pass over some groups every utilization it holds is sound for its own instance. */
  lemma {:induction false} GroupsSound(st: Store, parent: string, found: seq<Instance>, gis: seq<int>, answers: int -> Sampling)
    requires Good(st) && st.initialized
    ensures var pass := SampleGroups(st, parent, found, gis, answers);
            && Good(pass.store) && pass.store.initialized == pass.more && Remembers(st, pass.store)
            && (pass.more ==> forall gi :: gi in gis ==> gi in pass.utils)
            && (forall gi :: gi in pass.utils && pass.utils[gi].Some? ==>
                  && Sound(pass.store, GiKey(parent, Decimal(gi)), pass.utils[gi].value)
                  && pass.store.born[pass.utils[gi].value.cur].fingerprint == FingerprintOf(found, gi))
    decreases |gis|
  {
    if gis == [] {
    } else {
      var gi := gis[|gis| - 1];
      GroupsSound(st, parent, found, gis[..|gis| - 1], answers);
      var earlier := SampleGroups(st, parent, found, gis[..|gis| - 1], answers);
      if earlier.more {
        var key, fp := GiKey(parent, Decimal(gi)), FingerprintOf(found, gi);
        var r := Sample(earlier.store, key, fp, answers(gi));
        SampleBooks(earlier.store, key, fp, answers(gi));
        SampleRemembers(earlier.store, key, fp, answers(gi));
        if r.util.Some? {
          ServedIsSound(earlier.store, key, fp, answers(gi));
        }
        forall g | g in earlier.utils && earlier.utils[g].Some?
          ensures Sound(r.store, GiKey(parent, Decimal(g)), earlier.utils[g].value)
          ensures r.store.born[earlier.utils[g].value.cur].fingerprint == FingerprintOf(found, g)
        {
          SoundStays(earlier.store, r.store, GiKey(parent, Decimal(g)), earlier.utils[g].value);
        }
      }
    }
  }

  /** Appending fresh devices, which carry no utilization yet, changes nothing that is served. */
  lemma GrownFine(e: Extras, parent: string, slots: seq<Slot>)
    requires Fine(e)
    ensures Fine(e.(all := e.all + WalkSlots(parent, slots).found))
  {
    WalkBare(parent, slots);
  }

  lemma {:induction false} WalkBare(parent: string, slots: seq<Slot>)
    ensures forall n :: 0 <= n < |WalkSlots(parent, slots).found| ==>
              WalkSlots(parent, slots).found[n].util.None? && WalkSlots(parent, slots).found[n].parent == parent
    decreases |slots|
  {
    if slots != [] {
      WalkBare(parent, slots[..|slots| - 1]);
    }
  }

  lemma StoreFine(e: Extras, after: Store, more: bool)
    requires Fine(e) && Good(after) && Remembers(e.store, after) && (more ==> after.initialized)
    ensures Fine(e.(store := after, more := more))
  {
    forall n | 0 <= n < |e.all| && e.all[n].util.Some?
      ensures Sound(after, GiKey(e.all[n].parent, Decimal(e.all[n].gi)), e.all[n].util.value)
    {
      SoundStays(e.store, after, GiKey(e.all[n].parent, Decimal(e.all[n].gi)), e.all[n].util.value);
    }
  }

  lemma UtilizeFine(e: Extras, parent: string, mig: Mig)
    requires Fine(e) && e.more && mig.Enabled?
    ensures Fine(Utilize(e, parent, mig)) && Remembers(e.store, Utilize(e, parent, mig).store)
  {
    if IsLifecycle(mig.support) {
      FailFine(e, mig.support);
    } else if mig.support.Success? && mig.supported {
      var found := WalkSlots(parent, mig.slots).found;
      var pass := SampleGroups(e.store, parent, found, Gis(found), mig.answers);
      GroupsSound(e.store, parent, found, Gis(found), mig.answers);
      StoreFine(e, pass.store, pass.more);
    }
  }

  lemma TearDownFine(e: Extras)
    requires Fine(e)
    ensures Fine(e.(store := TearDown(e.store), more := false)) && Remembers(e.store, TearDown(e.store))
  {
    TearDownBooks(e.store, {});
    StoreFine(e, TearDown(e.store), false);
  }

  lemma CollectMigFine(e: Extras, parent: string, mig: Mig)
    requires Fine(e) && e.more
    ensures Fine(CollectMig(e, parent, mig))
  {
    match mig
    case ModeFails(ret) => FailFine(e, ret);
    case ModeOff =>
    case CountFails(ret) => FailFine(e, ret);
    case Enabled(slots, gpmThere, _, _, _) =>
      var walk := WalkSlots(parent, slots);
      var grown := e.(all := e.all + walk.found);
      GrownFine(e, parent, slots);
      if walk.lost {
        TearDownFine(grown);
      } else if walk.found != [] && gpmThere {
        UtilizeFine(grown.(seen := e.seen + KeysOf(parent, Gis(walk.found))), parent, mig);
      }
  }

  lemma EnergyFine(e: Extras, ret: Ret)
    requires Fine(e) && e.more
    ensures Fine(Energy(e, ret))
  {
    FailFine(e, ret);
  }

  lemma PcieFine(e: Extras, p: Pcie)
    requires Fine(e) && e.more
    ensures Fine(PcieOf(e, p))
  {
    if !p.tx.Success? {
      FailFine(e, p.tx);
    } else if !p.interrupted && !p.rx.Success? {
      FailFine(e, p.rx);
    }
  }

  lemma BeforeMigFine(e: Extras, gpu: Gpu)
    requires Fine(e) && e.more
    ensures Fine(BeforeMig(e, gpu))
  {
    if gpu.energy.Some? {
      EnergyFine(e, gpu.energy.value);
    }
    var e1 := if gpu.energy.Some? then Energy(e, gpu.energy.value) else e;
    if e1.more && gpu.pcie.Some? {
      PcieFine(e1, gpu.pcie.value);
    }
  }

  lemma OneGpuFine(e: Extras, gpu: Gpu)
    requires Fine(e) && e.more
    ensures Fine(OneGpu(e, gpu))
  {
    if !gpu.handle.Success? {
      FailFine(e, gpu.handle);
    } else if !gpu.uuidRet.Success? {
      FailFine(e, gpu.uuidRet);
    } else {
      BeforeMigFine(e, gpu);
      if BeforeMig(e, gpu).more && gpu.mig.Some? {
        CollectMigFine(BeforeMig(e, gpu), gpu.uuid, gpu.mig.value);
      }
    }
  }

  lemma {:induction false} AllGpusFine(e: Extras, gpus: seq<Gpu>)
    requires Fine(e) && e.more
    ensures Fine(AllGpus(e, gpus))
    decreases |gpus|
  {
    if gpus == [] {
    } else {
      AllGpusFine(e, gpus[..|gpus| - 1]);
      var earlier, gpu := AllGpus(e, gpus[..|gpus| - 1]), gpus[|gpus| - 1];
      if earlier.more && !gpu.interrupted {
        OneGpuFine(earlier, gpu);
      }
    }
  }

  /** Fine, without the claim about going on: the pass is over. */
  ghost predicate Ended(e: Extras) { Fine(e.(more := false)) }

  lemma PassEnded(st: Store, op: Op)
    requires Good(st) && op.CycleOp? && st.initialized
    ensures Ended(AllGpus(Extras(st, [], {}, true), op.gpus))
    ensures var pass := AllGpus(Extras(st, [], {}, true), op.gpus);
            Ended(pass.(store := FreeExcept(pass.store, pass.seen)))
  {
    AllGpusFine(Extras(st, [], {}, true), op.gpus);
    var pass := AllGpus(Extras(st, [], {}, true), op.gpus);
    FreeExceptBooks(pass.store, pass.seen);
    StoreFine(pass, FreeExcept(pass.store, pass.seen), false);
  }

  lemma SoftBooks(st: Store, ret: Ret)
    requires Good(st)
    ensures Good(Soft(st, ret)) && Good(TearDown(st))
  {
    TearDownBooks(st, {});
  }

  lemma CollectExtrasEnded(st: Store, op: Op)
    requires Good(st) && op.CycleOp?
    ensures Ended(CollectExtras(st, op))
  {
    if !st.initialized {
    } else if IsLifecycle(op.cuda) {
      SoftBooks(st, op.cuda);
    } else if !op.wanted {
    } else if !op.count.Success? {
      SoftBooks(st, op.count);
    } else {
      PassEnded(st, op);
    }
  }

  /** The store a cycle starts its collection with. */
  function Up(st: Store, op: Op): Store
    requires op.CycleOp?
  {
    if st.initialized then st.(wins := op.wins) else Initialized(st.(wins := op.wins), op.init)
  }

  lemma CycleEnded(st: Store, op: Op)
    requires Good(st) && op.CycleOp?
    ensures Ended(Cycle(st, op))
  {
    var up := Up(st, op);
    assert Good(up);
    if !up.initialized {
    } else if !op.table.Success? {
      SoftBooks(up, op.table);
    } else if op.apps.Some? {
      SoftBooks(up, op.apps.value);
      CollectExtrasEnded(Soft(up, op.apps.value), op);
    } else {
      CollectExtrasEnded(up, op);
    }
  }

  /** Whatever the driver answers, a cycle keeps the books and serves only sound utilizations. */
  lemma CycleServesSound(st: Store, op: Op)
    requires Good(st) && op.CycleOp?
    ensures Good(Cycle(st, op).store)
    ensures var e := Cycle(st, op);
            forall n :: 0 <= n < |e.all| && e.all[n].util.Some? ==>
              Sound(e.store, GiKey(e.all[n].parent, Decimal(e.all[n].gi)), e.all[n].util.value)
  {
    CycleEnded(st, op);
    assert Fine(Cycle(st, op).(more := false));
  }

  lemma DownIsGood(st: Store, wins: bool)
    requires Good(st)
    ensures Good(TearDown(st.(wins := wins)))
    ensures forall ret :: Good(Initialized(TearDown(st.(wins := wins)), ret))
  {
    var before := st.(wins := wins);
    assert Good(before);
    TearDownBooks(before, {});
    UpIsGood(TearDown(before));
  }

  lemma UpIsGood(st: Store)
    requires Good(st) && st.kept == map[]
    ensures forall ret :: Good(Initialized(st, ret))
  {
    assert Good(st.(initialized := true, down := false));
  }

  lemma OpKeepsGood(st: Store, op: Op)
    requires Good(st)
    ensures Good(Do(st, op))
  {
    if op.CycleOp? {
      CycleServesSound(st, op);
    } else {
      DownIsGood(st, op.wins);
    }
  }

  /**
   Over every run of cycles, closes and recoveries with every driver answer: after each operation each allocated
   sample is either retained or freed, exactly one of the two and freed once, and nothing is retained while the
   library is not initialized.
   */
  lemma {:induction false} RunsConserve(ops: seq<Op>)
    ensures Good(Runs(ops))
    ensures Runs(ops).allocs == |Runs(ops).freed| + |Runs(ops).kept| && Runs(ops).frees == |Runs(ops).freed|
    ensures !Runs(ops).initialized ==> Runs(ops).kept == map[]
    decreases |ops|
  {
    if ops == [] {
    } else {
      RunsConserve(ops[..|ops| - 1]);
      OpKeepsGood(Runs(ops[..|ops| - 1]), ops[|ops| - 1]);
    }
  }

  /**
   Over every run, the samples freed while the library was down are exactly the fresh samples of diffs that failed with
   the library and whose teardown got the lock in time.
   */
  lemma LateFreesAreOfLostDiffs(ops: seq<Op>, x: nat)
    ensures var st := Runs(ops);
            && (x in st.late <==> x in st.lost && st.lost[x])
            && (x in st.lost ==> x in st.freed && x in st.born)
  {
    RunsConserve(ops);
    assert LateFrees(Runs(ops));
  }

  // ---------------------------------------------------------------- orphans

  lemma {:induction false} GroupsTouchOwnKeys(
    st: Store, parent: string, found: seq<Instance>, gis: seq<int>, answers: int -> Sampling, k: string)
    requires SampleGroups(st, parent, found, gis, answers).more && k !in KeysOf(parent, gis)
    ensures var after := SampleGroups(st, parent, found, gis, answers).store;
            (k in after.kept <==> k in st.kept) && (k in st.kept ==> after.kept[k] == st.kept[k])
    decreases |gis|
  {
    if gis == [] {
    } else {
      var n := |gis| - 1;
      assert gis[n] in gis && GiKey(parent, Decimal(gis[n])) in KeysOf(parent, gis);
      assert forall g :: g in gis[..n] ==> g in gis;
      GroupsTouchOwnKeys(st, parent, found, gis[..n], answers, k);
      var earlier := SampleGroups(st, parent, found, gis[..n], answers);
      OthersUntouched(earlier.store, GiKey(parent, Decimal(gis[n])), FingerprintOf(found, gis[n]), answers(gis[n]), k);
    }
  }

  /** Sampling never drops what it did not see, unless the library is lost. */
  ghost predicate KeepsUnseen(e: Extras, after: Extras) {
    && e.seen <= after.seen
    && (after.store.initialized ==>
          forall k :: k in e.store.kept && k !in after.seen ==> k in after.store.kept && after.store.kept[k] == e.store.kept[k])
  }

  lemma CollectMigKeepsUnseen(e: Extras, parent: string, mig: Mig)
    requires Fine(e) && e.more
    ensures KeepsUnseen(e, CollectMig(e, parent, mig))
  {
    if mig.Enabled? {
      var found := WalkSlots(parent, mig.slots).found;
      var gis := Gis(found);
      var pass := SampleGroups(e.store, parent, found, gis, mig.answers);
      GroupsSound(e.store, parent, found, gis, mig.answers);
      if pass.more {
        forall k | k !in KeysOf(parent, gis) && k in e.store.kept
          ensures k in pass.store.kept && pass.store.kept[k] == e.store.kept[k]
        {
          GroupsTouchOwnKeys(e.store, parent, found, gis, mig.answers, k);
        }
      }
    }
  }

  lemma FailKeeps(e: Extras, ret: Ret)
    requires e.more
    ensures Fail(e, ret).seen == e.seen && (Fail(e, ret).store.initialized ==> Fail(e, ret).store.kept == e.store.kept)
    ensures Fail(e, ret).more ==> Fail(e, ret) == e
  {
  }

  lemma BeforeMigKeeps(e: Extras, gpu: Gpu)
    requires e.more
    ensures var r := BeforeMig(e, gpu);
            r.seen == e.seen && (r.store.initialized ==> r.store.kept == e.store.kept) && (r.more ==> r == e)
  {
    if gpu.energy.Some? {
      FailKeeps(e, gpu.energy.value);
    }
    if gpu.pcie.Some? {
      FailKeeps(e, gpu.pcie.value.tx);
      FailKeeps(e, gpu.pcie.value.rx);
    }
  }

  lemma OneGpuKeepsUnseen(e: Extras, gpu: Gpu)
    requires Fine(e) && e.more
    ensures KeepsUnseen(e, OneGpu(e, gpu))
  {
    FailKeeps(e, gpu.handle);
    FailKeeps(e, gpu.uuidRet);
    BeforeMigKeeps(e, gpu);
    if BeforeMig(e, gpu).more && gpu.mig.Some? {
      CollectMigKeepsUnseen(e, gpu.uuid, gpu.mig.value);
    }
  }

  lemma {:induction false} AllGpusKeepUnseen(e: Extras, gpus: seq<Gpu>)
    requires Fine(e) && e.more
    ensures KeepsUnseen(e, AllGpus(e, gpus))
    decreases |gpus|
  {
    if gpus == [] {
    } else {
      AllGpusFine(e, gpus[..|gpus| - 1]);
      AllGpusKeepUnseen(e, gpus[..|gpus| - 1]);
      var earlier, gpu := AllGpus(e, gpus[..|gpus| - 1]), gpus[|gpus| - 1];
      if earlier.more && !gpu.interrupted {
        OneGpuKeepsUnseen(earlier, gpu);
      }
    }
  }

  /**
   A pass that was cut short never mistakes an instance it did not reach for one that disappeared: as long as the
   library is there, only a complete pass with MIG on drops a retained sample of an instance it did not see.
   */
  lemma OnlyCompletePassesDropOrphans(st: Store, op: Op, k: string)
    requires Good(st) && op.CycleOp? && st.initialized && k in st.kept
    requires var e := CollectExtras(st, op); e.store.initialized && k !in e.seen && k !in e.store.kept
    ensures op.mig && AllGpus(Extras(st, [], {}, true), op.gpus).more
  {
    var e := Extras(st, [], {}, true);
    AllGpusKeepUnseen(e, op.gpus);
    var pass := AllGpus(e, op.gpus);
    FreeExceptKeeps(pass.store, pass.seen);
  }

  /** After a complete pass with MIG on, exactly instances it saw are retained. */
  lemma CompletePassesDropEveryOrphan(st: Store, op: Op)
    requires op.CycleOp? && st.initialized && op.wanted && op.mig && op.count.Success? && !IsLifecycle(op.cuda)
    requires AllGpus(Extras(st, [], {}, true), op.gpus).more
    ensures var e := CollectExtras(st, op); e.store.kept.Keys <= e.seen
  {
    var pass := AllGpus(Extras(st, [], {}, true), op.gpus);
    FreeExceptKeeps(pass.store, pass.seen);
  }

  /**
   Over every run: whatever utilization the next cycle serves was computed from two samples of that very GPU
   instance, of one generation, taken between one second and ten minutes apart, and its values are exactly the metrics
   measured between the two: percentages as ratios, MiB per second as bytes per second, and nothing for any other metric.
   */
  lemma EveryServedUtilizationIsSound(ops: seq<Op>, op: Op, n: nat) returns (parent: string, gi: int)
    requires op.CycleOp? && n < |Cycle(Runs(ops), op).all| && Cycle(Runs(ops), op).all[n].util.Some?
    ensures var e := Cycle(Runs(ops), op);
            var u := e.all[n].util.value;
            && parent == e.all[n].parent && gi == e.all[n].gi
            && u.prev in e.store.born && u.cur in e.store.born
            && e.store.born[u.prev].key == e.store.born[u.cur].key == GiKey(parent, Decimal(gi))
            && e.store.born[u.prev].fingerprint == e.store.born[u.cur].fingerprint
            && SECOND <= e.store.born[u.cur].taken - e.store.born[u.prev].taken <= 600 * SECOND
    ensures var e := Cycle(Runs(ops), op);
            var u := e.all[n].util.value;
            var metrics := e.store.born[u.cur].metrics;
            && |u.values| == |metrics|
            && forall i :: 0 <= i < |metrics| ==>
                 && (u.values[i].Some? <==> metrics[i].ret == Success && metrics[i].value.Some?)
                 && (u.values[i].Some? && i < 4 ==> 100.0 * u.values[i].value == metrics[i].value.value)
                 && (u.values[i].Some? && i >= 4 ==> u.values[i].value == 1048576.0 * metrics[i].value.value)
  {
    RunsConserve(ops);
    CycleServesSound(Runs(ops), op);
    parent, gi := Cycle(Runs(ops), op).all[n].parent, Cycle(Runs(ops), op).all[n].gi;
    var e := Cycle(Runs(ops), op);
    var u := e.all[n].util.value;
    assert Sound(e.store, GiKey(parent, Decimal(gi)), u);
    forall i | 0 <= i < |u.values|
      ensures MeasuredAt(i, u.values[i], e.store.born[u.cur].metrics[i])
    {
    }
  }

  // ---------------------------------------------------------------- stopping early

  lemma {:induction false} WalkStops(parent: string, slots: seq<Slot>, n: nat)
    requires n <= |slots| && WalkSlots(parent, slots[..n]).lost
    ensures WalkSlots(parent, slots) == WalkSlots(parent, slots[..n])
    decreases |slots|
  {
    if n == |slots| {
      assert slots[..n] == slots;
    } else {
      assert slots[..|slots| - 1][..n] == slots[..n];
      WalkStops(parent, slots[..|slots| - 1], n);
    }
  }

  lemma {:induction false} SamplingStops(
    st: Store, parent: string, found: seq<Instance>, gis: seq<int>, answers: int -> Sampling, n: nat)
    requires n <= |gis| && !SampleGroups(st, parent, found, gis[..n], answers).more
    ensures SampleGroups(st, parent, found, gis, answers) == SampleGroups(st, parent, found, gis[..n], answers)
    decreases |gis|
  {
    if n == |gis| {
      assert gis[..n] == gis;
    } else {
      assert gis[..|gis| - 1][..n] == gis[..n];
      SamplingStops(st, parent, found, gis[..|gis| - 1], answers, n);
    }
  }

  lemma {:induction false} GpusStop(e: Extras, gpus: seq<Gpu>, n: nat)
    requires n <= |gpus| && !AllGpus(e, gpus[..n]).more
    ensures AllGpus(e, gpus) == AllGpus(e, gpus[..n])
    decreases |gpus|
  {
    if n == |gpus| {
      assert gpus[..n] == gpus;
    } else {
      assert gpus[..|gpus| - 1][..n] == gpus[..n];
      GpusStop(e, gpus[..|gpus| - 1], n);
    }
  }
}
