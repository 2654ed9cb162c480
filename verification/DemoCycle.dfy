/**
 Whole demo cycles under the cycle mutex, any number of collections queueing for it, with invocations of the fake from
 inside and outside a cycle in between. A load's outcome is given: a validated snapshot, or nothing for a broken document.
 */
module DemoCycle {
  import opened Basics
  import opened Synth
  import opened XidSchedule
  import opened Demo
  import opened Attribution
  import opened DemoTable
  import opened Numerals
  import Csv

  /** A served invocation or overlay: the cycle it belongs to, and the configuration that answered it. */
  datatype Served = Served(cycle: nat, snapshot: Snapshot)

  /** `started` is the snapshot each cycle was started with. */
  datatype State = State(
    configured: bool, current: Snapshot, synth: Synthesized, running: Option<nat>, started: seq<Snapshot>, log: seq<Served>)

  /** Start-up: the first configuration, and a fresh synthesized state. */
  ghost predicate Init(s: State) {
    Usable(s.current) && s.synth == Fresh(s.current) && s.running.None? && s.started == [] && s.log == []
  }

  /** What an overlay makes of the synthesized state, as a value. */
  type Advance = (Synthesized, Sampled, Snapshot) -> Synthesized

  ghost function AdvanceOf(name: MigNamer): Advance {
    (y: Synthesized, c: Sampled, snap: Snapshot) => if Fair(y.ch) && Usable(snap) then OverlayOf(y, c, snap, name).after else y
  }

  /** An overlay stays with the random source of the last reset. */
  ghost predicate Steady(adv: Advance) { forall y, c, snap {:trigger adv(y, c, snap)} :: adv(y, c, snap).ch == y.ch }

  lemma AdvanceIs(y: Synthesized, c: Sampled, snap: Snapshot, name: MigNamer)
    requires Fair(y.ch) && Usable(snap)
    ensures AdvanceOf(name)(y, c, snap) == OverlayOf(y, c, snap, name).after
  {
  }

  lemma AdvanceIsSteady(name: MigNamer)
    ensures Steady(AdvanceOf(name))
  {
  }

  datatype Action =
    | Begin(load: Option<Snapshot>) // beginCycle under the cycle mutex, None where the document is broken
    | Invoke // an invocation of the fake by the running cycle
    | Outside // an invocation from outside any cycle
    | QueryFails
    | Overlay(samples: Sampled) // the extras, and the end of the cycle

  /** Whether an action can happen: one cycle at a time holds the mutex, and loaded documents are validated. */
  ghost predicate Enabled(s: State, a: Action) {
    match a
    case Begin(load) => s.running.None? && (load.Some? ==> Usable(load.value))
    case Outside => true
    case _ => s.running.Some?
  }

  /** Installing a loaded snapshot; a changed document resets the synthesized state first. */
  function Installed(s: State, snap: Snapshot): State {
    s.(current := snap, synth := if snap.hash != s.current.hash then Fresh(snap) else s.synth)
  }

  function Started(s: State): State { s.(running := Some(|s.started|), started := s.started + [s.current]) }

  function Answered(s: State): State
    requires s.running.Some?
  {
    s.(log := s.log + [Served(s.running.value, s.current)])
  }

  function Do(s: State, a: Action, adv: Advance): State
    requires a.Begin? || a.Outside? || s.running.Some?
  {
    match a
    case Begin(load) =>
      if !s.configured then Started(s)
      else if load.None? then s
      else Started(Installed(s, load.value))
    case Invoke => Answered(s)
    case Outside => s
    case QueryFails => s.(running := None)
    case Overlay(c) => Answered(s).(synth := adv(s.synth, c, s.current), running := None)
  }

  ghost predicate Inv(s: State) {
    && Usable(s.current) && Fair(s.synth.ch)
    && (s.running.Some? ==> s.started != [] && s.running.value == |s.started| - 1 && s.started[s.running.value] == s.current)
    && forall i :: 0 <= i < |s.log| ==> Faithful(s, s.log[i])
  }

  /** The answer used the snapshot its cycle was started with. */
  ghost predicate Faithful(s: State, served: Served) {
    served.cycle < |s.started| && served.snapshot == s.started[served.cycle]
  }

  lemma StepKeeps(s: State, a: Action, adv: Advance)
    requires Inv(s) && Enabled(s, a) && Steady(adv)
    ensures Inv(Do(s, a, adv))
  {
    var t := Do(s, a, adv);
    assert s.started <= t.started;
    forall i | 0 <= i < |t.log|
      ensures Faithful(t, t.log[i])
    {
      if i < |s.log| {
        assert t.log[i] == s.log[i] && Faithful(s, s.log[i]);
      }
    }
  }

  /** The state after a run of actions; one that is not enabled waits and does not happen. */
  ghost function After(s: State, actions: seq<Action>, adv: Advance): State
    decreases |actions|
  {
    if actions == [] then s
    else
      var mid, a := After(s, actions[..|actions| - 1], adv), actions[|actions| - 1];
      if Enabled(mid, a) then Do(mid, a, adv) else mid
  }

  lemma {:induction false} RunKeeps(s: State, actions: seq<Action>, adv: Advance)
    requires Inv(s) && Steady(adv)
    ensures Inv(After(s, actions, adv))
    decreases |actions|
  {
    if actions != [] {
      var front, a := actions[..|actions| - 1], actions[|actions| - 1];
      RunKeeps(s, front, adv);
      if Enabled(After(s, front, adv), a) {
        StepKeeps(After(s, front, adv), a, adv);
      }
    }
  }

  /**
   One configuration rules each cycle: over any run, every invocation and overlay of a cycle, finished or running, was
   answered by the snapshot the cycle was started with.
   */
  lemma OneConfigurationPerCycle(s: State, actions: seq<Action>, adv: Advance, i: nat)
    requires Init(s) && Steady(adv) && i < |After(s, actions, adv).log|
    ensures var t := After(s, actions, adv);
            t.log[i].cycle < |t.started| && t.log[i].snapshot == t.started[t.log[i].cycle]
  {
    RunKeeps(s, actions, adv);
    assert Faithful(After(s, actions, adv), After(s, actions, adv).log[i]);
  }

  lemma Longer(s: State, front: seq<Action>, a: Action, adv: Advance)
    ensures var mid := After(s, front, adv);
            After(s, front + [a], adv) == if Enabled(mid, a) then Do(mid, a, adv) else mid
  {
    assert (front + [a])[..|front|] == front;
  }

  // ---------------------------------------------------------------- what the synthesized state remembers

  /** One overlay: the samples, and the snapshot it worked from. */
  datatype Overlaying = Overlaying(samples: Sampled, snapshot: Snapshot)

  ghost predicate AllUsable(overlays: seq<Overlaying>) { forall i :: 0 <= i < |overlays| ==> Usable(overlays[i].snapshot) }

  /** The overlays of a run, in order. */
  ghost function Overlays(s: State, actions: seq<Action>, adv: Advance): seq<Overlaying>
    decreases |actions|
  {
    if actions == [] then []
    else
      var front, a := actions[..|actions| - 1], actions[|actions| - 1];
      var mid := After(s, front, adv);
      Overlays(s, front, adv) + OverlayIn(mid, a)
  }

  /** No start of a cycle in the run installs a changed document. */
  ghost predicate Unchanged(s: State, actions: seq<Action>, adv: Advance)
    decreases |actions|
  {
    actions == []
    || (var front, a := actions[..|actions| - 1], actions[|actions| - 1];
        var mid := After(s, front, adv);
        && Unchanged(s, front, adv)
        && (a.Begin? && Enabled(mid, a) && mid.configured && a.load.Some? ==> a.load.value.hash == mid.current.hash))
  }

  /** The synthesized state after a list of overlays, each from its own snapshot. */
  ghost function Replay(y: Synthesized, overlays: seq<Overlaying>, adv: Advance): Synthesized
    decreases |overlays|
  {
    if overlays == [] then y
    else
      var last := overlays[|overlays| - 1];
      adv(Replay(y, overlays[..|overlays| - 1], adv), last.samples, last.snapshot)
  }

  /** Every overlay of a run worked from a validated snapshot. */
  lemma {:induction false} OverlaysAreUsable(s: State, actions: seq<Action>, adv: Advance)
    requires Inv(s) && Steady(adv)
    ensures AllUsable(Overlays(s, actions, adv))
    decreases |actions|
  {
    if actions != [] {
      OverlaysAreUsable(s, actions[..|actions| - 1], adv);
      RunKeeps(s, actions[..|actions| - 1], adv);
    }
  }

  lemma ReplayGrows(y: Synthesized, overlays: seq<Overlaying>, o: Overlaying, adv: Advance)
    ensures Replay(y, overlays + [o], adv) == adv(Replay(y, overlays, adv), o.samples, o.snapshot)
  {
    assert (overlays + [o])[..|overlays|] == overlays;
  }

  /** While the document does not change, only overlays touch the synthesized state, and all of them do. */
  lemma {:induction false} OnlyOverlaysAdvance(s: State, actions: seq<Action>, adv: Advance)
    requires Unchanged(s, actions, adv)
    ensures After(s, actions, adv).synth == Replay(s.synth, Overlays(s, actions, adv), adv)
    decreases |actions|
  {
    if actions != [] {
      var front, a := actions[..|actions| - 1], actions[|actions| - 1];
      OnlyOverlaysAdvance(s, front, adv);
      OneMoreStep(s, After(s, front, adv), Overlays(s, front, adv), a, adv);
    }
  }

  /** What a step's overlay is, if it is one that happens. */
  ghost function OverlayIn(mid: State, a: Action): seq<Overlaying> {
    if a.Overlay? && Enabled(mid, a) then [Overlaying(a.samples, mid.current)] else []
  }

  lemma OneMoreStep(s: State, mid: State, overlays: seq<Overlaying>, a: Action, adv: Advance)
    requires mid.synth == Replay(s.synth, overlays, adv)
    requires a.Begin? && Enabled(mid, a) && mid.configured && a.load.Some? ==> a.load.value.hash == mid.current.hash
    ensures (if Enabled(mid, a) then Do(mid, a, adv) else mid).synth == Replay(s.synth, overlays + OverlayIn(mid, a), adv)
  {
    if a.Overlay? && Enabled(mid, a) {
      ReplayGrows(s.synth, overlays, Overlaying(a.samples, mid.current), adv);
    } else {
      assert overlays + [] == overlays;
    }
  }

  /**
   A changed document resets the synthesized state, and nothing else does: after any run, whatever came before the last
   change is forgotten, and whatever came after it is kept.
   */
  lemma StateSinceTheLastChange(s: State, before: seq<Action>, snap: Snapshot, later: seq<Action>, adv: Advance)
    requires s.configured && Usable(snap)
    requires var mid := After(s, before, adv); mid.running.None? && mid.configured && snap.hash != mid.current.hash
    requires Unchanged(After(s, before + [Begin(Some(snap))], adv), later, adv)
    ensures var changed := After(s, before + [Begin(Some(snap))], adv);
            After(changed, later, adv).synth == Replay(Fresh(snap), Overlays(changed, later, adv), adv)
  {
    Longer(s, before, Begin(Some(snap)), adv);
    OnlyOverlaysAdvance(After(s, before + [Begin(Some(snap))], adv), later, adv);
  }

  // ---------------------------------------------------------------- the parts of the synthesized state

  /** The synthesized state some overlays after a reset. */
  ghost function Since(snap: Snapshot, overlays: seq<Overlaying>, name: MigNamer): Synthesized {
    Replay(Fresh(snap), overlays, AdvanceOf(name))
  }

  lemma {:induction false} SinceIsFair(snap: Snapshot, overlays: seq<Overlaying>, name: MigNamer)
    ensures Since(snap, overlays, name).ch == snap.chance
    decreases |overlays|
  {
    if overlays != [] {
      SinceIsFair(snap, overlays[..|overlays| - 1], name);
      AdvanceIsSteady(name);
    }
  }

  lemma SinceStep(snap: Snapshot, overlays: seq<Overlaying>, name: MigNamer)
    requires Usable(snap) && AllUsable(overlays) && overlays != []
    ensures var n := |overlays| - 1; var o := overlays[n];
            && Fair(Since(snap, overlays[..n], name).ch)
            && Since(snap, overlays, name) == OverlayOf(Since(snap, overlays[..n], name), o.samples, o.snapshot, name).after
  {
    var n := |overlays| - 1;
    SinceIsFair(snap, overlays[..n], name);
    AdvanceIs(Since(snap, overlays[..n], name), overlays[n].samples, overlays[n].snapshot, name);
  }

  /** The parts of the state after one more overlay. */
  lemma SinceParts(snap: Snapshot, overlays: seq<Overlaying>, name: MigNamer)
    requires Usable(snap) && AllUsable(overlays) && overlays != []
    ensures var n := |overlays| - 1; var o, y, z := overlays[n], Since(snap, overlays[..n], name), Since(snap, overlays, name);
            && Fair(y.ch)
            && z.energy == EnergyCycle(y.energy, SampledFor(o.samples, o.snapshot))
            && z.seen == SetOf(KeyList(PlacedIn(o)))
            && z.emitter == TickOf(y.emitter, BeatOf(y, o, name), o.snapshot.xids, y.ch).emitter
  {
    var n := |overlays| - 1;
    var o, y := overlays[n], Since(snap, overlays[..n], name);
    SinceStep(snap, overlays, name);
    OverlayIs(y, o.samples, o.snapshot, name, MigPart(y, o.samples.uuids, o.snapshot, name));
  }

  function SamplesOf(overlays: seq<Overlaying>): (cycles: seq<Sampled>)
    ensures |cycles| == |overlays|
    ensures forall i :: 0 <= i < |cycles| ==>
              cycles[i] == overlays[i].samples.(fallback := overlays[i].snapshot.fallbackWatts)
  {
    seq(|overlays|, i requires 0 <= i < |overlays| => SampledFor(overlays[i].samples, overlays[i].snapshot))
  }

  lemma SamplesGrow(overlays: seq<Overlaying>)
    requires overlays != []
    ensures SamplesOf(overlays)[..|overlays| - 1] == SamplesOf(overlays[..|overlays| - 1])
  {
  }

  /** The energy meters are those of the sampled cycles since the reset. */
  lemma {:induction false} EnergySinceReset(snap: Snapshot, overlays: seq<Overlaying>, name: MigNamer)
    requires Usable(snap) && AllUsable(overlays)
    ensures Since(snap, overlays, name).energy == EnergyRun(SamplesOf(overlays))
    decreases |overlays|
  {
    if overlays != [] {
      EnergySinceReset(snap, overlays[..|overlays| - 1], name);
      SinceParts(snap, overlays, name);
      SamplesGrow(overlays);
    }
  }

  /** The instances of an overlay's topology, in order. */
  function PlacedIn(o: Overlaying): seq<Placed> { Topology(o.samples.uuids, o.snapshot.mig) }

  /** The instances of the previous cycle since the reset. */
  function PreviousIn(overlays: seq<Overlaying>): seq<Placed> {
    if overlays == [] then [] else PlacedIn(overlays[|overlays| - 1])
  }

  /** The remembered instances are those of the previous cycle. */
  lemma SeenSinceReset(snap: Snapshot, overlays: seq<Overlaying>, name: MigNamer)
    requires Usable(snap) && AllUsable(overlays)
    ensures Since(snap, overlays, name).seen == SetOf(KeyList(PreviousIn(overlays)))
  {
    if overlays == [] {
      assert KeyList(PreviousIn(overlays)) == [];
    } else {
      SinceParts(snap, overlays, name);
    }
  }

  /** The devices a cycle serves after some overlays since the reset. */
  ghost function DevicesAfter(snap: Snapshot, overlays: seq<Overlaying>, next: Overlaying, name: MigNamer): seq<Device>
    requires Usable(snap)
  {
    SinceIsFair(snap, overlays, name);
    MigPart(Since(snap, overlays, name), next.samples.uuids, next.snapshot, name).devices
  }

  /**
   A device has a utilization exactly when the previous cycle since the reset also had its GPU instance: a pair of
   samples, as on real hardware; an instance that left and came back starts over.
   */
  lemma UtilizationNeedsThePreviousCycle(
    snap: Snapshot, overlays: seq<Overlaying>, next: Overlaying, name: MigNamer, i: nat)
    requires Usable(snap) && AllUsable(overlays) && Distinct(next.samples.uuids) && Validated(next.snapshot.mig)
    requires i < |DevicesAfter(snap, overlays, next, name)|
    ensures |DevicesAfter(snap, overlays, next, name)| == |SlotsOf(PlacedIn(next))|
    ensures DevicesAfter(snap, overlays, next, name)[i].util.Some?
            <==> KeyOf(SlotsOf(PlacedIn(next))[i].placed) in KeyList(PreviousIn(overlays))
  {
    var y := Since(snap, overlays, name);
    SinceIsFair(snap, overlays, name);
    DevicesAreMirrored(y, next, name);
    SeenSinceReset(snap, overlays, name);
    UtilizationMirrors(DevicesAfter(snap, overlays, next, name), SlotsOf(PlacedIn(next)), y.seen, name, i, KeyList(PreviousIn(overlays)));
  }

  lemma DevicesAreMirrored(y: Synthesized, next: Overlaying, name: MigNamer)
    requires Fair(y.ch) && Distinct(next.samples.uuids) && Validated(next.snapshot.mig)
    ensures MirrorsAll(MigPart(y, next.samples.uuids, next.snapshot, name).devices, SlotsOf(PlacedIn(next)), y.seen, name)
  {
    var start := MigOut([], y.seen, y.emitter.rng + 2 * |next.samples.uuids|);
    ValidatedKeysAreOwn(next.samples.uuids, next.snapshot.mig);
    DevicesMirrorTheTopology(start, PlacedIn(next), StyleOf(next.snapshot, name), y.ch);
    MigPartIs(y, next.samples.uuids, next.snapshot, name, start, PlacerOf(StyleOf(next.snapshot, name), y.ch));
  }

  /** A device is a compute instance of a partition of a served GPU's entry. */
  ghost predicate IsInstance(d: Device, uuids: seq<string>, mig: seq<GpuTopology>, g: nat, k: nat, ci: nat) {
    && g < |mig| && 0 <= mig[g].gpu < |uuids| && k < |mig[g].instances| && ci < mig[g].instances[k].cis
    && d.parent == uuids[mig[g].gpu] && d.gi == mig[g].instances[k].gi && d.ci == ci
    && d.memory.total == mig[g].instances[k].total
  }

  /** Every configured compute instance of a served GPU is served. */
  lemma ConfiguredIsServed(y: Synthesized, next: Overlaying, name: MigNamer, g: nat, k: nat, ci: nat)
    requires Fair(y.ch) && Distinct(next.samples.uuids) && Validated(next.snapshot.mig)
    requires var mig := next.snapshot.mig;
             g < |mig| && 0 <= mig[g].gpu < |next.samples.uuids| && k < |mig[g].instances| && ci < mig[g].instances[k].cis
    ensures var devices := MigPart(y, next.samples.uuids, next.snapshot, name).devices;
            exists i :: 0 <= i < |devices| && IsInstance(devices[i], next.samples.uuids, next.snapshot.mig, g, k, ci)
  {
    var mig, devices := next.snapshot.mig, MigPart(y, next.samples.uuids, next.snapshot, name).devices;
    var p := Placed(next.samples.uuids[mig[g].gpu], mig[g].instances[k]);
    DevicesAreMirrored(y, next, name);
    assert Lists(mig[g], next.samples.uuids, p);
    PlacedIsListed(next.samples.uuids, mig, p);
    var n :| 0 <= n < |PlacedIn(next)| && PlacedIn(next)[n] == p;
    SlotIsThere(PlacedIn(next), n, ci);
    var i :| 0 <= i < |SlotsOf(PlacedIn(next))| && SlotsOf(PlacedIn(next))[i] == Slot(p, ci);
    assert Mirrors(devices[i], Slot(p, ci), y.seen, name);
    assert IsInstance(devices[i], next.samples.uuids, mig, g, k, ci);
  }

  /** And nothing else is. */
  lemma ServedIsConfigured(y: Synthesized, next: Overlaying, name: MigNamer, i: nat)
    requires Fair(y.ch) && Distinct(next.samples.uuids) && Validated(next.snapshot.mig)
    requires i < |MigPart(y, next.samples.uuids, next.snapshot, name).devices|
    ensures var d := MigPart(y, next.samples.uuids, next.snapshot, name).devices[i];
            exists g: nat, k: nat, ci: nat :: IsInstance(d, next.samples.uuids, next.snapshot.mig, g, k, ci)
  {
    var mig, d := next.snapshot.mig, MigPart(y, next.samples.uuids, next.snapshot, name).devices[i];
    DevicesAreMirrored(y, next, name);
    var slot := SlotsOf(PlacedIn(next))[i];
    SlotIsPlaced(PlacedIn(next), slot);
    PlacedIsListed(next.samples.uuids, mig, slot.placed);
    var g :| 0 <= g < |mig| && Lists(mig[g], next.samples.uuids, slot.placed);
    var k :| 0 <= k < |mig[g].instances| && mig[g].instances[k] == slot.placed.partition;
    assert Mirrors(d, slot, y.seen, name);
    assert IsInstance(d, next.samples.uuids, mig, g, k, slot.ci);
  }

  lemma UtilizationMirrors(devices: seq<Device>, slots: seq<Slot>, seen: set<string>, name: MigNamer, i: nat, previous: seq<string>)
    requires MirrorsAll(devices, slots, seen, name) && i < |devices| && seen == SetOf(previous)
    ensures devices[i].util.Some? <==> KeyOf(slots[i].placed) in previous
  {
    assert Mirrors(devices[i], slots[i], seen, name);
  }

  /** A cycle's tick, from where its other draws left the random source. */
  function BeatOf(y: Synthesized, o: Overlaying, name: MigNamer): Beat
    requires Fair(y.ch)
  {
    Beat(o.samples.uuids, o.samples.now, MigPart(y, o.samples.uuids, o.snapshot, name).rng)
  }

  ghost function BeatsOf(snap: Snapshot, overlays: seq<Overlaying>, name: MigNamer): (beats: seq<Beat>)
    requires Usable(snap)
    ensures |beats| == |overlays|
    decreases |overlays|
  {
    if overlays == [] then []
    else
      var front := overlays[..|overlays| - 1];
      SinceIsFair(snap, front, name);
      BeatsOf(snap, front, name) + [BeatOf(Since(snap, front, name), overlays[|overlays| - 1], name)]
  }

  /** The XID emitter is that of a run of ticks since the reset, while the documents' XID settings stay. */
  lemma {:induction false} XidsSinceReset(snap: Snapshot, overlays: seq<Overlaying>, cfg: XidConfig, name: MigNamer)
    requires Usable(snap) && AllUsable(overlays) && cfg.codes != []
    requires SameXids(overlays, cfg)
    ensures Since(snap, overlays, name).emitter == XidSchedule.Run(BeatsOf(snap, overlays, name), cfg, snap.chance)
    decreases |overlays|
  {
    if overlays != [] {
      var n := |overlays| - 1;
      XidsSinceReset(snap, overlays[..n], cfg, name);
      SinceIsFair(snap, overlays[..n], name);
      SinceParts(snap, overlays, name);
      RunGrows(BeatsOf(snap, overlays[..n], name), BeatOf(Since(snap, overlays[..n], name), overlays[n], name), cfg, snap.chance);
    }
  }

  lemma RunGrows(beats: seq<Beat>, b: Beat, cfg: XidConfig, ch: Chance)
    requires Fair(ch) && cfg.codes != []
    ensures XidSchedule.Run(beats + [b], cfg, ch) == TickOf(XidSchedule.Run(beats, cfg, ch), b, cfg, ch).emitter
  {
    assert (beats + [b])[..|beats|] == beats;
  }

  /** A process names this device. */
  predicate NamesDevice(p: Process, d: Device) { d.parent == p.app.uuid && p.gi == Decimal(d.gi) && p.ci == Decimal(d.ci) }

  /**
   The processes and the devices of one cycle fit together: a process of a GPU with devices names one of the devices
   the same cycle serves for that GPU, and any other process names none.
   */
  lemma ProcessesNameServedDevices(y: Synthesized, next: Overlaying, apps: seq<Process>, hash: PidHash, name: MigNamer, i: nat)
    requires Fair(y.ch) && Distinct(next.samples.uuids) && Validated(next.snapshot.mig) && i < |apps|
    ensures var devices := MigPart(y, next.samples.uuids, next.snapshot, name).devices;
            var p := Attributed(apps, SlotsOf(PlacedIn(next)), hash)[i];
            && p.app == apps[i].app
            && if exists k :: 0 <= k < |devices| && devices[k].parent == p.app.uuid
               then exists k :: 0 <= k < |devices| && NamesDevice(p, devices[k])
               else p == apps[i]
  {
    DevicesAreMirrored(y, next, name);
    AttributedToOwnGpu(apps, SlotsOf(PlacedIn(next)), hash, i);
    SlotsBecomeDevices(MigPart(y, next.samples.uuids, next.snapshot, name).devices, SlotsOf(PlacedIn(next)), y.seen, name,
                       Attributed(apps, SlotsOf(PlacedIn(next)), hash)[i]);
  }

  lemma SlotsBecomeDevices(devices: seq<Device>, slots: seq<Slot>, seen: set<string>, name: MigNamer, p: Process)
    requires MirrorsAll(devices, slots, seen, name)
    ensures (exists k :: 0 <= k < |devices| && devices[k].parent == p.app.uuid)
            <==> exists k :: 0 <= k < |slots| && slots[k].placed.parent == p.app.uuid
    ensures (exists k :: 0 <= k < |slots| && RunsOn(p, slots[k])) ==> exists k :: 0 <= k < |devices| && NamesDevice(p, devices[k])
  {
    forall k | 0 <= k < |slots|
      ensures devices[k].parent == slots[k].placed.parent && (RunsOn(p, slots[k]) ==> NamesDevice(p, devices[k]))
    {
      assert Mirrors(devices[k], slots[k], seen, name);
    }
  }

  // ---------------------------------------------------------------- since the last change, over whole runs

  /** After `before`, a cycle start installs `snap`, a changed document, and no later one of the run does. */
  ghost predicate LastChange(s: State, before: seq<Action>, snap: Snapshot, later: seq<Action>, adv: Advance) {
    && Usable(snap)
    && (var mid := After(s, before, adv); mid.running.None? && mid.configured && snap.hash != mid.current.hash)
    && Unchanged(Changed(s, before, snap, adv), later, adv)
  }

  ghost function Changed(s: State, before: seq<Action>, snap: Snapshot, adv: Advance): State {
    After(s, before + [Begin(Some(snap))], adv)
  }

  lemma StartsWell(s: State)
    requires Init(s)
    ensures Inv(s)
  {
  }

  /** The state of a run is the one its overlays since the last change make of a fresh one. */
  lemma SinceOverRuns(s: State, before: seq<Action>, snap: Snapshot, later: seq<Action>, name: MigNamer)
    requires Init(s) && s.configured && LastChange(s, before, snap, later, AdvanceOf(name))
    ensures var adv := AdvanceOf(name);
            var changed := Changed(s, before, snap, adv);
            && changed.current == snap
            && AllUsable(Overlays(changed, later, adv))
            && After(changed, later, adv).synth == Since(snap, Overlays(changed, later, adv), name)
  {
    var adv := AdvanceOf(name);
    AdvanceIsSteady(name);
    StartsWell(s);
    RunKeeps(s, before + [Begin(Some(snap))], adv);
    OverlaysAreUsable(Changed(s, before, snap, adv), later, adv);
    Longer(s, before, Begin(Some(snap)), adv);
    StateSinceTheLastChange(s, before, snap, later, adv);
  }

  /** In any run, the energy meters are those of the cycles sampled since the last change of the document. */
  lemma EnergyOverRuns(s: State, before: seq<Action>, snap: Snapshot, later: seq<Action>, name: MigNamer)
    requires Init(s) && s.configured && LastChange(s, before, snap, later, AdvanceOf(name))
    ensures var adv := AdvanceOf(name);
            var changed := Changed(s, before, snap, adv);
            After(changed, later, adv).synth.energy == EnergyRun(SamplesOf(Overlays(changed, later, adv)))
  {
    SinceOverRuns(s, before, snap, later, name);
    EnergySinceReset(snap, Overlays(Changed(s, before, snap, AdvanceOf(name)), later, AdvanceOf(name)), name);
  }

  /** The devices the running cycle is about to serve. */
  ghost function DevicesOf(t: State, uuids: seq<string>, name: MigNamer): seq<Device> {
    if Fair(t.synth.ch) then MigPart(t.synth, uuids, t.current, name).devices else []
  }

  /**
   In any run, the device of a slot has a utilization exactly when the overlay before, if it came after the last change
   of the document, had its GPU instance too.
   */
  lemma UtilizationOverRuns(
    s: State, before: seq<Action>, snap: Snapshot, later: seq<Action>, uuids: seq<string>, name: MigNamer, i: nat)
    requires Init(s) && s.configured && LastChange(s, before, snap, later, AdvanceOf(name)) && Distinct(uuids)
    requires var t := After(Changed(s, before, snap, AdvanceOf(name)), later, AdvanceOf(name));
             Validated(t.current.mig) && i < |SlotsOf(Topology(uuids, t.current.mig))|
    ensures var adv := AdvanceOf(name);
            var changed := Changed(s, before, snap, adv);
            var t := After(changed, later, adv);
            var slots, devices := SlotsOf(Topology(uuids, t.current.mig)), DevicesOf(t, uuids, name);
            && |devices| == |slots|
            && (devices[i].util.Some? <==> KeyOf(slots[i].placed) in KeyList(PreviousIn(Overlays(changed, later, adv))))
  {
    var adv := AdvanceOf(name);
    var changed := Changed(s, before, snap, adv);
    var t, overlays := After(changed, later, adv), Overlays(changed, later, adv);
    SinceOverRuns(s, before, snap, later, name);
    SinceIsFair(snap, overlays, name);
    var next := Overlaying(Sampled(uuids, map[], 0.0, 0), t.current);
    DevicesAreMirrored(t.synth, next, name);
    UtilizationNeedsThePreviousCycle(snap, overlays, next, name, i);
  }

  /** Documents of one hash are one document, as far as the XID settings go. */
  ghost predicate HashTellsXids(actions: seq<Action>, snap: Snapshot) {
    forall i :: 0 <= i < |actions| && actions[i].Begin? && actions[i].load.Some? && actions[i].load.value.hash == snap.hash ==>
      actions[i].load.value.xids == snap.xids
  }

  ghost predicate SameXids(overlays: seq<Overlaying>, cfg: XidConfig) {
    forall i :: 0 <= i < |overlays| ==> overlays[i].snapshot.xids == cfg
  }

  /** While no document of another hash is installed, every overlay works with the same XID settings. */
  lemma {:induction false} SettingsStay(changed: State, later: seq<Action>, snap: Snapshot, adv: Advance)
    requires changed.current == snap && Unchanged(changed, later, adv) && HashTellsXids(later, snap)
    ensures var t := After(changed, later, adv); t.current.hash == snap.hash && t.current.xids == snap.xids
    ensures SameXids(Overlays(changed, later, adv), snap.xids)
    decreases |later|
  {
    if later != [] {
      var front, a := later[..|later| - 1], later[|later| - 1];
      var mid := After(changed, front, adv);
      SettingsStay(changed, front, snap, adv);
      assert a.Begin? && Enabled(mid, a) && mid.configured && a.load.Some? ==> a.load.value.xids == snap.xids;
      assert SameXids(Overlays(changed, front, adv) + OverlayIn(mid, a), snap.xids);
    }
  }

  /** In any run, the XID emitter is that of the ticks since the last change of the document. */
  lemma XidsOverRuns(s: State, before: seq<Action>, snap: Snapshot, later: seq<Action>, name: MigNamer)
    requires Init(s) && s.configured && LastChange(s, before, snap, later, AdvanceOf(name)) && HashTellsXids(later, snap)
    ensures var adv := AdvanceOf(name);
            var changed := Changed(s, before, snap, adv);
            After(changed, later, adv).synth.emitter
            == XidSchedule.Run(BeatsOf(snap, Overlays(changed, later, adv), name), snap.xids, snap.chance)
  {
    var adv := AdvanceOf(name);
    var changed := Changed(s, before, snap, adv);
    SinceOverRuns(s, before, snap, later, name);
    SettingsStay(changed, later, snap, adv);
    XidsSinceReset(snap, Overlays(changed, later, adv), snap.xids, name);
  }

  // ---------------------------------------------------------------- the backend does what the machine says

  /** The backend object stands where the machine does. */
  ghost predicate Agrees(b: Backend, s: State)
    reads b
  {
    b.configured == s.configured && b.current == s.current && b.View() == s.synth
  }

  /** Starting a cycle on the backend is the machine's step. */
  method BeginOn(b: Backend, load: Option<Snapshot>, ghost s: State) returns (ok: bool, ghost t: State)
    requires Agrees(b, s) && s.running.None?
    modifies b
    ensures t == Do(s, Begin(load), AdvanceOf(b.name)) && Agrees(b, t) && (ok <==> t.running.Some?)
  {
    ok := b.BeginCycle(load);
    t := Do(s, Begin(load), AdvanceOf(b.name));
  }

  /** What the backend's overlay leaves and serves, part by part, is the overlay. */
  lemma OverlayTaken(y: Synthesized, c: Sampled, snap: Snapshot, name: MigNamer, mig: MigOut, start: MigOut, place: Placer, o: Overlaid)
    requires Fair(y.ch) && Usable(snap) && place == PlacerOf(StyleOf(snap, name), y.ch)
    requires start == MigOut([], y.seen, y.emitter.rng + 2 * |c.uuids|)
    requires mig == PlaceAll(start, Topology(c.uuids, snap.mig), place)
    requires o.after.energy == EnergyCycle(y.energy, SampledFor(c, snap)) && o.after.ch == y.ch
    requires o.after.seen == SetOf(KeyList(Topology(c.uuids, snap.mig)))
    requires o.after.emitter == Tick(y.emitter.(rng := mig.rng), c.uuids, snap.xids, c.now, y.ch).emitter
    requires o.counters == Counters(y.energy, SampledFor(c, snap), |c.uuids|)
    requires o.pcie == Throughputs(c.uuids, snap.rates, y.emitter.rng, y.ch)
    requires o.devices == mig.devices && o.drawn == mig.rng
    ensures o == OverlayOf(y, c, snap, name) && o.after == AdvanceOf(name)(y, c, snap)
  {
    MigPartIs(y, c.uuids, snap, name, start, place);
    OverlayIs(y, c, snap, name, mig);
    AdvanceIs(y, c, snap, name);
  }

  /** What an overlay reads: the cycle's table, what a private query for the power draws answers, the processes, the clock. */
  datatype Reading = Reading(table: Option<Csv.Table>, answer: Option<string>, apps: seq<Process>, now: int)

  function SampledIn(r: Reading): Sampled { SamplesIn(r.table, r.answer, r.now) }

  /** The processes of a reading, each on its compute instance. */
  function AppsIn(r: Reading, mig: seq<GpuTopology>, hash: PidHash): seq<Process> {
    Attributed(r.apps, SlotsOf(Topology(SampledIn(r).uuids, mig)), hash)
  }

  /** The backend's overlay, as a whole. */
  method TakeOverlay(b: Backend, r: Reading, ghost y: Synthesized, ghost snap: Snapshot)
    returns (counters: seq<EnergyCounter>, pcie: seq<Throughput>, devices: seq<Device>, own: seq<Process>, ghost drawn: nat)
    requires Fair(y.ch) && Usable(snap) && b.View() == y && b.current == snap
    modifies b
    ensures b.current == snap && Overlaid(b.View(), counters, pcie, devices, drawn) == OverlayOf(y, SampledIn(r), snap, b.name)
    ensures b.View() == AdvanceOf(b.name)(y, SampledIn(r), snap)
    ensures own == AppsIn(r, snap.mig, b.hash)
  {
    var c := ReadSamples(r.table, r.answer, r.now);
    ghost var start, place := MigOut([], y.seen, y.emitter.rng + 2 * |c.uuids|), PlacerOf(StyleOf(snap, b.name), y.ch);
    counters, pcie, devices, own, drawn := b.Overlay(c, r.apps, start, place);
    OverlayTaken(y, c, snap, b.name, PlaceAll(start, Topology(c.uuids, snap.mig), place), start, place,
                 Overlaid(b.View(), counters, pcie, devices, drawn));
  }

  lemma OverlayDoes(s: State, c: Sampled, adv: Advance)
    requires s.running.Some?
    ensures var t := Do(s, Overlay(c), adv);
            t.configured == s.configured && t.current == s.current && t.synth == adv(s.synth, c, s.current)
  {
  }

  /** And so is its overlay. */
  method OverlayOn(b: Backend, r: Reading, ghost s: State, ghost adv: Advance)
    returns (counters: seq<EnergyCounter>, pcie: seq<Throughput>, devices: seq<Device>, own: seq<Process>, ghost t: State)
    requires Inv(s) && Agrees(b, s) && s.running.Some? && adv == AdvanceOf(b.name)
    modifies b
    ensures t == Do(s, Overlay(SampledIn(r)), adv) && Agrees(b, t)
    ensures own == AppsIn(r, s.current.mig, b.hash)
  {
    ghost var drawn;
    counters, pcie, devices, own, drawn := TakeOverlay(b, r, s.synth, s.current);
    t := Do(s, Overlay(SampledIn(r)), adv);
    OverlayDoes(s, SampledIn(r), adv);
  }
}
