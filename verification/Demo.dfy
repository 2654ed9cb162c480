/** The demo backend as the object it is: its state replaced or advanced in place each cycle. */
module Demo {
  import opened Basics
  import opened Synth
  import opened XidSchedule
  import opened Attribution

  /** One cycle's immutable configuration, with the hash of its document and the random source its seed gives. */
  datatype Snapshot = Snapshot(
    hash: nat, xids: XidConfig, mig: seq<GpuTopology>, rates: Rates, fallbackWatts: real, chance: Chance)

  /** What a document's validation leaves: codes to draw from, and a random source. */
  ghost predicate Usable(snap: Snapshot) { Fair(snap.chance) && snap.xids.codes != [] }

  // ---------------------------------------------------------------- the MIG devices of a cycle

  /** The devices synthesized so far, the instances seen and the draws made. */
  datatype MigOut = MigOut(devices: seq<Device>, seen: set<string>, rng: nat)

  /** A stable uuid for a parent, instance ids and profile; a hash, so a parameter. */
  type MigNamer = (string, nat, nat, string) -> string

  /** How MIG devices are named and how fast a whole GPU moves data. */
  datatype Style = Style(name: MigNamer, rates: Rates)

  /** ciProfile. */
  function CiProfile(p: Partition): string { if p.cis <= 1 then p.profile else "1c." + p.profile }

  function DeviceOf(p: Placed, ci: nat, memory: Memory, util: Option<seq<real>>, name: MigNamer): Device {
    Device(p.parent, name(p.parent, p.partition.gi, ci, p.partition.profile), p.partition.gi, ci, CiProfile(p.partition), memory, util)
  }

  function Siblings(p: Placed, memory: Memory, util: Option<seq<real>>, name: MigNamer): (s: seq<Device>)
    ensures |s| == p.partition.cis
  {
    seq(p.partition.cis, ci requires 0 <= ci < p.partition.cis => DeviceOf(p, ci, memory, util, name))
  }

  /** One GPU instance: its memory, its utilization if it was seen before, and its compute instances, which share both. */
  function PlaceOne(o: MigOut, p: Placed, style: Style, ch: Chance): MigOut
    requires Fair(ch)
  {
    var memory := MemoryOf(p.partition, ch.unit(o.rng));
    var util := if KeyOf(p) in o.seen then Some(UtilOf(p.partition, style.rates, o.rng + 1, ch)) else None;
    MigOut(o.devices + Siblings(p, memory, util, style.name), o.seen + {KeyOf(p)}, o.rng + 1 + if util.Some? then 6 else 0)
  }

  /** The placing of one GPU instance, as a value. */
  type Placer = (MigOut, Placed) -> MigOut

  function PlacerOf(style: Style, ch: Chance): Placer
    requires Fair(ch)
  {
    (o, p) => PlaceOne(o, p, style, ch)
  }

  function PlaceAll(o: MigOut, placed: seq<Placed>, place: Placer): MigOut
    decreases |placed|
  {
    if placed == [] then o else place(PlaceAll(o, placed[..|placed| - 1], place), placed[|placed| - 1])
  }

  lemma PlaceAllStep(o: MigOut, placed: seq<Placed>, n: nat, place: Placer)
    requires n < |placed|
    ensures PlaceAll(o, placed[..n + 1], place) == place(PlaceAll(o, placed[..n], place), placed[n])
  {
    assert placed[..n + 1][..n] == placed[..n];
  }

  lemma PlacerIs(o: MigOut, p: Placed, style: Style, ch: Chance)
    requires Fair(ch)
    ensures PlacerOf(style, ch)(o, p) == PlaceOne(o, p, style, ch)
  {
  }

  ghost predicate Sees(place: Placer) { forall o, p :: place(o, p).seen == o.seen + {KeyOf(p)} }

  lemma PlacersSee(style: Style, ch: Chance)
    requires Fair(ch)
    ensures Sees(PlacerOf(style, ch))
  {
  }

  lemma {:induction false} PlacingSees(o: MigOut, placed: seq<Placed>, place: Placer)
    requires Sees(place)
    ensures PlaceAll(o, placed, place).seen == o.seen + SetOf(KeyList(placed))
    decreases |placed|
  {
    if placed == [] {
      assert KeyList(placed) == [];
    } else {
      var n := |placed| - 1;
      var front, p := placed[..n], placed[n];
      var before := PlaceAll(o, front, place);
      PlacingSees(o, front, place);
      assert front + [p] == placed;
      KeyListGrows(front, p);
      OneMoreSeen(o.seen, SetOf(KeyList(front)), KeyOf(p), before.seen, place(before, p).seen);
    }
  }

  lemma OneMoreSeen(seen: set<string>, keys: set<string>, key: string, before: set<string>, after: set<string>)
    requires before == seen + keys && after == before + {key}
    ensures after == seen + (keys + {key})
  {
  }

  lemma KeyListGrows(front: seq<Placed>, p: Placed)
    ensures SetOf(KeyList(front + [p])) == SetOf(KeyList(front)) + {KeyOf(p)}
  {
    assert KeyList(front + [p]) == KeyList(front) + [KeyOf(p)];
  }

  /** A device is the one its slot stands for, and has a utilization exactly if its instance was seen before. */
  ghost predicate Mirrors(d: Device, s: Slot, seen: set<string>, name: MigNamer) {
    && d.parent == s.placed.parent && d.gi == s.placed.partition.gi && d.ci == s.ci
    && d.uuid == name(d.parent, d.gi, d.ci, s.placed.partition.profile) 
    && d.profile == (if s.placed.partition.cis <= 1 then s.placed.partition.profile else "1c." + s.placed.partition.profile)
    && (d.util.Some? <==> KeyOf(s.placed) in seen)
    && d.memory.used + d.memory.free + d.memory.reserved == d.memory.total == s.placed.partition.total
  }

  ghost predicate MirrorsAll(devices: seq<Device>, slots: seq<Slot>, seen: set<string>, name: MigNamer) {
    |devices| == |slots| && forall i :: 0 <= i < |devices| ==> Mirrors(devices[i], slots[i], seen, name)
  }

  /** Devices of one GPU instance report the same memory and the same utilization. */
  ghost predicate SiblingsAgree(devices: seq<Device>, slots: seq<Slot>) {
    |devices| == |slots|
    && forall i, j :: 0 <= i < |devices| && 0 <= j < |devices| && KeyOf(slots[i].placed) == KeyOf(slots[j].placed) ==>
         devices[i].memory == devices[j].memory && devices[i].util == devices[j].util
  }

  lemma SiblingsMirror(o: MigOut, p: Placed, style: Style, ch: Chance, seen: set<string>)
    requires Fair(ch) && (KeyOf(p) in o.seen <==> KeyOf(p) in seen)
    ensures exists added ::
              && PlaceOne(o, p, style, ch).devices == o.devices + added
              && MirrorsAll(added, SlotsOn(p), seen, style.name) && SiblingsAgree(added, SlotsOn(p))
  {
    var memory := MemoryOf(p.partition, ch.unit(o.rng));
    var util := if KeyOf(p) in o.seen then Some(UtilOf(p.partition, style.rates, o.rng + 1, ch)) else None;
    SiblingsAreAlike(p, memory, util, style.name, seen);
    var added := Siblings(p, memory, util, style.name);
    assert PlaceOne(o, p, style, ch).devices == o.devices + added;
  }

  lemma SiblingsAreAlike(p: Placed, memory: Memory, util: Option<seq<real>>, name: MigNamer, seen: set<string>)
    requires memory.used + memory.free + memory.reserved == memory.total == p.partition.total
    requires util.Some? <==> KeyOf(p) in seen
    ensures MirrorsAll(Siblings(p, memory, util, name), SlotsOn(p), seen, name)
    ensures SiblingsAgree(Siblings(p, memory, util, name), SlotsOn(p))
  {
  }

  lemma MirrorsJoin(a: seq<Device>, b: seq<Device>, r: seq<Slot>, s: seq<Slot>, seen: set<string>, name: MigNamer)
    requires MirrorsAll(a, r, seen, name) && MirrorsAll(b, s, seen, name)
    ensures MirrorsAll(a + b, r + s, seen, name)
  {
    forall i | 0 <= i < |a + b|
      ensures Mirrors((a + b)[i], (r + s)[i], seen, name)
    {
      if i < |a| {
        assert Mirrors(a[i], r[i], seen, name);
      } else {
        assert Mirrors(b[i - |a|], s[i - |a|], seen, name);
      }
    }
  }

  lemma {:induction false} SlotsAreOf(placed: seq<Placed>, i: nat)
    requires i < |SlotsOf(placed)|
    ensures KeyOf(SlotsOf(placed)[i].placed) in SetOf(KeyList(placed))
    decreases |placed|
  {
    var front, p := placed[..|placed| - 1], placed[|placed| - 1];
    KeyListGrows(front, p);
    LastApart(placed);
    if i < |SlotsOf(front)| {
      SlotsAreOf(front, i);
    }
  }

  /** Another instance's devices are no siblings of the earlier ones. */
  lemma SiblingsJoin(a: seq<Device>, b: seq<Device>, front: seq<Placed>, p: Placed)
    requires SiblingsAgree(a, SlotsOf(front)) && SiblingsAgree(b, SlotsOn(p)) && KeyOf(p) !in SetOf(KeyList(front))
    ensures SiblingsAgree(a + b, SlotsOf(front) + SlotsOn(p))
  {
    var slots := SlotsOf(front) + SlotsOn(p);
    forall i | 0 <= i < |slots|
      ensures KeyOf(slots[i].placed) == KeyOf(p) <==> i >= |a|
    {
      if i < |a| {
        SlotsAreOf(front, i);
      }
    }
  }

  /** The readings of a device of partition `p`: its memory split as configured, its activity that of its kind. */
  ghost predicate ReadsAs(d: Device, p: Partition, rates: Rates) {
    && d.memory.total == p.total && d.memory.reserved == p.total / 200
    && d.memory.used + d.memory.free + d.memory.reserved == p.total
    && (var bytes := (p.total - p.total / 200) as real;
        if p.busy then 0.55 * bytes - 1.0 < d.memory.used as real <= 0.90 * bytes
        else 0.02 * bytes - 1.0 < d.memory.used as real <= 0.10 * bytes)
    && (d.util.Some? ==> RunsAs(p.busy, d.util.value, rates))
  }

  ghost predicate ReadAsConfigured(devices: seq<Device>, slots: seq<Slot>, rates: Rates) {
    |devices| == |slots| && forall i :: 0 <= i < |devices| ==> ReadsAs(devices[i], slots[i].placed.partition, rates)
  }

  lemma InstanceReads(o: MigOut, p: Placed, style: Style, ch: Chance)
    requires Fair(ch) && Sensible(style.rates)
    ensures exists added ::
              PlaceOne(o, p, style, ch).devices == o.devices + added && ReadAsConfigured(added, SlotsOn(p), style.rates)
  {
    var memory := MemoryOf(p.partition, ch.unit(o.rng));
    var util := if KeyOf(p) in o.seen then Some(UtilOf(p.partition, style.rates, o.rng + 1, ch)) else None;
    var added := Siblings(p, memory, util, style.name);
    UsedWithin(p.partition, ch.unit(o.rng));
    UtilizationIsPlausible(p.partition, style.rates, o.rng + 1, ch);
    assert ReadAsConfigured(added, SlotsOn(p), style.rates);
  }

  /** Every served device reads as its partition is configured, whatever was drawn. */
  lemma {:induction false} DevicesReadAsConfigured(o: MigOut, placed: seq<Placed>, style: Style, ch: Chance)
    requires Fair(ch) && Sensible(style.rates) && o.devices == []
    ensures ReadAsConfigured(PlaceAll(o, placed, PlacerOf(style, ch)).devices, SlotsOf(placed), style.rates)
    decreases |placed|
  {
    if placed != [] {
      var front, p := placed[..|placed| - 1], placed[|placed| - 1];
      LastApart(placed);
      DevicesReadAsConfigured(o, front, style, ch);
      var earlier := PlaceAll(o, front, PlacerOf(style, ch));
      LastPlaced(o, front, p, PlacerOf(style, ch));
      PlacerIs(earlier, p, style, ch);
      InstanceReads(earlier, p, style, ch);
      var added :| PlaceOne(earlier, p, style, ch).devices == earlier.devices + added
                   && ReadAsConfigured(added, SlotsOn(p), style.rates);
    }
  }

  lemma LastPlaced(o: MigOut, front: seq<Placed>, p: Placed, place: Placer)
    ensures PlaceAll(o, front + [p], place) == place(PlaceAll(o, front, place), p)
    ensures SlotsOf(front + [p]) == SlotsOf(front) + SlotsOn(p)
  {
    assert (front + [p])[..|front|] == front;
  }

  lemma OwnFront(front: seq<Placed>, p: Placed)
    requires OwnKeys(front + [p])
    ensures OwnKeys(front) && KeyOf(p) !in SetOf(KeyList(front))
  {
    var placed := front + [p];
    assert placed[|front|] == p && forall i :: 0 <= i < |front| ==> placed[i] == front[i];
  }

  lemma SeenOnlyBefore(o: MigOut, front: seq<Placed>, p: Placed, style: Style, ch: Chance)
    requires Fair(ch) && OwnKeys(front + [p])
    ensures KeyOf(p) in PlaceAll(o, front, PlacerOf(style, ch)).seen <==> KeyOf(p) in o.seen
  {
    PlacersSee(style, ch);
    PlacingSees(o, front, PlacerOf(style, ch));
    OwnFront(front, p);
  }

  lemma OneMoreMirrored(o: MigOut, front: seq<Placed>, p: Placed, style: Style, ch: Chance)
    requires Fair(ch) && OwnKeys(front + [p])
    requires MirrorsAll(PlaceAll(o, front, PlacerOf(style, ch)).devices, SlotsOf(front), o.seen, style.name)
    requires SiblingsAgree(PlaceAll(o, front, PlacerOf(style, ch)).devices, SlotsOf(front))
    ensures MirrorsAll(PlaceAll(o, front + [p], PlacerOf(style, ch)).devices, SlotsOf(front + [p]), o.seen, style.name)
    ensures SiblingsAgree(PlaceAll(o, front + [p], PlacerOf(style, ch)).devices, SlotsOf(front + [p]))
  {
    var place := PlacerOf(style, ch);
    var earlier := PlaceAll(o, front, place);
    LastPlaced(o, front, p, place);
    PlacerIs(earlier, p, style, ch);
    SeenOnlyBefore(o, front, p, style, ch);
    SiblingsMirror(earlier, p, style, ch, o.seen);
    var added :| PlaceOne(earlier, p, style, ch).devices == earlier.devices + added
                 && MirrorsAll(added, SlotsOn(p), o.seen, style.name) && SiblingsAgree(added, SlotsOn(p));
    MirrorsJoin(earlier.devices, added, SlotsOf(front), SlotsOn(p), o.seen, style.name);
    OwnFront(front, p);
    SiblingsJoin(earlier.devices, added, front, p);
  }

  lemma LastApart(placed: seq<Placed>)
    requires placed != []
    ensures placed == placed[..|placed| - 1] + [placed[|placed| - 1]]
  {
  }

  /**
   The synthesized devices are exactly the ones the topology stands for, in its order: one for each compute instance,
   named after its place, with a utilization exactly when its GPU instance was seen in an earlier cycle; and the compute
   instances of one GPU instance report the same memory and utilization.
   */
  lemma {:induction false} DevicesMirrorTheTopology(o: MigOut, placed: seq<Placed>, style: Style, ch: Chance)
    requires Fair(ch) && o.devices == [] && OwnKeys(placed)
    ensures MirrorsAll(PlaceAll(o, placed, PlacerOf(style, ch)).devices, SlotsOf(placed), o.seen, style.name)
    ensures SiblingsAgree(PlaceAll(o, placed, PlacerOf(style, ch)).devices, SlotsOf(placed))
    decreases |placed|
  {
    if placed != [] {
      var front, p := placed[..|placed| - 1], placed[|placed| - 1];
      LastApart(placed);
      OwnFront(front, p);
      DevicesMirrorTheTopology(o, front, style, ch);
      OneMoreMirrored(o, front, p, style, ch);
    }
  }

  /** The partitions whose GPU instance was seen in an earlier cycle, by position. */
  function SeenAt(placed: seq<Placed>, seen: set<string>): set<nat> { set i: nat | i < |placed| && KeyOf(placed[i]) in seen }

  lemma OneMoreSeenAt(front: seq<Placed>, p: Placed, seen: set<string>)
    ensures |SeenAt(front + [p], seen)| == |SeenAt(front, seen)| + if KeyOf(p) in seen then 1 else 0
  {
    var n: nat := |front|;
    var all := front + [p];
    assert n !in SeenAt(front, seen) && all[n] == p && forall i :: 0 <= i < n ==> all[i] == front[i];
    assert SeenAt(all, seen) == SeenAt(front, seen) + if KeyOf(p) in seen then {n} else {};
  }

  /** Every draw is accounted for: one for each instance's memory, and six for each one whose activity is served. */
  lemma {:induction false} DrawsAreCounted(o: MigOut, placed: seq<Placed>, style: Style, ch: Chance)
    requires Fair(ch) && OwnKeys(placed)
    ensures PlaceAll(o, placed, PlacerOf(style, ch)).rng == o.rng + |placed| + 6 * |SeenAt(placed, o.seen)|
    decreases |placed|
  {
    if placed == [] {
      assert SeenAt(placed, o.seen) == {};
    } else {
      var front, p := placed[..|placed| - 1], placed[|placed| - 1];
      var place := PlacerOf(style, ch);
      LastApart(placed);
      OwnFront(front, p);
      DrawsAreCounted(o, front, style, ch);
      LastPlaced(o, front, p, place);
      PlacerIs(PlaceAll(o, front, place), p, style, ch);
      SeenOnlyBefore(o, front, p, style, ch);
      OneMoreSeenAt(front, p, o.seen);
    }
  }

  lemma {:induction false} PlacedInTurn(o: MigOut, a: seq<Placed>, b: seq<Placed>, place: Placer)
    ensures PlaceAll(o, a + b, place) == PlaceAll(PlaceAll(o, a, place), b, place)
    decreases |b|
  {
    if b == [] {
      assert a + b == a;
    } else {
      var n := |b| - 1;
      assert (a + b)[..|a + b| - 1] == a + b[..n];
      PlacedInTurn(o, a, b[..n], place);
    }
  }

  /** The entries placed so far and the rest. */
  lemma TopologyGrows(uuids: seq<string>, mig: seq<GpuTopology>, g: nat)
    requires g < |mig|
    ensures Topology(uuids, mig[..g + 1]) == Topology(uuids, mig[..g])
            + if 0 <= mig[g].gpu < |uuids| then PlacedOn(uuids[mig[g].gpu], mig[g].instances) else []
  {
    assert mig[..g + 1][..g] == mig[..g];
  }

  /** One more entry: its partitions are placed behind the earlier ones, or it is skipped. */
  lemma TopologyStep(start: MigOut, uuids: seq<string>, mig: seq<GpuTopology>, g: nat, place: Placer)
    requires g < |mig|
    ensures var o := PlaceAll(start, Topology(uuids, mig[..g]), place);
            PlaceAll(start, Topology(uuids, mig[..g + 1]), place)
            == if 0 <= mig[g].gpu < |uuids| then PlaceAll(o, PlacedOn(uuids[mig[g].gpu], mig[g].instances), place) else o
  {
    TopologyGrows(uuids, mig, g);
    if 0 <= mig[g].gpu < |uuids| {
      PlacedInTurn(start, Topology(uuids, mig[..g]), PlacedOn(uuids[mig[g].gpu], mig[g].instances), place);
    } else {
      assert Topology(uuids, mig[..g]) + [] == Topology(uuids, mig[..g]);
    }
  }

  lemma InitialGrows(uuids: seq<string>, initial: seq<Initial>, n: nat, now: int)
    requires n < |initial|
    ensures var i := initial[n];
            InitialEvents(uuids, initial[..n + 1], now) == InitialEvents(uuids, initial[..n], now)
            + if 0 <= i.gpu < |uuids| && i.count != 0 then [Event(uuids[i.gpu], i.xid, i.count, now)] else []
  {
    assert initial[..n + 1][..n] == initial[..n];
  }

  lemma OneMoreBump(xids: Xids, events: seq<Event>, e: Event)
    ensures BumpedAll(xids, events + [e]) == Bumped(BumpedAll(xids, events), e)
  {
    assert (events + [e])[..|events|] == events;
  }

  /** One turn of the catch-up: the next slot if it lies in the past, nothing more otherwise. */
  function SlotStep(uuids: seq<string>, cfg: XidConfig, now: int, gap: Gap, ch: Chance): CatchUp -> CatchUp
    requires Fair(ch) && uuids != [] && cfg.codes != []
  {
    (c: CatchUp) => Turned(c, uuids, cfg.codes, gap, now, ch)
  }

  lemma EmitTurn(uuids: seq<string>, cfg: XidConfig, now: int, gap: Gap, ch: Chance, step: CatchUp -> CatchUp, c: CatchUp, e: Event)
    requires Fair(ch) && uuids != [] && cfg.codes != [] && step == SlotStep(uuids, cfg, now, gap, ch) && now > c.nextAt
    requires e == Event(uuids[ch.pick(c.rng, |uuids|)], cfg.codes[ch.pick(c.rng + 1, |cfg.codes|)], 1, c.nextAt)
    ensures step(c) == CatchUp(c.events + [e], c.nextAt + gap(c.rng + 2), c.rng + 3)
  {
    assert step(c) == Turned(c, uuids, cfg.codes, gap, now, ch);
  }

  function Turns(start: CatchUp, step: CatchUp -> CatchUp, n: nat): CatchUp {
    if n == 0 then start else step(Turns(start, step, n - 1))
  }

  lemma OneTurn(start: CatchUp, uuids: seq<string>, cfg: XidConfig, now: int, gap: Gap, ch: Chance, n: nat)
    requires Fair(ch) && uuids != [] && cfg.codes != [] && 0 < n <= BURST
    ensures CaughtUp(start, uuids, cfg.codes, gap, now, ch, n)
            == SlotStep(uuids, cfg, now, gap, ch)(CaughtUp(start, uuids, cfg.codes, gap, now, ch, n - 1))
  {
    var earlier := CaughtUp(start, uuids, cfg.codes, gap, now, ch, n - 1);
    assert CaughtUp(start, uuids, cfg.codes, gap, now, ch, n) == Turned(earlier, uuids, cfg.codes, gap, now, ch);
  }

  lemma {:induction false} TurnsCatchUp(start: CatchUp, uuids: seq<string>, cfg: XidConfig, now: int, gap: Gap, ch: Chance, n: nat)
    requires Fair(ch) && uuids != [] && cfg.codes != [] && n <= BURST
    ensures Turns(start, SlotStep(uuids, cfg, now, gap, ch), n) == CaughtUp(start, uuids, cfg.codes, gap, now, ch, n)
  {
    if n > 0 {
      TurnsCatchUp(start, uuids, cfg, now, gap, ch, n - 1);
      OneTurn(start, uuids, cfg, now, gap, ch, n);
    }
  }

  /** Once a turn changes nothing, no later one does. */
  lemma {:induction false} TurnsStop(start: CatchUp, step: CatchUp -> CatchUp, fired: nat, n: nat)
    requires fired <= n
    requires fired == n || step(Turns(start, step, fired)) == Turns(start, step, fired)
    ensures Turns(start, step, n) == Turns(start, step, fired)
    decreases n
  {
    if fired < n {
      if fired < n - 1 {
        TurnsStop(start, step, fired, n - 1);
      }
    }
  }

  // ---------------------------------------------------------------- a whole cycle

  /** Everything the demo keeps between cycles; the emitter's place in the random source is everyone's. */
  datatype Synthesized = Synthesized(energy: Meters, seen: set<string>, emitter: Emitter, ch: Chance)

  /** What a reset leaves: nothing kept, and the document's own random source from its start. */
  function Fresh(snap: Snapshot): Synthesized { Synthesized(map[], {}, RESET, snap.chance) }

  datatype Overlaid = Overlaid(
    after: Synthesized, counters: seq<EnergyCounter>, pcie: seq<Throughput>, devices: seq<Device>, drawn: nat)

  function StyleOf(snap: Snapshot, name: MigNamer): Style { Style(name, snap.rates) }

  /** The samples of a cycle: GPUs that report no power take the configured fallback. */
  function SampledFor(c: Sampled, snap: Snapshot): Sampled { c.(fallback := snap.fallbackWatts) }

  /** The MIG part of a cycle, behind two draws for each GPU's PCIe throughput. */
  function MigPart(y: Synthesized, uuids: seq<string>, snap: Snapshot, name: MigNamer): MigOut
    requires Fair(y.ch)
  {
    PlaceAll(MigOut([], y.seen, y.emitter.rng + 2 * |uuids|), Topology(uuids, snap.mig), PlacerOf(StyleOf(snap, name), y.ch))
  }

  /** overlay: energy, PCIe, MIG and XIDs of one cycle, all from one snapshot, drawing from one source in turn. */
  function OverlayOf(y: Synthesized, c: Sampled, snap: Snapshot, name: MigNamer): Overlaid
    requires Fair(y.ch) && Usable(snap)
  {
    var sampled, mig := SampledFor(c, snap), MigPart(y, c.uuids, snap, name);
    var emitter := TickOf(y.emitter, Beat(c.uuids, c.now, mig.rng), snap.xids, y.ch).emitter;
    Overlaid(
      Synthesized(EnergyCycle(y.energy, sampled), SetOf(KeyList(Topology(c.uuids, snap.mig))), emitter, y.ch),
      Counters(y.energy, sampled, |c.uuids|), Throughputs(c.uuids, snap.rates, y.emitter.rng, y.ch), mig.devices, mig.rng)
  }

  /** The MIG part, for its start and its placing given as values. */
  lemma MigPartIs(y: Synthesized, uuids: seq<string>, snap: Snapshot, name: MigNamer, start: MigOut, place: Placer)
    requires Fair(y.ch) && place == PlacerOf(StyleOf(snap, name), y.ch)
    requires start == MigOut([], y.seen, y.emitter.rng + 2 * |uuids|)
    ensures MigPart(y, uuids, snap, name) == PlaceAll(start, Topology(uuids, snap.mig), place)
  {
  }

  lemma OverlayIs(y: Synthesized, c: Sampled, snap: Snapshot, name: MigNamer, mig: MigOut)
    requires Fair(y.ch) && Usable(snap) && mig == MigPart(y, c.uuids, snap, name)
    ensures var o := OverlayOf(y, c, snap, name);
            && o.after.energy == EnergyCycle(y.energy, SampledFor(c, snap)) && o.after.ch == y.ch
            && o.after.seen == SetOf(KeyList(Topology(c.uuids, snap.mig)))
            && o.after.emitter == Tick(y.emitter.(rng := mig.rng), c.uuids, snap.xids, c.now, y.ch).emitter
            && o.counters == Counters(y.energy, SampledFor(c, snap), |c.uuids|)
            && o.pcie == Throughputs(c.uuids, snap.rates, y.emitter.rng, y.ch)
            && o.devices == mig.devices && o.drawn == mig.rng
  {
  }

  class Backend {
    const configured: bool
    const name: MigNamer
    const hash: PidHash
    var ch: Chance
    var current: Snapshot
    var energy: Meters
    var xids: Xids
    var xidsSeeded: bool
    var nextXidAt: Option<int>
    var rng: nat
    var seenGis: set<string>

    /** The XID emitter's part of the state. */
    ghost function Emitting(): Emitter
      reads this
    {
      Emitter(xids, xidsSeeded, nextXidAt, rng)
    }

    ghost function View(): Synthesized
      reads this
    {
      Synthesized(energy, seenGis, Emitting(), ch)
    }

    constructor (configured: bool, name: MigNamer, hash: PidHash, first: Snapshot)
      ensures this.configured == configured && this.name == name && this.hash == hash
      ensures current == first && View() == Fresh(first)
    {
      this.configured, this.name, this.hash, current, ch := configured, name, hash, first, first.chance;
      energy, xids, xidsSeeded, nextXidAt, rng, seenGis := map[], map[], false, None, 0, {};
    }

    /** resetState. */
    method ResetState(snap: Snapshot)
      modifies this
      ensures View() == Fresh(snap) && current == old(current)
    {
      ch := snap.chance;
      energy, xids, xidsSeeded, nextXidAt, rng, seenGis := map[], map[], false, None, 0, {};
    }

    /** beginCycle: a failed reload changes nothing; a changed document resets the synthesized state. */
    method BeginCycle(load: Option<Snapshot>) returns (ok: bool)
      modifies this
      ensures ok <==> !configured || load.Some?
      ensures current == if configured && load.Some? then load.value else old(current)
      ensures View() == if configured && load.Some? && load.value.hash != old(current).hash then Fresh(load.value) else old(View())
    {
      if !configured {
        return true;
      }
      if load.None? {
        return false;
      }
      if load.value.hash != current.hash {
        ResetState(load.value);
      }
      current := load.value;
      return true;
    }

    /** One GPU's sample. */
    method SampleGpu(c: Sampled, uuid: string) returns (joules: real)
      modifies this`energy
      ensures energy == old(energy)[uuid := Metered(old(energy), c, uuid)] && joules == energy[uuid].joules
    {
      var watts := Watts(c, uuid);
      joules := 0.0;
      if uuid in energy {
        var state := energy[uuid];
        joules := state.joules;
        if c.now > state.lastAt {
          joules := joules + Area(state.lastPower, watts, state.lastAt, c.now);
        }
      }
      energy := energy[uuid := Meter(joules, watts, c.now)];
    }

    /** Every served GPU's sample, in turn. */
    method SampleAll(c: Sampled) returns (counters: seq<EnergyCounter>, seen: set<string>)
      modifies this`energy
      ensures energy == MeteredUpTo(old(energy), c, |c.uuids|) && seen == SetOf(c.uuids)
      ensures counters == Counters(old(energy), c, |c.uuids|)
    {
      seen, counters := {}, [];
      for n := 0 to |c.uuids|
        invariant energy == MeteredUpTo(old(energy), c, n) && seen == SetOf(c.uuids[..n])
        invariant counters == Counters(old(energy), c, n)
      {
        assert c.uuids[..n + 1] == c.uuids[..n] + [c.uuids[n]];
        seen := seen + {c.uuids[n]};
        var joules := SampleGpu(c, c.uuids[n]);
        counters := counters + [EnergyCounter(c.uuids[n], joules)];
      }
      assert c.uuids[..|c.uuids|] == c.uuids;
    }

    /** synthEnergy: samples every served GPU, then forgets the ones that left. */
    method SynthEnergy(c: Sampled) returns (counters: seq<EnergyCounter>)
      modifies this`energy
      ensures energy == EnergyCycle(old(energy), c) && counters == Counters(old(energy), c, |c.uuids|)
      ensures Distinct(c.uuids) ==>
                forall i :: 0 <= i < |c.uuids| ==> counters[i].uuid == c.uuids[i] && Grows(old(energy), c, counters[i])
    {
      var seen;
      counters, seen := SampleAll(c);
      DropUnseen(seen);
      if Distinct(c.uuids) {
        forall i | 0 <= i < |c.uuids|
          ensures counters[i].uuid == c.uuids[i] && Grows(old(energy), c, counters[i])
        {
          CountersGrow(old(energy), c, i);
        }
      }
    }

    /** Deletes the meters of GPUs not seen. */
    method DropUnseen(seen: set<string>)
      modifies this`energy
      ensures energy == map u | u in old(energy) && u in seen :: old(energy)[u]
    {
      var todo := energy.Keys;
      ghost var all := energy;
      while todo != {}
        invariant todo <= all.Keys
        invariant forall u :: u in energy <==> u in all && (u in todo || u in seen)
        invariant forall u :: u in energy ==> energy[u] == all[u]
        decreases todo
      {
        var u :| u in todo;
        if u !in seen {
          energy := energy - {u};
        }
        todo := todo - {u};
      }
    }

    /** synthPCIe. */
    method SynthPcie(uuids: seq<string>, rates: Rates) returns (pcie: seq<Throughput>)
      modifies this`rng
      ensures pcie == Throughputs(uuids, rates, old(rng), ch) && rng == old(rng) + 2 * |uuids|
    {
      pcie := [];
      for n := 0 to |uuids|
        invariant pcie == Throughputs(uuids, rates, old(rng), ch)[..n] && rng == old(rng) + 2 * n
      {
        pcie := pcie + [Throughput(uuids[n], Draw(rates.tx, ch.unit(rng)), Draw(rates.rx, ch.unit(rng + 1)))];
        rng := rng + 2;
      }
    }

    /** migUtilization: nothing for an instance not seen before, which then counts as seen. */
    method SynthUtilization(p: Partition, key: string, rates: Rates) returns (util: Option<seq<real>>)
      modifies this`seenGis, this`rng
      ensures util == if key in old(seenGis) then Some(UtilOf(p, rates, old(rng), ch)) else None
      ensures seenGis == old(seenGis) + {key} && rng == old(rng) + if util.Some? then 6 else 0
    {
      if key !in seenGis {
        seenGis := seenGis + {key};
        return None;
      }
      util := Some(UtilOf(p, rates, rng, ch));
      rng := rng + 6;
    }

    /** One GPU instance's devices. */
    method SynthInstance(parent: string, p: Partition, style: Style, before: seq<Device>) returns (devices: seq<Device>)
      requires Fair(ch)
      modifies this`seenGis, this`rng
      ensures MigOut(devices, seenGis, rng) == PlaceOne(MigOut(before, old(seenGis), old(rng)), Placed(parent, p), style, ch)
    {
      var placed := Placed(parent, p);
      var memory := MemoryOf(p, ch.unit(rng));
      rng := rng + 1;
      var util := SynthUtilization(p, KeyOf(placed), style.rates);
      devices := before;
      ghost var all := Siblings(placed, memory, util, style.name);
      for ci := 0 to p.cis
        invariant devices == before + all[..ci]
      {
        devices := devices + [DeviceOf(placed, ci, memory, util, style.name)];
      }
      assert all[..p.cis] == all;
    }

    method SynthInstances(parent: string, instances: seq<Partition>, style: Style, before: seq<Device>) returns (devices: seq<Device>)
      requires Fair(ch)
      modifies this`seenGis, this`rng
      ensures MigOut(devices, seenGis, rng)
              == PlaceAll(MigOut(before, old(seenGis), old(rng)), PlacedOn(parent, instances), PlacerOf(style, ch))
    {
      devices := before;
      ghost var all, start, place := PlacedOn(parent, instances), MigOut(before, seenGis, rng), PlacerOf(style, ch);
      for n := 0 to |instances|
        invariant MigOut(devices, seenGis, rng) == PlaceAll(start, all[..n], place)
      {
        PlaceAllStep(start, all, n, place);
        PlacerIs(MigOut(devices, seenGis, rng), all[n], style, ch);
        devices := SynthInstance(parent, instances[n], style, devices);
      }
      assert all[..|instances|] == all;
    }

    /** The configured topology on the served GPUs. */
    method PlaceTopology(uuids: seq<string>, mig: seq<GpuTopology>, style: Style, ghost place: Placer) returns (devices: seq<Device>)
      requires Fair(ch) && place == PlacerOf(style, ch)
      modifies this`seenGis, this`rng
      ensures MigOut(devices, seenGis, rng) == PlaceAll(MigOut([], old(seenGis), old(rng)), Topology(uuids, mig), place)
    {
      devices := [];
      ghost var start := MigOut([], seenGis, rng);
      for g := 0 to |mig|
        invariant MigOut(devices, seenGis, rng) == PlaceAll(start, Topology(uuids, mig[..g]), place)
      {
        TopologyStep(start, uuids, mig, g, place);
        if 0 <= mig[g].gpu < |uuids| {
          devices := SynthInstances(uuids[mig[g].gpu], mig[g].instances, style, devices);
        }
      }
      assert mig[..|mig|] == mig;
    }

    /** synthMIG: instances that left the topology start over if they come back. */
    method SynthMig(uuids: seq<string>, mig: seq<GpuTopology>, style: Style, ghost start: MigOut, ghost place: Placer)
      returns (devices: seq<Device>)
      requires Fair(ch) && place == PlacerOf(style, ch) && start == MigOut([], seenGis, rng)
      modifies this`seenGis, this`rng
      ensures var o := PlaceAll(start, Topology(uuids, mig), place);
              devices == o.devices && rng == o.rng && seenGis == SetOf(KeyList(Topology(uuids, mig)))
    {
      devices := PlaceTopology(uuids, mig, style, place);
      PlacersSee(style, ch);
      PlacingSees(start, Topology(uuids, mig), place);
      var live := SetOf(KeyList(Topology(uuids, mig)));
      seenGis := seenGis * live;
    }

    /** bumpXID. */
    method BumpXid(uuid: string, xid: nat, count: nat, at: int)
      modifies this`xids
      ensures xids == Bumped(old(xids), Event(uuid, xid, count, at))
    {
      var perGpu := if uuid in xids then xids[uuid] else map[];
      var stat := if xid in perGpu then perGpu[xid] else Stat(0, at);
      xids := xids[uuid := perGpu[xid := Stat(stat.count + count, at)]];
    }

    /** seedInitialXIDs: once, on the first cycle. */
    method SeedInitialXids(uuids: seq<string>, initial: seq<Initial>, now: int)
      modifies this`xids, this`xidsSeeded
      ensures xidsSeeded
      ensures xids == if old(xidsSeeded) then old(xids) else BumpedAll(old(xids), InitialEvents(uuids, initial, now))
    {
      if xidsSeeded {
        return;
      }
      xidsSeeded := true;
      for n := 0 to |initial|
        invariant xids == BumpedAll(old(xids), InitialEvents(uuids, initial[..n], now)) && xidsSeeded
      {
        var i := initial[n];
        ghost var events := InitialEvents(uuids, initial[..n], now);
        InitialGrows(uuids, initial, n, now);
        if i.gpu < 0 || i.gpu >= |uuids| || i.count == 0 {
          assert events + [] == events;
          continue;
        }
        OneMoreBump(old(xids), events, Event(uuids[i.gpu], i.xid, i.count, now));
        BumpXid(uuids[i.gpu], i.xid, i.count, now);
      }
      assert initial[..|initial|] == initial;
    }

    /** One slot's event, and the next slot. */
    method EmitSlot(uuids: seq<string>, cfg: XidConfig, now: int, slot: int, gap: Gap, dice: Chance,
                    ghost step: CatchUp -> CatchUp, ghost c: CatchUp, ghost before: Xids)
      returns (next: int)
      requires Fair(dice) && uuids != [] && cfg.codes != [] && step == SlotStep(uuids, cfg, now, gap, dice)
      requires now > slot == c.nextAt && rng == c.rng && xids == BumpedAll(before, c.events)
      modifies this`xids, this`rng
      ensures next == step(c).nextAt && rng == step(c).rng && xids == BumpedAll(before, step(c).events)
    {
      var uuid, code := uuids[dice.pick(rng, |uuids|)], cfg.codes[dice.pick(rng + 1, |cfg.codes|)];
      EmitTurn(uuids, cfg, now, gap, dice, step, c, Event(uuid, code, 1, slot));
      OneMoreBump(before, c.events, Event(uuid, code, 1, slot));
      BumpXid(uuid, code, 1, slot);
      next := slot + gap(rng + 2);
      rng := rng + 3;
    }

    /** The catch-up loop: while slots lie in the past, at most `burst`. */
    method CatchUpSlots(uuids: seq<string>, cfg: XidConfig, now: int, slot: int, gap: Gap, dice: Chance, burst: nat,
                        ghost step: CatchUp -> CatchUp, ghost start: CatchUp)
      returns (next: int, ghost c: CatchUp)
      requires Fair(dice) && uuids != [] && cfg.codes != [] && step == SlotStep(uuids, cfg, now, gap, dice)
      requires start == CatchUp([], slot, rng)
      modifies this`xids, this`rng
      ensures c == Turns(start, step, burst)
      ensures next == c.nextAt && rng == c.rng && xids == BumpedAll(old(xids), c.events)
    {
      next, c := slot, start;
      var fired: nat := 0;
      while fired < burst && now > next
        invariant fired <= burst
        invariant c == Turns(start, step, fired)
        invariant next == c.nextAt && rng == c.rng && xids == BumpedAll(old(xids), c.events)
        decreases burst - fired
      {
        next := EmitSlot(uuids, cfg, now, next, gap, dice, step, c, old(xids));
        c := step(c);
        fired := fired + 1;
      }
      TurnsStop(start, step, fired, burst);
    }

    /** The slot the schedule starts at: its own, or a fresh one. */
    method OpenSlot(now: int, gap: Gap) returns (slot: int)
      modifies this`nextXidAt, this`rng
      ensures CatchUp([], slot, rng) == Start(old(Emitting()), now, gap)
    {
      if nextXidAt.None? {
        nextXidAt := Some(now + gap(rng));
        rng := rng + 1;
      }
      slot := nextXidAt.value;
    }

    /** A schedule that still lies in the past after the catch-up starts over from now. */
    method Reschedule(now: int, next: int, gap: Gap, ghost c: CatchUp)
      requires c.nextAt == next && c.rng == rng
      modifies this`nextXidAt, this`rng
      ensures nextXidAt == Some(Forgiven(c, now, gap).nextAt) && rng == Forgiven(c, now, gap).rng
    {
      nextXidAt := Some(next);
      if now > next {
        nextXidAt := Some(now + gap(rng));
        rng := rng + 1;
      }
    }

    /** The ongoing part of tickXIDs. */
    method TickOngoing(uuids: seq<string>, cfg: XidConfig, now: int, gap: Gap)
      requires Fair(ch) && cfg.codes != [] && uuids != []
      modifies this`xids, this`nextXidAt, this`rng
      ensures Emitting() == Ongoing(old(Emitting()), uuids, cfg, now, gap, ch)
    {
      var slot := OpenSlot(now, gap);
      ghost var step, start := SlotStep(uuids, cfg, now, gap, ch), CatchUp([], slot, rng);
      TurnsCatchUp(start, uuids, cfg, now, gap, ch, BURST);
      var next, c := CatchUpSlots(uuids, cfg, now, slot, gap, ch, BURST, step, start);
      Reschedule(now, next, gap, c);
    }

    /** tickXIDs. */
    method TickXids(uuids: seq<string>, cfg: XidConfig, now: int)
      requires Fair(ch) && cfg.codes != []
      modifies this`xids, this`xidsSeeded, this`nextXidAt, this`rng
      ensures Emitting() == Tick(old(Emitting()), uuids, cfg, now, ch).emitter
    {
      ghost var e := Emitting();
      SeedInitialXids(uuids, cfg.initial, now);
      assert Emitting() == Seeded(e, uuids, cfg, now);
      if cfg.interval <= 0 || |uuids| == 0 {
        return;
      }
      TickOngoing(uuids, cfg, now, GapOf(cfg.interval, ch));
    }

    /** The parts of a cycle that draw for the devices: PCIe, then MIG. */
    method SynthDrawn(uuids: seq<string>, ghost start: MigOut, ghost place: Placer)
      returns (pcie: seq<Throughput>, devices: seq<Device>)
      requires Fair(ch) && place == PlacerOf(StyleOf(current, name), ch) && start == MigOut([], seenGis, rng + 2 * |uuids|)
      modifies this`seenGis, this`rng
      ensures pcie == Throughputs(uuids, current.rates, old(rng), ch)
      ensures var mig := PlaceAll(start, Topology(uuids, current.mig), place);
              devices == mig.devices && rng == mig.rng && seenGis == SetOf(KeyList(Topology(uuids, current.mig)))
    {
      pcie := SynthPcie(uuids, current.rates);
      devices := SynthMig(uuids, current.mig, StyleOf(current, name), start, place);
    }

    /**
     overlay: energy, PCIe, MIG, processes and XIDs of one cycle, all from the current snapshot, drawing from one source in turn;
     `start` is where the MIG part starts, behind the PCIe draws, and `drawn` where the XIDs do.
     */
    method Overlay(c: Sampled, apps: seq<Process>, ghost start: MigOut, ghost place: Placer)
      returns (counters: seq<EnergyCounter>, pcie: seq<Throughput>, devices: seq<Device>, own: seq<Process>, ghost drawn: nat)
      requires Fair(ch) && Usable(current)
      requires place == PlacerOf(StyleOf(current, name), ch) && start == MigOut([], seenGis, rng + 2 * |c.uuids|)
      modifies this`energy, this`seenGis, this`rng, this`xids, this`xidsSeeded, this`nextXidAt
      ensures energy == EnergyCycle(old(energy), SampledFor(c, current))
      ensures counters == Counters(old(energy), SampledFor(c, current), |c.uuids|)
      ensures pcie == Throughputs(c.uuids, current.rates, old(rng), ch)
      ensures var mig := PlaceAll(start, Topology(c.uuids, current.mig), place);
              devices == mig.devices && drawn == mig.rng && seenGis == SetOf(KeyList(Topology(c.uuids, current.mig)))
      ensures own == Attributed(apps, SlotsOf(Topology(c.uuids, current.mig)), hash)
      ensures Emitting() == Tick(old(Emitting()).(rng := drawn), c.uuids, current.xids, c.now, ch).emitter
    {
      counters := SynthEnergy(SampledFor(c, current));
      pcie, devices := SynthDrawn(c.uuids, start, place);
      own := AttributeApps(c.uuids, current.mig, apps, hash);
      drawn := rng;
      TickXids(c.uuids, current.xids, c.now);
    }
  }
}
