/** The XID emitter over whole runs of cycles. */
module XidSchedule {
  import opened Basics
  import opened Synth

  datatype XidConfig = XidConfig(initial: seq<Initial>, interval: nat, codes: seq<nat>)

  /** What one tick emits: the initial events it applies, if any, and the ongoing ones. */
  datatype Ticked = Ticked(emitter: Emitter, initial: seq<Event>, ongoing: seq<Event>)

  /** Where the catch-up starts: at the schedule's slot, or at a fresh one. */
  function Start(e: Emitter, now: int, gap: Gap): CatchUp {
    if e.nextAt.Some? then CatchUp([], e.nextAt.value, e.rng) else CatchUp([], now + gap(e.rng), e.rng + 1)
  }

  /** A pause longer than the catch-up covers is forgiven. */
  function Forgiven(c: CatchUp, now: int, gap: Gap): CatchUp {
    if now > c.nextAt then c.(nextAt := now + gap(c.rng), rng := c.rng + 1) else c
  }

  /** The slots a tick catches up. */
  function Slots(e: Emitter, uuids: seq<string>, cfg: XidConfig, now: int, gap: Gap, ch: Chance): CatchUp
    requires Fair(ch) && cfg.codes != [] && uuids != []
  {
    CaughtUp(Start(e, now, gap), uuids, cfg.codes, gap, now, ch, BURST)
  }

  /** The ongoing part of a tick. */
  function Ongoing(e: Emitter, uuids: seq<string>, cfg: XidConfig, now: int, gap: Gap, ch: Chance): Emitter
    requires Fair(ch) && cfg.codes != [] && uuids != []
  {
    var c := Slots(e, uuids, cfg, now, gap, ch);
    var f := Forgiven(c, now, gap);
    Emitter(BumpedAll(e.xids, c.events), e.seeded, Some(f.nextAt), f.rng)
  }

  /** The part of a tick before any slot: the history, once. */
  function Seeded(e: Emitter, uuids: seq<string>, cfg: XidConfig, now: int): Emitter {
    e.(xids := BumpedAll(e.xids, if e.seeded then [] else InitialEvents(uuids, cfg.initial, now)), seeded := true)
  }

  /** tickXIDs. */
  function Tick(e: Emitter, uuids: seq<string>, cfg: XidConfig, now: int, ch: Chance): Ticked
    requires Fair(ch) && cfg.codes != []
  {
    var initial := if e.seeded then [] else InitialEvents(uuids, cfg.initial, now);
    var seeded, gap := Seeded(e, uuids, cfg, now), GapOf(cfg.interval, ch);
    if cfg.interval == 0 || uuids == [] then Ticked(seeded, initial, [])
    else Ticked(Ongoing(seeded, uuids, cfg, now, gap, ch), initial, Slots(seeded, uuids, cfg, now, gap, ch).events)
  }

  const RESET: Emitter := Emitter(map[], false, None, 0)

  /** One tick of a run: the served GPUs, the time, and where other draws of the cycle have left the random source. */
  datatype Beat = Beat(uuids: seq<string>, now: int, drawn: nat)

  /** A cycle's tick, from where the cycle's other draws left off. */
  function TickOf(e: Emitter, b: Beat, cfg: XidConfig, ch: Chance): Ticked
    requires Fair(ch) && cfg.codes != []
  {
    Tick(e.(rng := b.drawn), b.uuids, cfg, b.now, ch)
  }

  function Run(beats: seq<Beat>, cfg: XidConfig, ch: Chance): Emitter
    requires Fair(ch) && cfg.codes != []
    decreases |beats|
  {
    if beats == [] then RESET
    else
      var b := beats[|beats| - 1];
      TickOf(Run(beats[..|beats| - 1], cfg, ch), b, cfg, ch).emitter
  }

  /** Everything a run emitted, in order. */
  function Emitted(beats: seq<Beat>, cfg: XidConfig, ch: Chance): seq<Event>
    requires Fair(ch) && cfg.codes != []
    decreases |beats|
  {
    if beats == [] then []
    else
      var b := beats[|beats| - 1];
      var t := TickOf(Run(beats[..|beats| - 1], cfg, ch), b, cfg, ch);
      Emitted(beats[..|beats| - 1], cfg, ch) + t.initial + t.ongoing
  }

  /**
   With a positive interval and a GPU to blame, a tick emits at most ten ongoing events, all stamped before now and in
   order, and leaves the next slot not before now.
   */
  lemma TicksAreBounded(e: Emitter, uuids: seq<string>, cfg: XidConfig, now: int, ch: Chance)
    requires Fair(ch) && cfg.codes != [] && cfg.interval > 0 && uuids != []
    ensures var t := Tick(e, uuids, cfg, now, ch);
            && |t.ongoing| <= BURST
            && (forall i :: 0 <= i < |t.ongoing| ==> t.ongoing[i].at < now && t.ongoing[i].uuid in uuids && t.ongoing[i].xid in cfg.codes)
            && (forall i, j :: 0 <= i <= j < |t.ongoing| ==> t.ongoing[i].at <= t.ongoing[j].at)
            && t.emitter.nextAt.Some? && t.emitter.nextAt.value >= now
  {
    var seeded, gap := Seeded(e, uuids, cfg, now), GapOf(cfg.interval, ch);
    CaughtUpIsPast(Start(seeded, now, gap), uuids, cfg.codes, gap, now, ch, BURST);
  }

  // ---------------------------------------------------------------- what a tick emits

  /** A spacing between 50 and 150 percent of the interval, in whole nanoseconds. */
  predicate Spaced(from_: int, to: int, interval: nat) { interval <= 2 * (to - from_) + 1 && 2 * (to - from_) <= 3 * interval }

  /** The i-th ongoing event of a tick that starts its draws at `rng`: one count for a GPU and a code drawn anew. */
  ghost predicate Drawn(e: Event, i: nat, rng: nat, uuids: seq<string>, codes: seq<nat>, ch: Chance)
    requires uuids != [] && codes != [] && Fair(ch)
  {
    e.uuid == uuids[ch.pick(rng + 3 * i, |uuids|)] && e.xid == codes[ch.pick(rng + 3 * i + 1, |codes|)] && e.count == 1
  }

  /** After n turns of the catch-up: the due slots so far, each spaced from the one before. */
  ghost predicate Chained(c: CatchUp, start: CatchUp, uuids: seq<string>, cfg: XidConfig, now: int, ch: Chance, n: nat)
    requires uuids != [] && cfg.codes != [] && Fair(ch)
  {
    && |c.events| <= n && c.rng == start.rng + 3 * |c.events|
    && (|c.events| < n ==> now <= c.nextAt)
    && (forall i :: 0 <= i < |c.events| ==> c.events[i].at < now && Drawn(c.events[i], i, start.rng, uuids, cfg.codes, ch))
    && (if c.events == [] then c.nextAt == start.nextAt
        else c.events[0].at == start.nextAt && Spaced(c.events[|c.events| - 1].at, c.nextAt, cfg.interval))
    && (forall i, j :: 0 <= i < |c.events| && j == i + 1 && j < |c.events| ==>
          Spaced(c.events[i].at, c.events[j].at, cfg.interval))
  }

  /** One turn of the catch-up. */
  function Turned(c: CatchUp, uuids: seq<string>, codes: seq<nat>, gap: Gap, now: int, ch: Chance): CatchUp
    requires uuids != [] && codes != [] && Fair(ch)
  {
    if now > c.nextAt
    then CatchUp(c.events + [Event(uuids[ch.pick(c.rng, |uuids|)], codes[ch.pick(c.rng + 1, |codes|)], 1, c.nextAt)],
                 c.nextAt + gap(c.rng + 2), c.rng + 3)
    else c
  }

  /** What holds at the start and survives each turn holds after the catch-up. */
  lemma {:induction false} TurnsKeep(
    start: CatchUp, uuids: seq<string>, codes: seq<nat>, gap: Gap, now: int, ch: Chance, ok: (CatchUp, nat) -> bool, n: nat)
    requires uuids != [] && codes != [] && Fair(ch) && n <= BURST && ok(start, 0)
    requires forall c, k: nat :: ok(c, k) ==> ok(Turned(c, uuids, codes, gap, now, ch), k + 1)
    ensures ok(CaughtUp(start, uuids, codes, gap, now, ch, n), n)
    decreases n
  {
    if n > 0 {
      var earlier := CaughtUp(start, uuids, codes, gap, now, ch, n - 1);
      TurnsKeep(start, uuids, codes, gap, now, ch, ok, n - 1);
      assert CaughtUp(start, uuids, codes, gap, now, ch, n) == Turned(earlier, uuids, codes, gap, now, ch);
    }
  }

  lemma CatchUpChains(start: CatchUp, uuids: seq<string>, cfg: XidConfig, now: int, ch: Chance, gap: Gap)
    requires uuids != [] && cfg.codes != [] && Fair(ch) && start.events == [] && gap == GapOf(cfg.interval, ch)
    ensures Chained(CaughtUp(start, uuids, cfg.codes, gap, now, ch, BURST), start, uuids, cfg, now, ch, BURST)
  {
    var ok := (c: CatchUp, k: nat) => Chained(c, start, uuids, cfg, now, ch, k);
    forall c, k: nat | ok(c, k)
      ensures ok(Turned(c, uuids, cfg.codes, gap, now, ch), k + 1)
    {
      if now > c.nextAt {
        ChainGrows(c, Turned(c, uuids, cfg.codes, gap, now, ch), start, uuids, cfg, now, ch, gap, k + 1);
      } else {
        ChainWaits(c, start, uuids, cfg, now, ch, k + 1);
      }
    }
    TurnsKeep(start, uuids, cfg.codes, gap, now, ch, ok, BURST);
  }

  lemma ChainWaits(c: CatchUp, start: CatchUp, uuids: seq<string>, cfg: XidConfig, now: int, ch: Chance, n: nat)
    requires uuids != [] && cfg.codes != [] && Fair(ch) && n > 0
    ensures now <= c.nextAt && Chained(c, start, uuids, cfg, now, ch, n - 1) ==> Chained(c, start, uuids, cfg, now, ch, n)
  {
  }

  lemma ChainGrows(c: CatchUp, d: CatchUp, start: CatchUp, uuids: seq<string>, cfg: XidConfig, now: int, ch: Chance, gap: Gap, n: nat)
    requires uuids != [] && cfg.codes != [] && Fair(ch) && n > 0 && now > c.nextAt && gap == GapOf(cfg.interval, ch)
    requires d == CatchUp(c.events + [Event(uuids[ch.pick(c.rng, |uuids|)], cfg.codes[ch.pick(c.rng + 1, |cfg.codes|)], 1, c.nextAt)],
                          c.nextAt + gap(c.rng + 2), c.rng + 3)
    ensures Chained(c, start, uuids, cfg, now, ch, n - 1) ==> Chained(d, start, uuids, cfg, now, ch, n)
  {
    if Chained(c, start, uuids, cfg, now, ch, n - 1) {
      var k := |c.events|;
      assert forall i :: 0 <= i < k ==> d.events[i] == c.events[i];
      assert Drawn(d.events[k], k, start.rng, uuids, cfg.codes, ch);
      FirstGap(cfg.interval, ch, c.nextAt, gap, c.rng + 2);
    }
  }

  /**
   What a tick emits, slot by slot: one event for each due slot from the schedule's own on, at most ten, each slot between
   50 and 150 percent of the interval behind the one before, for a GPU and a code drawn anew. With a slot still ahead
   nothing happens; a pause longer than ten slots is forgiven, and the schedule starts over from now.
   */
  lemma TickEmitsTheDueSlots(e: Emitter, uuids: seq<string>, cfg: XidConfig, now: int, ch: Chance)
    requires Fair(ch) && cfg.codes != [] && cfg.interval > 0 && uuids != []
    ensures var t := Tick(e, uuids, cfg, now, ch);
            && |t.ongoing| <= 10 && t.emitter.nextAt.Some?
            && (e.nextAt.None? ==> t.ongoing == [] && Spaced(now, t.emitter.nextAt.value, cfg.interval))
            && (e.nextAt.Some? ==>
                  && (t.ongoing == [] <==> now <= e.nextAt.value)
                  && (t.ongoing == [] ==> t.emitter.nextAt == e.nextAt)
                  && (t.ongoing != [] ==> t.ongoing[0].at == e.nextAt.value)
                  && forall i :: 0 <= i < |t.ongoing| ==> Drawn(t.ongoing[i], i, e.rng, uuids, cfg.codes, ch))
            && (forall i, j :: 0 <= i < |t.ongoing| && j == i + 1 && j < |t.ongoing| ==>
                  Spaced(t.ongoing[i].at, t.ongoing[j].at, cfg.interval))
            && (t.ongoing != [] ==>
                  || Spaced(t.ongoing[|t.ongoing| - 1].at, t.emitter.nextAt.value, cfg.interval)
                  || (|t.ongoing| == 10 && Spaced(now, t.emitter.nextAt.value, cfg.interval)))
            && (t.ongoing != [] && |t.ongoing| < 10 ==>
                  now <= t.emitter.nextAt.value && Spaced(t.ongoing[|t.ongoing| - 1].at, t.emitter.nextAt.value, cfg.interval))
  {
    var seeded, gap := Seeded(e, uuids, cfg, now), GapOf(cfg.interval, ch);
    var start := Start(seeded, now, gap);
    CatchUpChains(start, uuids, cfg, now, ch, gap);
    var c := Slots(seeded, uuids, cfg, now, gap, ch);
    assert Chained(c, start, uuids, cfg, now, ch, BURST);
    FirstGap(cfg.interval, ch, now, gap, seeded.rng);
    FirstGap(cfg.interval, ch, now, gap, c.rng);
  }

  lemma FirstGap(interval: nat, ch: Chance, now: int, gap: Gap, k: nat)
    requires Fair(ch) && gap == GapOf(interval, ch)
    ensures Spaced(now, now + gap(k), interval)
  {
  }

  predicate Applies(i: Initial, uuids: seq<string>) { 0 <= i.gpu < |uuids| && i.count > 0 }

  /** `at` says which entries the events come from, in order. */
  ghost predicate Tells(events: seq<Event>, uuids: seq<string>, initial: seq<Initial>, now: int, at: seq<nat>) {
    && |at| == |events|
    && (forall i :: 0 <= i < |at| ==>
          && at[i] < |initial| && Applies(initial[at[i]], uuids)
          && events[i] == Event(uuids[initial[at[i]].gpu], initial[at[i]].xid, initial[at[i]].count, now))
    && (forall i, j :: 0 <= i < j < |at| ==> at[i] < at[j])
  }

  lemma TellsMore(events: seq<Event>, uuids: seq<string>, initial: seq<Initial>, now: int, at: seq<nat>)
    requires initial != [] && Tells(events, uuids, initial[..|initial| - 1], now, at)
    ensures Tells(events, uuids, initial, now, at)
    ensures var last := initial[|initial| - 1];
            Applies(last, uuids) ==>
              Tells(events + [Event(uuids[last.gpu], last.xid, last.count, now)], uuids, initial, now, at + [|initial| - 1])
  {
    assert forall k :: 0 <= k < |initial| - 1 ==> initial[..|initial| - 1][k] == initial[k];
  }

  /** The history names its events in order: entries for GPUs that are served, with a count. */
  lemma {:induction false} HistoryIs(uuids: seq<string>, initial: seq<Initial>, now: int) returns (at: seq<nat>)
    ensures Tells(InitialEvents(uuids, initial, now), uuids, initial, now, at)
    ensures forall n :: 0 <= n < |initial| && Applies(initial[n], uuids) ==> n in at
    decreases |initial|
  {
    if initial == [] {
      at := [];
    } else {
      var n := |initial| - 1;
      at := HistoryIs(uuids, initial[..n], now);
      TellsMore(InitialEvents(uuids, initial[..n], now), uuids, initial, now, at);
      assert forall k :: 0 <= k < n ==> initial[..n][k] == initial[k];
      if Applies(initial[n], uuids) {
        at := at + [n];
      }
    }
  }

  lemma {:induction false} BumpedInTurn(xids: Xids, a: seq<Event>, b: seq<Event>)
    ensures BumpedAll(BumpedAll(xids, a), b) == BumpedAll(xids, a + b)
    decreases |b|
  {
    if b == [] {
      assert a + b == a;
    } else {
      var n := |b| - 1;
      assert (a + b)[..|a + b| - 1] == a + b[..n];
      BumpedInTurn(xids, a, b[..n]);
    }
  }

  lemma TickBumps(e: Emitter, uuids: seq<string>, cfg: XidConfig, now: int, ch: Chance)
    requires Fair(ch) && cfg.codes != []
    ensures var t := Tick(e, uuids, cfg, now, ch); t.emitter.xids == BumpedAll(e.xids, t.initial + t.ongoing)
  {
    var t := Tick(e, uuids, cfg, now, ch);
    if t.ongoing == [] {
      assert t.initial + t.ongoing == t.initial;
    }
    BumpedInTurn(e.xids, t.initial, t.ongoing);
  }

  /** The last tick of a run. */
  function LastTick(beats: seq<Beat>, cfg: XidConfig, ch: Chance): Ticked
    requires Fair(ch) && cfg.codes != [] && beats != []
  {
    var b := beats[|beats| - 1];
    TickOf(Run(beats[..|beats| - 1], cfg, ch), b, cfg, ch)
  }

  lemma RunStep(beats: seq<Beat>, cfg: XidConfig, ch: Chance)
    requires Fair(ch) && cfg.codes != [] && beats != []
    ensures var t, front := LastTick(beats, cfg, ch), beats[..|beats| - 1];
            && Run(beats, cfg, ch).xids == BumpedAll(Run(front, cfg, ch).xids, t.initial + t.ongoing)
            && Emitted(beats, cfg, ch) == Emitted(front, cfg, ch) + (t.initial + t.ongoing)
  {
    var b := beats[|beats| - 1];
    TickBumps(Run(beats[..|beats| - 1], cfg, ch).(rng := b.drawn), b.uuids, cfg, b.now, ch);
  }

  lemma {:induction false} RunBumps(beats: seq<Beat>, cfg: XidConfig, ch: Chance)
    requires Fair(ch) && cfg.codes != []
    ensures Run(beats, cfg, ch).xids == BumpedAll(map[], Emitted(beats, cfg, ch))
    decreases |beats|
  {
    if beats != [] {
      var front, t := beats[..|beats| - 1], LastTick(beats, cfg, ch);
      RunBumps(front, cfg, ch);
      RunStep(beats, cfg, ch);
      BumpedInTurn(map[], Emitted(front, cfg, ch), t.initial + t.ongoing);
    }
  }

  /** Since a reset, each pair's count is exactly what was emitted for it: nothing lost, nothing counted twice. */
  lemma CountsMatchEmissions(beats: seq<Beat>, cfg: XidConfig, ch: Chance, uuid: string, xid: nat)
    requires Fair(ch) && cfg.codes != []
    ensures CountOf(Run(beats, cfg, ch).xids, uuid, xid) == AddedTo(Emitted(beats, cfg, ch), uuid, xid)
  {
    RunBumps(beats, cfg, ch);
    CountsAreExact(map[], Emitted(beats, cfg, ch), uuid, xid);
  }

  /** The configured history is applied on the first tick of a run and never again. */
  lemma {:induction false} HistoryAppliesOnce(beats: seq<Beat>, cfg: XidConfig, ch: Chance, b: Beat)
    requires Fair(ch) && cfg.codes != []
    ensures Run(beats, cfg, ch).seeded <==> beats != []
    ensures TickOf(Run(beats, cfg, ch), b, cfg, ch).initial
            == if beats == [] then InitialEvents(b.uuids, cfg.initial, b.now) else []
  {
  }

  // ---------------------------------------------------------------- nothing moves back

  ghost predicate Bounded(xids: Xids, bound: int) {
    forall u, x :: StatOf(xids, u, x).Some? ==> StatOf(xids, u, x).value.last <= bound
  }

  lemma {:induction false} BumpsStayBounded(xids: Xids, events: seq<Event>, bound: int)
    requires Bounded(xids, bound) && forall i :: 0 <= i < |events| ==> events[i].at <= bound
    ensures Bounded(BumpedAll(xids, events), bound)
    decreases |events|
  {
    if events != [] {
      var n := |events| - 1;
      BumpsStayBounded(xids, events[..n], bound);
      var before, e := BumpedAll(xids, events[..n]), events[n];
      forall u, x | StatOf(Bumped(before, e), u, x).Some?
        ensures StatOf(Bumped(before, e), u, x).value.last <= bound
      {
        OneBump(before, e, u, x);
      }
    }
  }

  lemma OneBump(xids: Xids, e: Event, u: string, x: nat)
    ensures StatOf(Bumped(xids, e), u, x)
            == if u == e.uuid && x == e.xid then Some(Stat(CountOf(xids, u, x) + e.count, e.at)) else StatOf(xids, u, x)
  {
  }

  /** No pair's last-seen time is later than its new one. */
  ghost predicate Forward(before: Xids, after: Xids) {
    forall u, x :: StatOf(before, u, x).Some? ==>
      StatOf(after, u, x).Some? && StatOf(before, u, x).value.last <= StatOf(after, u, x).value.last
  }

  lemma {:induction false} BumpsMoveForward(xids: Xids, events: seq<Event>, low: int)
    requires Bounded(xids, low) && (forall i :: 0 <= i < |events| ==> low <= events[i].at)
    requires forall i, j :: 0 <= i <= j < |events| ==> events[i].at <= events[j].at
    ensures Forward(xids, BumpedAll(xids, events))
    ensures events != [] ==> Bounded(BumpedAll(xids, events), events[|events| - 1].at)
    decreases |events|
  {
    if events != [] {
      var n := |events| - 1;
      BumpsMoveForward(xids, events[..n], low);
      var before, e := BumpedAll(xids, events[..n]), events[n];
      forall u, x
        ensures StatOf(xids, u, x).Some? ==> StatOf(Bumped(before, e), u, x).Some?
        ensures StatOf(xids, u, x).Some? ==> StatOf(xids, u, x).value.last <= StatOf(Bumped(before, e), u, x).value.last
        ensures StatOf(Bumped(before, e), u, x).Some? ==> StatOf(Bumped(before, e), u, x).value.last <= e.at
      {
        OneBump(before, e, u, x);
      }
    }
  }

  /** The emitter between ticks, its clock not past `clock`: nothing was seen later than the next slot, or than the clock. */
  ghost predicate Settled(e: Emitter, clock: int) {
    Bounded(e.xids, if e.nextAt.Some? then e.nextAt.value else clock)
  }

  lemma InitialAt(uuids: seq<string>, initial: seq<Initial>, now: int)
    ensures forall i :: 0 <= i < |InitialEvents(uuids, initial, now)| ==> InitialEvents(uuids, initial, now)[i].at == now
    decreases |initial|
  {
    if initial != [] {
      InitialAt(uuids, initial[..|initial| - 1], now);
    }
  }

  /** Initial events come before any schedule. */
  ghost predicate Ordered(e: Emitter) { !e.seeded ==> e.nextAt.None? && e.xids == map[] }

  lemma SeedMovesForward(e: Emitter, uuids: seq<string>, cfg: XidConfig, clock: int, now: int)
    requires Settled(e, clock) && clock <= now && Ordered(e)
    ensures var initial := if e.seeded then [] else InitialEvents(uuids, cfg.initial, now);
            Forward(e.xids, BumpedAll(e.xids, initial))
            && Bounded(BumpedAll(e.xids, initial), if e.nextAt.Some? then e.nextAt.value else now)
  {
    if !e.seeded {
      InitialAt(uuids, cfg.initial, now);
      BumpsStayBounded(e.xids, InitialEvents(uuids, cfg.initial, now), now);
    }
  }

  lemma ForwardChains(a: Xids, b: Xids, c: Xids)
    requires Forward(a, b) && Forward(b, c)
    ensures Forward(a, c)
  {
  }

  /** The catch-up, from a state in which nothing was seen after the slot it starts at. */
  lemma CatchUpMovesForward(xids: Xids, start: CatchUp, uuids: seq<string>, cfg: XidConfig, now: int, gap: Gap, ch: Chance)
    requires Fair(ch) && cfg.codes != [] && uuids != [] && start.events == [] && Bounded(xids, start.nextAt)
    ensures var c := CaughtUp(start, uuids, cfg.codes, gap, now, ch, BURST);
            && Forward(xids, BumpedAll(xids, c.events)) && Bounded(BumpedAll(xids, c.events), c.nextAt) && start.nextAt <= c.nextAt
  {
    CaughtUpIsPast(start, uuids, cfg.codes, gap, now, ch, BURST);
    var c := CaughtUp(start, uuids, cfg.codes, gap, now, ch, BURST);
    BumpsMoveForward(xids, c.events, start.nextAt);
    BoundedUp(xids, start.nextAt, c.nextAt);
    BumpsStayBounded(xids, c.events, c.nextAt);
  }

  /** The ongoing part of a tick, behind whatever history was applied. */
  lemma OngoingMovesForward(e: Emitter, seeded: Xids, uuids: seq<string>, cfg: XidConfig, now: int, gap: Gap, ch: Chance)
    requires Fair(ch) && cfg.codes != [] && uuids != []
    requires Bounded(seeded, if e.nextAt.Some? then e.nextAt.value else now)
    ensures var c := Slots(e, uuids, cfg, now, gap, ch);
            var next := Forgiven(c, now, gap).nextAt;
            && Forward(seeded, BumpedAll(seeded, c.events)) && Bounded(BumpedAll(seeded, c.events), next)
            && (e.nextAt.Some? ==> e.nextAt.value <= next)
  {
    var start := Start(e, now, gap);
    BoundedUp(seeded, if e.nextAt.Some? then e.nextAt.value else now, start.nextAt);
    CatchUpMovesForward(seeded, start, uuids, cfg, now, gap, ch);
    var c := CaughtUp(start, uuids, cfg.codes, gap, now, ch, BURST);
    BoundedUp(BumpedAll(seeded, c.events), c.nextAt, Forgiven(c, now, gap).nextAt);
  }

  /** One tick moves neither the schedule nor any last-seen time back, as long as the clock does not run back. */
  lemma TickMovesForward(e: Emitter, uuids: seq<string>, cfg: XidConfig, clock: int, now: int, ch: Chance)
    requires Fair(ch) && cfg.codes != [] && Settled(e, clock) && clock <= now && Ordered(e)
    ensures var t := Tick(e, uuids, cfg, now, ch).emitter;
            && Settled(t, now) && Ordered(t) && Forward(e.xids, t.xids)
            && (e.nextAt.Some? ==> t.nextAt.Some? && e.nextAt.value <= t.nextAt.value)
  {
    SeedMovesForward(e, uuids, cfg, clock, now);
    if cfg.interval > 0 && uuids != [] {
      var seeded, gap := Seeded(e, uuids, cfg, now), GapOf(cfg.interval, ch);
      OngoingMovesForward(seeded, seeded.xids, uuids, cfg, now, gap, ch);
      ForwardChains(e.xids, seeded.xids, Ongoing(seeded, uuids, cfg, now, gap, ch).xids);
    }
  }

  lemma BoundedUp(xids: Xids, low: int, high: int)
    requires Bounded(xids, low) && low <= high
    ensures Bounded(xids, high)
  {
  }

  ghost predicate Clocked(beats: seq<Beat>) { forall i, j :: 0 <= i <= j < |beats| ==> beats[i].now <= beats[j].now }

  lemma {:induction false} RunSettles(beats: seq<Beat>, cfg: XidConfig, ch: Chance)
    requires Fair(ch) && cfg.codes != [] && Clocked(beats) && beats != []
    ensures Settled(Run(beats, cfg, ch), beats[|beats| - 1].now) && Ordered(Run(beats, cfg, ch))
    decreases |beats|
  {
    var n := |beats| - 1;
    var before := Run(beats[..n], cfg, ch).(rng := beats[n].drawn);
    if n > 0 {
      RunSettles(beats[..n], cfg, ch);
      TickMovesForward(before, beats[n].uuids, cfg, beats[n - 1].now, beats[n].now, ch);
    } else {
      TickMovesForward(before, beats[n].uuids, cfg, beats[n].now, beats[n].now, ch);
    }
  }

  /** Over any run under a clock that does not run back, the schedule and every last-seen time only move forward. */
  lemma NothingMovesBack(beats: seq<Beat>, next: Beat, cfg: XidConfig, ch: Chance)
    requires Fair(ch) && cfg.codes != [] && Clocked(beats + [next])
    ensures var before, after := Run(beats, cfg, ch), Run(beats + [next], cfg, ch);
            Forward(before.xids, after.xids)
            && (before.nextAt.Some? ==> after.nextAt.Some? && before.nextAt.value <= after.nextAt.value)
  {
    var all := beats + [next];
    assert all[..|beats|] == beats && all[|beats|] == next;
    if beats != [] {
      assert forall i :: 0 <= i < |beats| ==> all[i] == beats[i];
      RunSettles(beats, cfg, ch);
      TickMovesForward(Run(beats, cfg, ch).(rng := next.drawn), next.uuids, cfg, beats[|beats| - 1].now, next.now, ch);
    }
  }
}
