/**
 The state the demo keeps between cycles and what a cycle makes of it: energy, MIG readings and XID events. Times are
 nanoseconds, the draws of the one random source are numbered, and counters do not wrap.
 */
module Synth {
  import opened Basics
  import opened Numerals
  import opened MigKeys

  // ---------------------------------------------------------------- energy

  datatype Meter = Meter(joules: real, lastPower: real, lastAt: int)

  type Meters = map<string, Meter>

  datatype EnergyCounter = EnergyCounter(uuid: string, joules: real)

  const SECOND_REAL: real := 1_000_000_000.0

  /** The area of one interval under the power curve; a clock that does not advance adds nothing. */
  function Area(from_: real, to: real, start: int, end: int): real {
    if end > start then (from_ + to) / 2.0 * ((end - start) as real / SECOND_REAL) else 0.0
  }

  /** One cycle's samples. */
  datatype Sampled = Sampled(uuids: seq<string>, power: map<string, real>, fallback: real, now: int)

  function Watts(c: Sampled, uuid: string): real { if uuid in c.power then c.power[uuid] else c.fallback }

  /** A meter after one more sample; the first emits zero. */
  function Metered(meters: Meters, c: Sampled, uuid: string): Meter {
    var watts := Watts(c, uuid);
    if uuid in meters then
      var m := meters[uuid];
      Meter(m.joules + Area(m.lastPower, watts, m.lastAt, c.now), watts, c.now)
    else Meter(0.0, watts, c.now)
  }

  /** The meters after the first n GPUs of a cycle. */
  function MeteredUpTo(meters: Meters, c: Sampled, n: nat): Meters
    requires n <= |c.uuids|
    decreases n
  {
    if n == 0 then meters
    else
      var earlier := MeteredUpTo(meters, c, n - 1);
      earlier[c.uuids[n - 1] := Metered(earlier, c, c.uuids[n - 1])]
  }

  /** synthEnergy's effect: every served GPU sampled, the others gone. */
  function EnergyCycle(meters: Meters, c: Sampled): Meters {
    var all := MeteredUpTo(meters, c, |c.uuids|);
    map u | u in all && u in c.uuids :: all[u]
  }

  /** The counters served for the first n GPUs of a cycle. */
  function Counters(meters: Meters, c: Sampled, n: nat): (s: seq<EnergyCounter>)
    requires n <= |c.uuids|
    ensures |s| == n
    decreases n
  {
    if n == 0 then []
    else
      var uuid := c.uuids[n - 1];
      Counters(meters, c, n - 1) + [EnergyCounter(uuid, Metered(MeteredUpTo(meters, c, n - 1), c, uuid).joules)]
  }

  /** Every run of cycles since the last reset. */
  function EnergyRun(cycles: seq<Sampled>): Meters
    decreases |cycles|
  {
    if cycles == [] then map[] else EnergyCycle(EnergyRun(cycles[..|cycles| - 1]), cycles[|cycles| - 1])
  }

  /** When a GPU last entered: the start of the cycles that all serve it, up to the end. */
  function EnteredAt(cycles: seq<Sampled>, uuid: string): (k: nat)
    requires cycles != [] && uuid in cycles[|cycles| - 1].uuids
    ensures k < |cycles| && forall i :: k <= i < |cycles| ==> uuid in cycles[i].uuids
    ensures k > 0 ==> uuid !in cycles[k - 1].uuids
    decreases |cycles|
  {
    var n := |cycles| - 1;
    if n > 0 && uuid in cycles[n - 1].uuids then EnteredAt(cycles[..n], uuid) else n
  }

  /** The trapezoid sum of a GPU's samples from cycle k to cycle n. */
  function Trapezoids(cycles: seq<Sampled>, uuid: string, k: nat, n: nat): real
    requires k <= n < |cycles|
    decreases n
  {
    if n == k then 0.0
    else
      Trapezoids(cycles, uuid, k, n - 1)
      + Area(Watts(cycles[n - 1], uuid), Watts(cycles[n], uuid), cycles[n - 1].now, cycles[n].now)
  }

  lemma {:induction false} MeteredOnce(meters: Meters, c: Sampled, n: nat, uuid: string)
    requires n <= |c.uuids| && Distinct(c.uuids)
    ensures uuid in c.uuids[..n] ==>
              uuid in MeteredUpTo(meters, c, n) && MeteredUpTo(meters, c, n)[uuid] == Metered(meters, c, uuid)
    ensures uuid !in c.uuids[..n] ==>
              (uuid in MeteredUpTo(meters, c, n) <==> uuid in meters)
              && (uuid in meters ==> MeteredUpTo(meters, c, n)[uuid] == meters[uuid])
    decreases n
  {
    if n > 0 {
      MeteredOnce(meters, c, n - 1, uuid);
      assert c.uuids[..n] == c.uuids[..n - 1] + [c.uuids[n - 1]];
      assert c.uuids[n - 1] !in c.uuids[..n - 1];
      if uuid == c.uuids[n - 1] {
        assert Metered(MeteredUpTo(meters, c, n - 1), c, uuid) == Metered(meters, c, uuid);
      }
    }
  }

  /** One cycle, GPU by GPU. */
  lemma EnergyCycleIs(meters: Meters, c: Sampled)
    requires Distinct(c.uuids)
    ensures forall u :: u in EnergyCycle(meters, c) <==> u in c.uuids
    ensures forall u :: u in c.uuids ==> EnergyCycle(meters, c)[u] == Metered(meters, c, u)
  {
    assert c.uuids[..|c.uuids|] == c.uuids;
    forall u
      ensures u in EnergyCycle(meters, c) <==> u in c.uuids
      ensures u in c.uuids ==> EnergyCycle(meters, c)[u] == Metered(meters, c, u)
    {
      MeteredOnce(meters, c, |c.uuids|, u);
    }
  }

  /** The served counters are the meters the cycle leaves. */
  lemma {:induction false} CountersShowTheMeters(meters: Meters, c: Sampled, n: nat, i: nat)
    requires Distinct(c.uuids) && i < n <= |c.uuids|
    ensures c.uuids[i] in EnergyCycle(meters, c)
    ensures Counters(meters, c, n)[i] == EnergyCounter(c.uuids[i], EnergyCycle(meters, c)[c.uuids[i]].joules)
    decreases n
  {
    EnergyCycleIs(meters, c);
    if i < n - 1 {
      CountersShowTheMeters(meters, c, n - 1, i);
    } else {
      MeteredOnce(meters, c, i, c.uuids[i]);
      assert c.uuids[i] !in c.uuids[..i];
    }
  }

  lemma TrapezoidsOfPrefix(cycles: seq<Sampled>, uuid: string, k: nat, n: nat, m: nat)
    requires k <= n < m <= |cycles|
    ensures Trapezoids(cycles[..m], uuid, k, n) == Trapezoids(cycles, uuid, k, n)
    decreases n
  {
    if n > k {
      TrapezoidsOfPrefix(cycles, uuid, k, n - 1, m);
    }
  }

  /**
   Over any run of cycles since a reset, the metered GPUs are exactly the served ones, and each one's joules are the
   trapezoid sum of its samples since it last entered.
   */
  lemma {:induction false} EnergyIsTheTrapezoidSum(cycles: seq<Sampled>, uuid: string)
    requires cycles != [] && forall i :: 0 <= i < |cycles| ==> Distinct(cycles[i].uuids)
    ensures uuid in EnergyRun(cycles) <==> uuid in cycles[|cycles| - 1].uuids
    ensures uuid in EnergyRun(cycles) ==>
              EnergyRun(cycles)[uuid] == Meter(Trapezoids(cycles, uuid, EnteredAt(cycles, uuid), |cycles| - 1),
                                               Watts(cycles[|cycles| - 1], uuid), cycles[|cycles| - 1].now)
    decreases |cycles|
  {
    var n := |cycles| - 1;
    EnergyCycleIs(EnergyRun(cycles[..n]), cycles[n]);
    if n > 0 {
      EnergyIsTheTrapezoidSum(cycles[..n], uuid);
      if uuid in cycles[n].uuids && uuid in cycles[n - 1].uuids {
        var k := EnteredAt(cycles[..n], uuid);
        TrapezoidsOfPrefix(cycles, uuid, k, n - 1, n);
      }
    }
  }

  lemma AreaIs(area: real, a: real, b: real, start: int, end: int)
    requires IsArea(area, a, b, start, end)
    ensures end > start ==> 2.0 * 1000000000.0 * area == (a + b) * (end - start) as real
    ensures end <= start ==> area == 0.0
  {
    if end > start {
      var t := (end - start) as real;
      Scale(a + b, t);
    }
  }

  lemma Scale(w: real, t: real)
    ensures 2.0 * 1000000000.0 * (w / 2.0 * (t / 1000000000.0)) == w * t
  {
    assert w / 2.0 == w * 0.5 && t / 1000000000.0 == t * 0.000000001;
    assert w * 0.5 * (t * 0.000000001) == w * t * 0.5 * 0.000000001;
  }

  /**
   One more cycle of a served GPU: while the clock advances the counter grows by the mean of the two power draws over the
   time between them, otherwise it stays; and a GPU that just entered starts at zero.
   */
  lemma EachIntervalIsATrapezoid(cycles: seq<Sampled>, uuid: string, p0: real, p1: real, t0: int, t1: int)
    requires |cycles| >= 2 && forall i :: 0 <= i < |cycles| ==> Distinct(cycles[i].uuids)
    requires var c0, c1 := cycles[|cycles| - 2], cycles[|cycles| - 1];
             && uuid in c0.uuids && uuid in c1.uuids && t0 == c0.now && t1 == c1.now
             && p0 == (if uuid in c0.power then c0.power[uuid] else c0.fallback)
             && p1 == (if uuid in c1.power then c1.power[uuid] else c1.fallback)
    ensures uuid in EnergyRun(cycles[..|cycles| - 1]) && uuid in EnergyRun(cycles)
    ensures var before, after := EnergyRun(cycles[..|cycles| - 1])[uuid].joules, EnergyRun(cycles)[uuid].joules;
            && (t1 > t0 ==> 2.0 * 1000000000.0 * (after - before) == (p0 + p1) * (t1 - t0) as real)
            && (t1 <= t0 ==> after == before)
  {
    var area := OneMoreSample(cycles, uuid, p0, p1, t0, t1);
    AreaIs(area, p0, p1, t0, t1);
    Grown(EnergyRun(cycles[..|cycles| - 1])[uuid].joules, EnergyRun(cycles)[uuid].joules, area);
  }

  lemma Grown(before: real, after: real, area: real)
    requires after == before + area
    ensures 2.0 * 1000000000.0 * area == 2.0 * 1000000000.0 * (after - before)
  {
  }

  lemma OneMoreSample(cycles: seq<Sampled>, uuid: string, p0: real, p1: real, t0: int, t1: int) returns (area: real)
    requires |cycles| >= 2 && forall i :: 0 <= i < |cycles| ==> Distinct(cycles[i].uuids)
    requires var c0, c1 := cycles[|cycles| - 2], cycles[|cycles| - 1];
             && uuid in c0.uuids && uuid in c1.uuids && t0 == c0.now && t1 == c1.now
             && p0 == Watts(c0, uuid) && p1 == Watts(c1, uuid)
    ensures uuid in EnergyRun(cycles[..|cycles| - 1]) && uuid in EnergyRun(cycles)
    ensures IsArea(area, p0, p1, t0, t1)
    ensures EnergyRun(cycles)[uuid].joules == EnergyRun(cycles[..|cycles| - 1])[uuid].joules + area
  {
    var n := |cycles| - 1;
    var front := cycles[..n];
    assert front[n - 1] == cycles[n - 1];
    EnergyIsTheTrapezoidSum(front, uuid);
    EnergyCycleIs(EnergyRun(front), cycles[n]);
    area := Area(p0, p1, t0, t1);
  }

  predicate IsArea(area: real, a: real, b: real, start: int, end: int) { area == Area(a, b, start, end) }

  lemma EntersAtZero(cycles: seq<Sampled>, uuid: string)
    requires cycles != [] && forall i :: 0 <= i < |cycles| ==> Distinct(cycles[i].uuids)
    requires uuid in cycles[|cycles| - 1].uuids && (|cycles| == 1 || uuid !in cycles[|cycles| - 2].uuids)
    ensures uuid in EnergyRun(cycles) && EnergyRun(cycles)[uuid].joules == 0.0
  {
    EnergyIsTheTrapezoidSum(cycles, uuid);
  }

  /** The power a GPU draws in a cycle lies between two bounds. */
  predicate DrawsWithin(c: Sampled, uuid: string, low: real, high: real) {
    low <= (if uuid in c.power then c.power[uuid] else c.fallback) <= high
  }

  /** A GPU stays from cycle k on, under a clock that does not run back. */
  ghost predicate Stays(cycles: seq<Sampled>, uuid: string, k: nat) {
    && k < |cycles| && (k > 0 ==> uuid !in cycles[k - 1].uuids)
    && (forall i :: k <= i < |cycles| ==> uuid in cycles[i].uuids)
    && (forall i, j :: k <= i <= j < |cycles| ==> cycles[i].now <= cycles[j].now)
  }

  ghost predicate Between(joules: real, low: real, high: real, time: int) {
    low * time as real <= 1000000000.0 * joules <= high * time as real
  }

  predicate Trapezoid(before: real, after: real, p0: real, p1: real, time: int) {
    && (time > 0 ==> 2.0 * 1000000000.0 * (after - before) == (p0 + p1) * time as real)
    && (time <= 0 ==> after == before)
  }

  lemma LastInterval(cycles: seq<Sampled>, uuid: string, p0: real, p1: real, t0: int, t1: int, time: int)
    requires |cycles| >= 2 && forall i :: 0 <= i < |cycles| ==> Distinct(cycles[i].uuids)
    requires var c0, c1 := cycles[|cycles| - 2], cycles[|cycles| - 1];
             && uuid in c0.uuids && uuid in c1.uuids && t0 == c0.now && t1 == c1.now && time == t1 - t0
             && p0 == Watts(c0, uuid) && p1 == Watts(c1, uuid)
    ensures uuid in EnergyRun(cycles[..|cycles| - 1]) && uuid in EnergyRun(cycles)
    ensures Trapezoid(EnergyRun(cycles[..|cycles| - 1])[uuid].joules, EnergyRun(cycles)[uuid].joules, p0, p1, time)
  {
    var area := OneMoreSample(cycles, uuid, p0, p1, t0, t1);
    AreaIsTrapezoid(EnergyRun(cycles[..|cycles| - 1])[uuid].joules, EnergyRun(cycles)[uuid].joules, area, p0, p1, t0, t1, time);
  }

  lemma AreaIsTrapezoid(before: real, after: real, area: real, p0: real, p1: real, t0: int, t1: int, time: int)
    requires IsArea(area, p0, p1, t0, t1) && after == before + area && time == t1 - t0
    ensures Trapezoid(before, after, p0, p1, time)
  {
    AreaIs(area, p0, p1, t0, t1);
    Grown(before, after, area);
  }

  /** What an interval does to a counter, as a value. */
  type Interval = (real, real, real, real, int) -> bool

  function IntervalOf(): Interval { (before, after, p0, p1, time) => Trapezoid(before, after, p0, p1, time) }

  /** A GPU's stay in numbers: its counter, its power and the time, cycle by cycle. */
  ghost predicate InNumbers(joules: seq<real>, power: seq<real>, times: seq<int>, step: Interval) {
    && |joules| == |power| == |times| > 0 && joules[0] == 0.0
    && (forall i: nat :: i < |joules| - 1 ==> StepInNumbers(joules, power, times, step, i))
  }

  ghost predicate StepInNumbers(joules: seq<real>, power: seq<real>, times: seq<int>, step: Interval, i: nat)
    requires i < |joules| - 1 && |joules| == |power| == |times|
  {
    times[i] <= times[i + 1] && step(joules[i], joules[i + 1], power[i], power[i + 1], times[i + 1] - times[i])
  }

  lemma {:induction false} NumbersBetween(joules: seq<real>, power: seq<real>, times: seq<int>, low: real, high: real, n: nat)
    requires InNumbers(joules, power, times, IntervalOf()) && n < |joules|
    requires forall i :: 0 <= i < |power| ==> low <= power[i] <= high
    ensures times[0] <= times[n] && Between(joules[n], low, high, times[n] - times[0])
    decreases n
  {
    if n > 0 {
      NumbersBetween(joules, power, times, low, high, n - 1);
      assert StepInNumbers(joules, power, times, IntervalOf(), n - 1);
      OneMoreInterval(joules[n - 1], joules[n], power[n - 1], power[n], low, high, times[n - 1] - times[0], times[n] - times[n - 1]);
    }
  }

  /** A GPU's counter after the first m cycles; zero where it is not served. */
  function JoulesAfter(cycles: seq<Sampled>, uuid: string, m: nat): real
    requires m <= |cycles|
  {
    var meters := EnergyRun(cycles[..m]);
    if uuid in meters then meters[uuid].joules else 0.0
  }

  lemma StayStep(cycles: seq<Sampled>, uuid: string, k: nat, m: nat, step: Interval)
    requires (forall i :: 0 <= i < |cycles| ==> Distinct(cycles[i].uuids)) && Stays(cycles, uuid, k) && k < m < |cycles|
    requires step == IntervalOf()
    ensures step(JoulesAfter(cycles, uuid, m), JoulesAfter(cycles, uuid, m + 1),
                 Watts(cycles[m - 1], uuid), Watts(cycles[m], uuid), cycles[m].now - cycles[m - 1].now)
  {
    var upTo := cycles[..m + 1];
    assert upTo[..m] == cycles[..m];
    LastInterval(upTo, uuid, Watts(cycles[m - 1], uuid), Watts(cycles[m], uuid), cycles[m - 1].now, cycles[m].now,
                 cycles[m].now - cycles[m - 1].now);
  }

  lemma StayStarts(cycles: seq<Sampled>, uuid: string, k: nat)
    requires (forall i :: 0 <= i < |cycles| ==> Distinct(cycles[i].uuids)) && Stays(cycles, uuid, k)
    ensures JoulesAfter(cycles, uuid, k + 1) == 0.0
  {
    EntersAtZero(cycles[..k + 1], uuid);
  }

  lemma StayEnds(cycles: seq<Sampled>, uuid: string)
    requires cycles != [] && (forall i :: 0 <= i < |cycles| ==> Distinct(cycles[i].uuids)) && uuid in cycles[|cycles| - 1].uuids
    ensures uuid in EnergyRun(cycles) && JoulesAfter(cycles, uuid, |cycles|) == EnergyRun(cycles)[uuid].joules
  {
    EnergyIsTheTrapezoidSum(cycles, uuid);
    assert cycles[..|cycles|] == cycles;
  }

  function JoulesOf(cycles: seq<Sampled>, uuid: string, k: nat): (s: seq<real>)
    requires k <= |cycles|
    ensures |s| == |cycles| - k
  {
    seq(|cycles| - k, i requires 0 <= i < |cycles| - k => JoulesAfter(cycles, uuid, k + i + 1))
  }

  function PowerOf(cycles: seq<Sampled>, uuid: string, k: nat): (s: seq<real>)
    requires k <= |cycles|
    ensures |s| == |cycles| - k
  {
    seq(|cycles| - k, i requires 0 <= i < |cycles| - k => Watts(cycles[k + i], uuid))
  }

  function TimesOf(cycles: seq<Sampled>, k: nat): (s: seq<int>)
    requires k <= |cycles|
    ensures |s| == |cycles| - k
  {
    seq(|cycles| - k, i requires 0 <= i < |cycles| - k => cycles[k + i].now)
  }

  lemma StayInNumbers(cycles: seq<Sampled>, uuid: string, k: nat, step: Interval)
    requires (forall i :: 0 <= i < |cycles| ==> Distinct(cycles[i].uuids)) && Stays(cycles, uuid, k) && step == IntervalOf()
    ensures InNumbers(JoulesOf(cycles, uuid, k), PowerOf(cycles, uuid, k), TimesOf(cycles, k), step)
  {
    StayStarts(cycles, uuid, k);
    forall i: nat | i < |cycles| - k - 1
      ensures StepInNumbers(JoulesOf(cycles, uuid, k), PowerOf(cycles, uuid, k), TimesOf(cycles, k), step, i)
    {
      StayStepAt(cycles, uuid, k, i, step);
    }
  }

  lemma StayStepAt(cycles: seq<Sampled>, uuid: string, k: nat, i: nat, step: Interval)
    requires (forall i :: 0 <= i < |cycles| ==> Distinct(cycles[i].uuids)) && Stays(cycles, uuid, k) && step == IntervalOf()
    requires i < |cycles| - k - 1
    ensures StepInNumbers(JoulesOf(cycles, uuid, k), PowerOf(cycles, uuid, k), TimesOf(cycles, k), step, i)
  {
    var m := k + i + 1;
    StayStep(cycles, uuid, k, m, step);
    assert cycles[m - 1].now <= cycles[m].now;
  }

  lemma StayBetween(cycles: seq<Sampled>, uuid: string, k: nat, low: real, high: real, joules: real, time: int)
    requires (forall i :: 0 <= i < |cycles| ==> Distinct(cycles[i].uuids)) && Stays(cycles, uuid, k)
    requires forall i :: k <= i < |cycles| ==> DrawsWithin(cycles[i], uuid, low, high)
    requires joules == JoulesAfter(cycles, uuid, |cycles|) && time == cycles[|cycles| - 1].now - cycles[k].now
    ensures Between(joules, low, high, time)
  {
    var power := PowerOf(cycles, uuid, k);
    forall i | 0 <= i < |power|
      ensures low <= power[i] <= high
    {
      assert DrawsWithin(cycles[k + i], uuid, low, high) && power[i] == Watts(cycles[k + i], uuid);
    }
    StayInNumbers(cycles, uuid, k, IntervalOf());
    NumbersBetween(JoulesOf(cycles, uuid, k), power, TimesOf(cycles, k), low, high, |power| - 1);
    assert JoulesOf(cycles, uuid, k)[|power| - 1] == joules;
  }

  /**
   Over a whole stay at a power between two bounds, the energy lies between what the two would have used; so at a constant
   power it is that power times the time.
   */
  lemma EnergyOfAStay(cycles: seq<Sampled>, uuid: string, k: nat, low: real, high: real) returns (joules: real, time: int)
    requires (forall i :: 0 <= i < |cycles| ==> Distinct(cycles[i].uuids)) && Stays(cycles, uuid, k)
    requires forall i :: k <= i < |cycles| ==> DrawsWithin(cycles[i], uuid, low, high)
    ensures uuid in EnergyRun(cycles) && joules == EnergyRun(cycles)[uuid].joules
    ensures time == cycles[|cycles| - 1].now - cycles[k].now
    ensures low * time as real <= 1000000000.0 * joules <= high * time as real
  {
    joules, time := JoulesAfter(cycles, uuid, |cycles|), cycles[|cycles| - 1].now - cycles[k].now;
    StayEnds(cycles, uuid);
    StayBetween(cycles, uuid, k, low, high, joules, time);
  }

  lemma EnergyOfASteadyStay(cycles: seq<Sampled>, uuid: string, k: nat, power: real) returns (joules: real, time: int)
    requires (forall i :: 0 <= i < |cycles| ==> Distinct(cycles[i].uuids)) && Stays(cycles, uuid, k)
    requires forall i :: k <= i < |cycles| ==> DrawsWithin(cycles[i], uuid, power, power)
    ensures uuid in EnergyRun(cycles) && joules == EnergyRun(cycles)[uuid].joules
    ensures time == cycles[|cycles| - 1].now - cycles[k].now
    ensures 1000000000.0 * joules == power * time as real
  {
    joules, time := EnergyOfAStay(cycles, uuid, k, power, power);
  }

  lemma OneMoreInterval(before: real, after: real, p0: real, p1: real, low: real, high: real, past: int, more: int)
    requires low <= p0 <= high && low <= p1 <= high && past >= 0 && more >= 0
    requires Between(before, low, high, past)
    requires Trapezoid(before, after, p0, p1, more)
    ensures Between(after, low, high, past + more)
  {
    var t := more as real;
    Product(p0 + p1 - 2.0 * low, t);
    Product(2.0 * high - p0 - p1, t);
    assert (p0 + p1 - 2.0 * low) * t == (p0 + p1) * t - 2.0 * (low * t);
    assert (2.0 * high - p0 - p1) * t == 2.0 * (high * t) - (p0 + p1) * t;
    assert low * (past + more) as real == low * past as real + low * t;
    assert high * (past + more) as real == high * past as real + high * t;
  }

  lemma AreaNotNegative(a: real, b: real, start: int, end: int)
    requires a >= 0.0 && b >= 0.0
    ensures Area(a, b, start, end) >= 0.0
  {
    if end > start {
      var half, seconds := (a + b) / 2.0, (end - start) as real / SECOND_REAL;
      assert half >= 0.0 && seconds >= 0.0;
      assert half * seconds >= 0.0;
    }
  }

  /** With no negative power a GPU's counter never runs back while it stays served. */
  lemma EnergyNeverRunsBack(cycles: seq<Sampled>, next: Sampled, uuid: string)
    requires cycles != [] && (forall i :: 0 <= i < |cycles| ==> Distinct(cycles[i].uuids)) && Distinct(next.uuids)
    requires uuid in cycles[|cycles| - 1].uuids && uuid in next.uuids
    requires Watts(cycles[|cycles| - 1], uuid) >= 0.0 && Watts(next, uuid) >= 0.0
    ensures uuid in EnergyRun(cycles) && uuid in EnergyRun(cycles + [next])
    ensures EnergyRun(cycles + [next])[uuid].joules >= EnergyRun(cycles)[uuid].joules
  {
    var all := cycles + [next];
    assert all[..|cycles|] == cycles;
    EnergyIsTheTrapezoidSum(cycles, uuid);
    EnergyCycleIs(EnergyRun(cycles), next);
    AreaNotNegative(Watts(cycles[|cycles| - 1], uuid), Watts(next, uuid), cycles[|cycles| - 1].now, next.now);
  }

  /** What a served counter says: the meter before, grown over the interval, or zero for a GPU that just entered. */
  predicate Grows(meters: Meters, c: Sampled, counter: EnergyCounter) {
    var watts := if counter.uuid in c.power then c.power[counter.uuid] else c.fallback;
    if counter.uuid !in meters then counter.joules == 0.0
    else
      var m := meters[counter.uuid];
      Trapezoid(m.joules, counter.joules, m.lastPower, watts, c.now - m.lastAt)
  }

  lemma CountersGrow(meters: Meters, c: Sampled, i: nat)
    requires Distinct(c.uuids) && i < |c.uuids|
    ensures var counter := Counters(meters, c, |c.uuids|)[i]; counter.uuid == c.uuids[i] && Grows(meters, c, counter)
    ensures var m := EnergyCycle(meters, c);
            c.uuids[i] in m && m[c.uuids[i]].lastAt == c.now
            && m[c.uuids[i]].lastPower == (if c.uuids[i] in c.power then c.power[c.uuids[i]] else c.fallback)
  {
    CountersShowTheMeters(meters, c, |c.uuids|, i);
    EnergyCycleIs(meters, c);
    MeteredGrows(meters, c, c.uuids[i]);
  }

  lemma MeteredGrows(meters: Meters, c: Sampled, uuid: string)
    ensures Grows(meters, c, EnergyCounter(uuid, Metered(meters, c, uuid).joules))
  {
    if uuid in meters {
      var m, watts := meters[uuid], Watts(c, uuid);
      AreaIsTrapezoid(m.joules, Metered(meters, c, uuid).joules, Area(m.lastPower, watts, m.lastAt, c.now),
                      m.lastPower, watts, m.lastAt, c.now, c.now - m.lastAt);
    }
  }

  // ---------------------------------------------------------------- MIG

  /** A configured GPU instance. */
  datatype Partition = Partition(gi: nat, profile: string, cis: nat, total: nat, busy: bool)

  datatype GpuTopology = GpuTopology(gpu: int, instances: seq<Partition>)

  datatype Memory = Memory(total: nat, used: nat, free: nat, reserved: nat)

  /** A MIG device; `util` holds graphics, SM, occupancy and tensor activity and the two PCIe rates. */
  datatype Device = Device(
    parent: string, uuid: string, gi: nat, ci: nat, profile: string, memory: Memory, util: Option<seq<real>>)

  /**
   The draws of the one random source a document's seed stands for: unit values from 0 up to but not including 1, and
   picks below a bound.
   */
  datatype Chance = Chance(unit: nat -> real, pick: (nat, nat) -> nat)

  ghost predicate Fair(ch: Chance) {
    && (forall k :: 0.0 <= ch.unit(k) < 1.0)
    && forall k, n: nat :: n > 0 ==> ch.pick(k, n) < n
  }

  datatype Range = Range(low: real, high: real)

  function Draw(r: Range, u: real): real { r.low + u * (r.high - r.low) }

  /** A draw stays within its range. */
  lemma DrawWithin(r: Range, u: real)
    requires r.low <= r.high && 0.0 <= u < 1.0
    ensures r.low <= Draw(r, u) <= r.high
  {
    var width := r.high - r.low;
    Product(u, width);
    Product(1.0 - u, width);
    assert (1.0 - u) * width == width - u * width;
  }

  function UsedShare(busy: bool, u: real): real { Draw(if busy then Range(0.55, 0.90) else Range(0.02, 0.10), u) }

  lemma ShareBelowOne(busy: bool, u: real)
    requires 0.0 <= u < 1.0
    ensures 0.0 <= UsedShare(busy, u) < 1.0
  {
    DrawWithin(if busy then Range(0.55, 0.90) else Range(0.02, 0.10), u);
  }

  lemma ShareOfBytes(share: real, bytes: nat)
    requires 0.0 <= share < 1.0
    ensures 0 <= (share * bytes as real).Floor <= bytes
  {
    Product(share, bytes as real);
    Product(1.0 - share, bytes as real);
    var whole := bytes as real;
    assert (1.0 - share) * whole == whole - share * whole;
  }

  lemma Product(x: real, y: real)
    requires x >= 0.0 && y >= 0.0
    ensures x * y >= 0.0
  {
  }

  /** migMemory: the parts never underflow and always make up the total. */
  function MemoryOf(p: Partition, u: real): (m: Memory)
    requires 0.0 <= u < 1.0
    ensures m.used + m.free + m.reserved == m.total == p.total && m.reserved == p.total / 200
  {
    var reserved := p.total / 200;
    ShareBelowOne(p.busy, u);
    ShareOfBytes(UsedShare(p.busy, u), p.total - reserved);
    var used := (UsedShare(p.busy, u) * (p.total - reserved) as real).Floor;
    Memory(p.total, used, p.total - used - reserved, reserved)
  }

  /** A busy instance uses 55 to 90 percent of what is not reserved, any other one 2 to 10 percent, by one draw. */
  lemma UsedIs(p: Partition, u: real)
    requires 0.0 <= u < 1.0
    ensures p.busy ==> MemoryOf(p, u).used == ((0.55 + u * 0.35) * (p.total - p.total / 200) as real).Floor
    ensures !p.busy ==> MemoryOf(p, u).used == ((0.02 + u * 0.08) * (p.total - p.total / 200) as real).Floor
  {
    assert p.busy ==> UsedShare(p.busy, u) == 0.55 + u * 0.35;
    assert !p.busy ==> UsedShare(p.busy, u) == 0.02 + u * 0.08;
  }

  lemma UsedWithin(p: Partition, u: real)
    requires 0.0 <= u < 1.0
    ensures var bytes := (p.total - p.total / 200) as real;
            if p.busy then 0.55 * bytes - 1.0 < MemoryOf(p, u).used as real <= 0.90 * bytes
            else 0.02 * bytes - 1.0 < MemoryOf(p, u).used as real <= 0.10 * bytes
  {
    var bytes := (p.total - p.total / 200) as real;
    UsedIs(p, u);
    if p.busy {
      PartWithin(MemoryOf(p, u).used, 0.55, 0.35, u, bytes);
    } else {
      PartWithin(MemoryOf(p, u).used, 0.02, 0.08, u, bytes);
    }
  }

  lemma PartWithin(used: nat, low: real, width: real, u: real, bytes: real)
    requires 0.0 <= u < 1.0 && width >= 0.0 && bytes >= 0.0 && used == ((low + u * width) * bytes).Floor
    ensures low * bytes - 1.0 < used as real <= (low + width) * bytes
  {
    ShareWithin(low, width, u, bytes);
  }

  lemma ShareWithin(low: real, width: real, u: real, bytes: real)
    requires 0.0 <= u < 1.0 && width >= 0.0 && bytes >= 0.0
    ensures low * bytes <= (low + u * width) * bytes <= (low + width) * bytes
  {
    Product(u, width);
    Product(u * width, bytes);
    Product(1.0 - u, width);
    assert (1.0 - u) * width == width - u * width;
    Product(width - u * width, bytes);
    assert (low + u * width) * bytes == low * bytes + u * width * bytes;
    assert (low + width) * bytes == (low + u * width) * bytes + (width - u * width) * bytes;
  }

  /** The configured PCIe throughput ranges. */
  datatype Rates = Rates(tx: Range, rx: Range)

  function Activity(busy: bool): Range { if busy then Range(0.7, 1.0) else Range(0.0, 0.05) }

  function Tensor(busy: bool): Range { Range(Activity(busy).low * 0.5, Activity(busy).high * 0.8) }

  function Share(busy: bool): Range { if busy then Range(0.2, 0.6) else Range(0.0, 0.02) }

  function Scaled(r: Range, share: Range): Range { Range(r.low * share.low, r.high * share.high) }

  /** migUtilization: six draws, busy instances hot and the rest idle. */
  function UtilOf(p: Partition, rates: Rates, rng: nat, ch: Chance): (util: seq<real>)
    ensures |util| == 6
  {
    var activity := Activity(p.busy);
    [Draw(activity, ch.unit(rng)), Draw(activity, ch.unit(rng + 1)), Draw(activity, ch.unit(rng + 2)),
     Draw(Tensor(p.busy), ch.unit(rng + 3)),
     Draw(Scaled(rates.tx, Share(p.busy)), ch.unit(rng + 4)), Draw(Scaled(rates.rx, Share(p.busy)), ch.unit(rng + 5))]
  }

  lemma ShareOfRange(r: Range, share: Range)
    requires 0.0 <= r.low <= r.high && 0.0 <= share.low <= share.high <= 1.0
    ensures 0.0 <= Scaled(r, share).low <= Scaled(r, share).high <= r.high
  {
    Product(r.low, share.low);
    Product(r.high - r.low, share.high);
    Product(r.low, share.high - share.low);
    Product(r.high, 1.0 - share.high);
    assert r.high * share.high - r.low * share.low == (r.high - r.low) * share.high + r.low * (share.high - share.low);
    assert r.high * (1.0 - share.high) == r.high - r.high * share.high;
  }

  predicate Sensible(rates: Rates) { 0.0 <= rates.tx.low <= rates.tx.high && 0.0 <= rates.rx.low <= rates.rx.high }

  /** A busy instance runs hot and moves a fifth to three fifths of what a GPU does, any other one is nearly idle. */
  ghost predicate RunsAs(busy: bool, util: seq<real>, rates: Rates) {
    && |util| == 6
    && (forall i :: 0 <= i < 3 ==> if busy then 0.7 <= util[i] <= 1.0 else 0.0 <= util[i] <= 0.05)
    && (if busy then 0.35 <= util[3] <= 0.8 else 0.0 <= util[3] <= 0.04)
    && (if busy then rates.tx.low * 0.2 <= util[4] <= rates.tx.high * 0.6 else 0.0 <= util[4] <= rates.tx.high * 0.02)
    && (if busy then rates.rx.low * 0.2 <= util[5] <= rates.rx.high * 0.6 else 0.0 <= util[5] <= rates.rx.high * 0.02)
  }

  lemma ActivityReads(busy: bool, u: real, v: real)
    requires 0.0 <= u < 1.0 && v == Draw(Activity(busy), u)
    ensures if busy then v == 0.7 + u * 0.3 && 0.7 <= v <= 1.0 else v == u * 0.05 && 0.0 <= v <= 0.05
  {
  }

  lemma TensorReads(busy: bool, u: real, v: real)
    requires 0.0 <= u < 1.0 && v == Draw(Tensor(busy), u)
    ensures if busy then 0.35 <= v <= 0.8 else 0.0 <= v <= 0.04
  {
  }

  lemma RateReads(busy: bool, r: Range, u: real, v: real)
    requires 0.0 <= u < 1.0 && 0.0 <= r.low <= r.high && v == Draw(Scaled(r, Share(busy)), u)
    ensures if busy then r.low * 0.2 <= v <= r.high * 0.6 else 0.0 <= v <= r.high * 0.02
    ensures 0.0 <= v <= r.high
  {
    ShareOfRange(r, Share(busy));
    DrawWithin(Scaled(r, Share(busy)), u);
  }

  /** The activity is drawn afresh for each reading, from the ranges of a busy or an idle instance. */
  lemma UtilizationIsPlausible(p: Partition, rates: Rates, rng: nat, ch: Chance)
    requires Fair(ch) && Sensible(rates)
    ensures var util := UtilOf(p, rates, rng, ch);
            && RunsAs(p.busy, util, rates)
            && (forall i :: 0 <= i < 4 ==> 0.0 <= util[i] <= 1.0)
            && 0.0 <= util[4] <= rates.tx.high && 0.0 <= util[5] <= rates.rx.high
  {
    var util := UtilOf(p, rates, rng, ch);
    ActivityReads(p.busy, ch.unit(rng), util[0]);
    ActivityReads(p.busy, ch.unit(rng + 1), util[1]);
    ActivityReads(p.busy, ch.unit(rng + 2), util[2]);
    TensorReads(p.busy, ch.unit(rng + 3), util[3]);
    RateReads(p.busy, rates.tx, ch.unit(rng + 4), util[4]);
    RateReads(p.busy, rates.rx, ch.unit(rng + 5), util[5]);
  }

  /** Each of the first three readings is in proportion to a draw of its own. */
  lemma ActivityIsDrawn(p: Partition, rates: Rates, rng: nat, ch: Chance, i: nat)
    requires Fair(ch) && i < 3
    ensures UtilOf(p, rates, rng, ch)[i] == if p.busy then 0.7 + ch.unit(rng + i) * 0.3 else ch.unit(rng + i) * 0.05
  {
    ActivityReads(p.busy, ch.unit(rng + i), UtilOf(p, rates, rng, ch)[i]);
  }

  datatype Throughput = Throughput(uuid: string, tx: real, rx: real)

  /** synthPCIe: two draws for each GPU, in order. */
  function Throughputs(uuids: seq<string>, rates: Rates, rng: nat, ch: Chance): (s: seq<Throughput>)
    ensures |s| == |uuids|
  {
    seq(|uuids|, i requires 0 <= i < |uuids| =>
      Throughput(uuids[i], Draw(rates.tx, ch.unit(rng + 2 * i)), Draw(rates.rx, ch.unit(rng + 2 * i + 1))))
  }

  /** Every sample is of its own GPU and within the configured ranges. */
  lemma ThroughputsAreInRange(uuids: seq<string>, rates: Rates, rng: nat, ch: Chance, i: nat)
    requires Fair(ch) && Sensible(rates) && i < |uuids|
    ensures var t := Throughputs(uuids, rates, rng, ch)[i];
            && t.uuid == uuids[i] && rates.tx.low <= t.tx <= rates.tx.high && rates.rx.low <= t.rx <= rates.rx.high
            && t.tx == rates.tx.low + ch.unit(rng + 2 * i) * (rates.tx.high - rates.tx.low)
            && t.rx == rates.rx.low + ch.unit(rng + 2 * i + 1) * (rates.rx.high - rates.rx.low)
  {
    DrawWithin(rates.tx, ch.unit(rng + 2 * i));
    DrawWithin(rates.rx, ch.unit(rng + 2 * i + 1));
  }

  /** One cycle's flattened topology: the partitions served, with their parents. */
  datatype Placed = Placed(parent: string, partition: Partition)

  function PlacedOn(parent: string, instances: seq<Partition>): (s: seq<Placed>)
    ensures |s| == |instances|
  {
    seq(|instances|, i requires 0 <= i < |instances| => Placed(parent, instances[i]))
  }

  /** Entries for GPUs the table does not serve are skipped. */
  function Topology(uuids: seq<string>, mig: seq<GpuTopology>): seq<Placed>
    decreases |mig|
  {
    if mig == [] then []
    else
      var last := mig[|mig| - 1];
      Topology(uuids, mig[..|mig| - 1])
      + if 0 <= last.gpu < |uuids| then PlacedOn(uuids[last.gpu], last.instances) else []
  }

  function KeyOf(p: Placed): string { GiKey(p.parent, Decimal(p.partition.gi)) }

  /** A validated topology: one entry per GPU, one partition per instance id. */
  ghost predicate Validated(mig: seq<GpuTopology>) {
    && (forall i, j :: 0 <= i < j < |mig| ==> mig[i].gpu != mig[j].gpu)
    && forall i :: 0 <= i < |mig| ==> OwnIds(mig[i].instances)
  }

  predicate OwnIds(instances: seq<Partition>) { forall i, j :: 0 <= i < j < |instances| ==> instances[i].gi != instances[j].gi }

  predicate OwnKeys(placed: seq<Placed>) { forall i, j :: 0 <= i < j < |placed| ==> KeyOf(placed[i]) != KeyOf(placed[j]) }

  lemma KeysDiffer(a: Placed, b: Placed)
    requires a.parent != b.parent || a.partition.gi != b.partition.gi
    ensures KeyOf(a) != KeyOf(b)
  {
    DecimalHasNoSlash(a.partition.gi);
    DecimalHasNoSlash(b.partition.gi);
    if KeyOf(a) == KeyOf(b) {
      GiKeyInjective(a.parent, Decimal(a.partition.gi), b.parent, Decimal(b.partition.gi));
      DecimalInjective(a.partition.gi, b.partition.gi);
    }
  }

  /** Every placed partition hangs under a served GPU of some entry. */
  lemma {:induction false} PlacedParents(uuids: seq<string>, mig: seq<GpuTopology>, k: nat)
    requires k < |Topology(uuids, mig)|
    ensures exists i :: 0 <= i < |mig| && 0 <= mig[i].gpu < |uuids| && Topology(uuids, mig)[k].parent == uuids[mig[i].gpu]
    decreases |mig|
  {
    var n := |mig| - 1;
    var front := Topology(uuids, mig[..n]);
    if k < |front| {
      PlacedParents(uuids, mig[..n], k);
      var i :| 0 <= i < n && 0 <= mig[..n][i].gpu < |uuids| && front[k].parent == uuids[mig[..n][i].gpu];
      assert mig[..n][i] == mig[i];
    } else {
      assert Topology(uuids, mig)[k].parent == uuids[mig[n].gpu];
    }
  }

  lemma OwnKeysJoin(a: seq<Placed>, b: seq<Placed>)
    requires OwnKeys(a) && OwnKeys(b)
    requires forall i, j :: 0 <= i < |a| && 0 <= j < |b| ==> KeyOf(a[i]) != KeyOf(b[j])
    ensures OwnKeys(a + b)
  {
  }

  lemma EntryKeysAreOwn(parent: string, instances: seq<Partition>)
    requires OwnIds(instances)
    ensures OwnKeys(PlacedOn(parent, instances))
  {
    var back := PlacedOn(parent, instances);
    forall i, j | 0 <= i < j < |back|
      ensures KeyOf(back[i]) != KeyOf(back[j])
    {
      KeysDiffer(back[i], back[j]);
    }
  }

  lemma LastEntryApart(uuids: seq<string>, mig: seq<GpuTopology>, i: nat, p: Placed)
    requires Distinct(uuids) && Validated(mig) && mig != [] && i < |Topology(uuids, mig[..|mig| - 1])|
    requires 0 <= mig[|mig| - 1].gpu < |uuids| && p.parent == uuids[mig[|mig| - 1].gpu]
    ensures KeyOf(Topology(uuids, mig[..|mig| - 1])[i]) != KeyOf(p)
  {
    var n := |mig| - 1;
    PlacedParents(uuids, mig[..n], i);
    assert forall k :: 0 <= k < n ==> mig[..n][k] == mig[k];
    KeysDiffer(Topology(uuids, mig[..n])[i], p);
  }

  /** In a validated topology over distinct GPUs no instance is visited twice. */
  lemma {:induction false} ValidatedKeysAreOwn(uuids: seq<string>, mig: seq<GpuTopology>)
    requires Distinct(uuids) && Validated(mig)
    ensures OwnKeys(Topology(uuids, mig))
    decreases |mig|
  {
    if mig != [] {
      var n := |mig| - 1;
      var front, last := Topology(uuids, mig[..n]), mig[n];
      assert Validated(mig[..n]);
      ValidatedKeysAreOwn(uuids, mig[..n]);
      if 0 <= last.gpu < |uuids| {
        var back := PlacedOn(uuids[last.gpu], last.instances);
        EntryKeysAreOwn(uuids[last.gpu], last.instances);
        forall i, j | 0 <= i < |front| && 0 <= j < |back|
          ensures KeyOf(front[i]) != KeyOf(back[j])
        {
          LastEntryApart(uuids, mig, i, back[j]);
        }
        OwnKeysJoin(front, back);
        assert Topology(uuids, mig) == front + back;
      }
    }
  }

  function KeyList(placed: seq<Placed>): (keys: seq<string>)
    ensures |keys| == |placed|
  {
    seq(|placed|, i requires 0 <= i < |placed| => KeyOf(placed[i]))
  }

  function SetOf(keys: seq<string>): set<string> { set k | k in keys }

  // ---------------------------------------------------------------- XID events

  datatype Stat = Stat(count: nat, last: int)

  /** One pair's state, by GPU and code. */
  type Xids = map<string, map<nat, Stat>>

  datatype Event = Event(uuid: string, xid: nat, count: nat, at: int)

  function StatOf(xids: Xids, uuid: string, xid: nat): Option<Stat> {
    if uuid in xids && xid in xids[uuid] then Some(xids[uuid][xid]) else None
  }

  /** bumpXID. */
  function Bumped(xids: Xids, e: Event): Xids {
    var perGpu := if e.uuid in xids then xids[e.uuid] else map[];
    var count := if e.xid in perGpu then perGpu[e.xid].count else 0;
    xids[e.uuid := perGpu[e.xid := Stat(count + e.count, e.at)]]
  }

  function BumpedAll(xids: Xids, events: seq<Event>): Xids
    decreases |events|
  {
    if events == [] then xids else Bumped(BumpedAll(xids, events[..|events| - 1]), events[|events| - 1])
  }

  /** What a list of events adds to one pair. */
  function AddedTo(events: seq<Event>, uuid: string, xid: nat): nat
    decreases |events|
  {
    if events == [] then 0
    else
      var e := events[|events| - 1];
      AddedTo(events[..|events| - 1], uuid, xid) + if e.uuid == uuid && e.xid == xid then e.count else 0
  }

  function CountOf(xids: Xids, uuid: string, xid: nat): nat {
    var s := StatOf(xids, uuid, xid);
    if s.Some? then s.value.count else 0
  }

  /** Every pair's count grows by exactly what was emitted for it. */
  lemma {:induction false} CountsAreExact(xids: Xids, events: seq<Event>, uuid: string, xid: nat)
    ensures CountOf(BumpedAll(xids, events), uuid, xid) == CountOf(xids, uuid, xid) + AddedTo(events, uuid, xid)
    decreases |events|
  {
    if events != [] {
      CountsAreExact(xids, events[..|events| - 1], uuid, xid);
    }
  }

  /** The schedule: when the next event is due, nanoseconds, once there is one. */
  datatype Emitter = Emitter(xids: Xids, seeded: bool, nextAt: Option<int>, rng: nat)

  datatype Initial = Initial(gpu: int, xid: nat, count: nat)

  /** The initial events that resolve against the served table. */
  function InitialEvents(uuids: seq<string>, initial: seq<Initial>, now: int): seq<Event>
    decreases |initial|
  {
    if initial == [] then []
    else
      var i := initial[|initial| - 1];
      InitialEvents(uuids, initial[..|initial| - 1], now)
      + if 0 <= i.gpu < |uuids| && i.count != 0 then [Event(uuids[i.gpu], i.xid, i.count, now)] else []
  }

  /** jitteredInterval: 50 to 150 percent of the mean, in whole nanoseconds. */
  function Jittered(mean: nat, u: real): (d: nat)
    requires 0.0 <= u < 1.0
    ensures mean <= 2 * d + 1 && 2 * d <= 3 * mean
  {
    Product(mean as real, 0.5 + u);
    Product(mean as real, u);
    Product(mean as real, 1.0 - u);
    assert mean as real * (0.5 + u) == 0.5 * mean as real + mean as real * u;
    assert mean as real * (1.0 - u) == mean as real - mean as real * u;
    (mean as real * (0.5 + u)).Floor
  }

  const BURST := 10

  /** The spacing drawn at each place of the random source. */
  type Gap = nat -> nat

  function GapOf(interval: nat, ch: Chance): Gap
    requires Fair(ch)
  {
    (k: nat) => Jittered(interval, ch.unit(k))
  }

  /** The slots caught up so far: at most `BURST`, while the next one lies in the past. */
  datatype CatchUp = CatchUp(events: seq<Event>, nextAt: int, rng: nat)

  function CaughtUp(c: CatchUp, uuids: seq<string>, codes: seq<nat>, gap: Gap, now: int, ch: Chance, fired: nat): (r: CatchUp)
    requires uuids != [] && codes != [] && Fair(ch) && fired <= BURST
    decreases fired, |uuids|
  {
    if fired == 0 then c
    else
      var earlier := CaughtUp(c, uuids, codes, gap, now, ch, fired - 1);
      if now > earlier.nextAt then
        var gpu, code := ch.pick(earlier.rng, |uuids|), ch.pick(earlier.rng + 1, |codes|);
        CatchUp(earlier.events + [Event(uuids[gpu], codes[code], 1, earlier.nextAt)],
                earlier.nextAt + gap(earlier.rng + 2), earlier.rng + 3)
      else earlier
  }

  /** Caught-up events lie in the past, in the order of their slots, and there are at most as many as slots. */
  lemma {:induction false} CaughtUpIsPast(c: CatchUp, uuids: seq<string>, codes: seq<nat>, gap: Gap, now: int, ch: Chance, fired: nat)
    requires uuids != [] && codes != [] && Fair(ch) && fired <= BURST && c.events == []
    ensures var r := CaughtUp(c, uuids, codes, gap, now, ch, fired);
            && |r.events| <= fired && r.nextAt >= c.nextAt
            && (forall i :: 0 <= i < |r.events| ==> c.nextAt <= r.events[i].at <= r.nextAt && r.events[i].at < now)
            && (forall i, j :: 0 <= i <= j < |r.events| ==> r.events[i].at <= r.events[j].at)
            && (forall i :: 0 <= i < |r.events| ==> r.events[i].count == 1 && r.events[i].uuid in uuids && r.events[i].xid in codes)
    decreases fired
  {
    if fired > 0 {
      CaughtUpIsPast(c, uuids, codes, gap, now, ch, fired - 1);
    }
  }
}
