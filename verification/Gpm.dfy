/**
 The GPM sample retention of the NVML backend: what one operation that holds the cycle mutex does to the retained
 samples and to the library. Driver calls answer whatever the input says. A sample is named by the number of its
 allocation; `Util` says which two samples it was computed from. Times are nanoseconds.
 */
module Gpm {
  import opened Basics

  const SECOND := 1_000_000_000
  const MIN_WINDOW := SECOND
  const MAX_WINDOW := 600 * SECOND

  /** An NVML return. */
  datatype Ret =
    | Success | NotSupported | GpuIsLost | Uninitialized | DriverNotLoaded | LibRmVersionMismatch | GpuNotFound | Other

  /** The returns that mean the driver or GPU state is gone. */
  predicate IsLifecycle(ret: Ret) {
    ret.GpuIsLost? || ret.Uninitialized? || ret.DriverNotLoaded? || ret.LibRmVersionMismatch? || ret.GpuNotFound?
  }

  /** One GPU instance's MIG devices, as "uuid:profile:compute instance" members in no particular order. */
  type Fingerprint = multiset<string>

  datatype Metric = Metric(ret: Ret, value: Option<real>) // None: not a finite number

  /** Activity computed from the pair of samples `prev`, `cur`. */
  datatype Util = Util(prev: nat, cur: nat, values: seq<Option<real>>)

  /** A retained sample. */
  datatype Kept = Kept(sample: nat, taken: int, fingerprint: Fingerprint, last: Option<Util>)

  /** What a sample was taken of, when, and what the driver measures between it and the one retained before. */
  datatype Origin = Origin(key: string, fingerprint: Fingerprint, taken: int, metrics: seq<Metric>)

  datatype Store = Store(
    initialized: bool,
    kept: map<string, Kept>,
    allocs: nat,               // gpmSampleAlloc calls that succeeded
    frees: nat,                // gpmSampleFree calls
    freed: set<nat>,           // what they freed
    born: map<nat, Origin>,    // per sample that gpmMigSampleGet filled
    wins: bool,                // whether a teardown now gets the exclusive lock before its deadline
    down: bool,                // the library was shut down and not initialized since
    late: set<nat>,            // samples freed while it was down
    lost: map<nat, bool>)      // per fresh sample given back after its diff failed: whether the teardown got the lock

  const NEW := Store(true, map[], 0, 0, {}, map[], true, false, {}, map[])

  function Free(st: Store, x: nat): Store {
    st.(frees := st.frees + 1, freed := st.freed + {x}, late := if st.down then st.late + {x} else st.late)
  }

  function SamplesOf(kept: map<string, Kept>): set<nat> {
    set k | k in kept :: kept[k].sample
  }

  /** Frees the retained samples of these keys. */
  function Dropped(st: Store, doomed: map<string, Kept>): Store {
    st.(kept := st.kept - doomed.Keys, frees := st.frees + |doomed|, freed := st.freed + SamplesOf(doomed),
        late := if st.down then st.late + SamplesOf(doomed) else st.late)
  }

  /** Frees every retained sample whose key is not in `keep`. */
  function FreeExcept(st: Store, keep: set<string>): Store {
    Dropped(st, st.kept - keep)
  }

  function FreeAll(st: Store): Store {
    st.(kept := map[], frees := st.frees + |st.kept|, freed := st.freed + SamplesOf(st.kept),
        late := if st.down then st.late + SamplesOf(st.kept) else st.late)
  }

  /** markLost and Close: samples first, then the flags, then the shutdown unless the lock cannot be had. */
  function TearDown(st: Store): Store {
    if !st.initialized then st else FreeAll(st).(initialized := false, down := st.wins)
  }

  /** What a call leaves behind: the state, the utilization to serve, and whether the pass may go on. */
  datatype Outcome = Outcome(store: Store, util: Option<Util>, more: bool)

  /** extrasFailure: only lifecycle-class returns tear down and stop the pass. */
  function Failed(st: Store, ret: Ret): Outcome {
    if IsLifecycle(ret) then Outcome(TearDown(st), None, false) else Outcome(st, None, true)
  }

  /** The driver's answers while one GPU instance is sampled. */
  datatype Sampling = Sampling(now: int, alloc: Ret, get: Ret, outer: Ret, metrics: seq<Metric>)

  /** The first lifecycle-class status among the metrics. */
  function FirstLost(metrics: seq<Metric>): Option<Ret> {
    if metrics == [] then None
    else if IsLifecycle(metrics[0].ret) then Some(metrics[0].ret)
    else FirstLost(metrics[1..])
  }

  /** The metrics are asked for in this order: four percentages, then two rates in MiB per second. */
  const RATIOS := 4
  const MIB: real := 1048576.0

  /** One metric's value in the unit it is served in. */
  function Scaled(i: nat, m: Metric): Option<real> {
    if !m.ret.Success? || m.value.None? then None
    else if i < RATIOS then Some(m.value.value / 100.0)
    else Some(m.value.value * MIB)
  }

  function Values(metrics: seq<Metric>): seq<Option<real>> {
    seq(|metrics|, i requires 0 <= i < |metrics| => Scaled(i, metrics[i]))
  }

  /** gpmMetrics. */
  function Diff(st: Store, prev: nat, cur: nat, g: Sampling): Outcome {
    if !g.outer.Success? then Failed(st, g.outer)
    else if FirstLost(g.metrics).Some? then Outcome(TearDown(st), None, false)
    else Outcome(st, Some(Util(prev, cur, Values(g.metrics))), true)
  }

  /** A reused instance id or an overgrown window makes the retained sample useless. */
  predicate Stale(k: Kept, fp: Fingerprint, now: int) {
    k.fingerprint != fp || now - k.taken > MAX_WINDOW
  }

  function Invalidated(st: Store, key: string, fp: Fingerprint, now: int): Store {
    if key in st.kept && Stale(st.kept[key], fp, now)
    then Free(st, st.kept[key].sample).(kept := st.kept - {key})
    else st
  }

  /** The state after the driver filled a fresh sample. */
  function Filled(st: Store, key: string, fp: Fingerprint, g: Sampling): Store {
    st.(allocs := st.allocs + 1, born := st.born[st.allocs := Origin(key, fp, g.now, g.metrics)])
  }

  /** The second sample of a pair: diff, then rotate, or give the fresh one back. */
  function Rotate(st: Store, key: string, fp: Fingerprint, g: Sampling): Outcome
    requires key in st.kept
  {
    var x, was := st.allocs, st.kept[key].sample;
    var d := Diff(Filled(st, key, fp, g), was, x, g);
    if !d.more then Outcome(Free(d.store, x).(lost := d.store.lost[x := d.store.wins]), None, false)
    else d.(store := Free(d.store, was).(kept := d.store.kept[key := Kept(x, g.now, fp, d.util)]))
  }

  /** A first sample only seeds the retention. */
  function Seed(st: Store, key: string, fp: Fingerprint, g: Sampling): Outcome {
    var filled := Filled(st, key, fp, g);
    Outcome(filled.(kept := filled.kept[key := Kept(st.allocs, g.now, fp, None)]), None, true)
  }

  /** gpmMigSampleGet failed: the fresh sample goes back before the failure is handled. */
  function GiveBack(st: Store, ret: Ret): Outcome {
    Failed(Free(st.(allocs := st.allocs + 1), st.allocs), ret)
  }

  /** Takes a fresh sample, once the retained one is known to be usable or gone. */
  function Resample(st: Store, key: string, fp: Fingerprint, g: Sampling): Outcome {
    if !g.alloc.Success? then Failed(st, g.alloc)
    else if !g.get.Success? then GiveBack(st, g.get)
    else if key in st.kept then Rotate(st, key, fp, g)
    else Seed(st, key, fp, g)
  }

  /** Too soon after the retained sample: its values are served again. */
  predicate Anchored(st: Store, key: string, now: int) {
    key in st.kept && now - st.kept[key].taken < MIN_WINDOW
  }

  /** gpmUtilization. */
  function Sample(st0: Store, key: string, fp: Fingerprint, g: Sampling): Outcome {
    var st := Invalidated(st0, key, fp, g.now);
    if Anchored(st, key, g.now) then Outcome(st, st.kept[key].last, true) else Resample(st, key, fp, g)
  }

  // ---------------------------------------------------------------- invariants

  /** Between its allocation and its free or retention a sample is on loan to the running code. */
  ghost predicate Counted(st: Store, loans: nat) {
    st.allocs == st.frees + |st.kept| + loans && st.frees == |st.freed|
  }

  /** Freed, retained and loaned samples are different samples. */
  ghost predicate Apart(st: Store, loans: set<nat>) {
    && (forall x :: x in st.freed || x in loans ==> x < st.allocs)
    && st.freed !! loans
    && (forall k :: k in st.kept ==> st.kept[k].sample < st.allocs && st.kept[k].sample !in st.freed + loans)
  }

  ghost predicate Lively(st: Store) {
    (st.kept != map[] ==> st.initialized) && (st.initialized ==> !st.down)
  }

  /** `u` comes from two samples of the same instance generation, taken between one second and ten minutes apart. */
  ghost predicate Sound(st: Store, key: string, u: Util) {
    && u.prev in st.born && u.cur in st.born
    && st.born[u.prev].key == key == st.born[u.cur].key
    && st.born[u.prev].fingerprint == st.born[u.cur].fingerprint
    && MIN_WINDOW <= st.born[u.cur].taken - st.born[u.prev].taken <= MAX_WINDOW
    && Measured(u.values, st.born[u.cur].metrics)
  }

  /** The values are the metrics that were measured, in the unit they are served in, and None for every other. */
  ghost predicate Measured(values: seq<Option<real>>, metrics: seq<Metric>) {
    |values| == |metrics| && forall i :: 0 <= i < |values| ==> MeasuredAt(i, values[i], metrics[i])
  }

  predicate MeasuredAt(i: nat, value: Option<real>, m: Metric) {
    && (value.Some? <==> m.ret == Success && m.value.Some?)
    && (value.Some? && i < 4 ==> 100.0 * value.value == m.value.value)
    && (value.Some? && i >= 4 ==> value.value == 1048576.0 * m.value.value)
  }

  /** The sample is the one the entry of its key describes. */
  predicate Names(o: Origin, key: string, e: Kept) { o.key == key && o.fingerprint == e.fingerprint && o.taken == e.taken }

  /** Every retained sample is the one its key's entry describes; so no two keys retain the same sample. */
  ghost predicate Traced(st: Store) {
    && (forall x :: x in st.born ==> x < st.allocs)
    && forall k :: k in st.kept ==>
         var e := st.kept[k];
         && e.sample in st.born && Names(st.born[e.sample], k, e)
         && (e.last.Some? ==> Sound(st, k, e.last.value) && e.last.value.cur == e.sample)
  }

  /** The samples freed while the library was down are those of the failed diffs whose teardown got the lock. */
  ghost predicate LateFrees(st: Store) {
    forall x :: (x in st.late <==> x in st.lost && st.lost[x]) && (x in st.lost ==> x in st.freed && x in st.born)
  }

  ghost predicate Books(st: Store, loans: set<nat>) {
    Counted(st, |loans|) && Apart(st, loans) && Lively(st) && Traced(st) && LateFrees(st)
  }

  /** Every sample allocated is retained or freed, exactly one of the two, and freed once. */
  ghost predicate Good(st: Store) { Books(st, {}) }

  lemma {:induction false} SamplesCount(kept: map<string, Kept>)
    requires forall j, k :: j in kept && k in kept && j != k ==> kept[j].sample != kept[k].sample
    ensures |SamplesOf(kept)| == |kept|
    decreases |kept|
  {
    if kept == map[] {
    } else {
      var k :| k in kept;
      var rest := kept - {k};
      assert rest.Keys == kept.Keys - {k};
      SamplesCount(rest);
      forall x
        ensures x in SamplesOf(kept) <==> x in SamplesOf(rest) + {kept[k].sample}
      {
        if x in SamplesOf(kept) {
          var j :| j in kept && kept[j].sample == x;
          assert j == k || j in rest;
        }
      }
      assert SamplesOf(kept) == SamplesOf(rest) + {kept[k].sample};
      assert kept[k].sample !in SamplesOf(rest);
    }
  }

  lemma OwnSamples(st: Store, j: string, k: string)
    requires Traced(st) && j in st.kept && k in st.kept && st.kept[j].sample == st.kept[k].sample
    ensures j == k
  {
    assert st.born[st.kept[j].sample].key == j;
  }

  /** Freeing retained samples moves them from one side of the books to the other. */
  lemma FreedCount(st: Store, doomed: map<string, Kept>, loans: set<nat>)
    requires Apart(st, loans) && Traced(st) && forall k :: k in doomed ==> k in st.kept && st.kept[k] == doomed[k]
    ensures |st.freed + SamplesOf(doomed)| == |st.freed| + |doomed|
    ensures SamplesOf(doomed) !! loans
    ensures forall x :: x in SamplesOf(doomed) ==> x < st.allocs
  {
    forall j, k | j in doomed && k in doomed && doomed[j].sample == doomed[k].sample
      ensures j == k
    {
      OwnSamples(st, j, k);
    }
    SamplesCount(doomed);
    assert st.freed !! SamplesOf(doomed);
  }

  lemma FreeExceptApart(st: Store, keep: set<string>)
    requires Apart(st, {}) && Traced(st)
    ensures Apart(FreeExcept(st, keep), {})
  {
    var doomed, after := st.kept - keep, FreeExcept(st, keep);
    FreedCount(st, doomed, {});
    forall k | k in after.kept
      ensures after.kept[k].sample !in SamplesOf(doomed)
    {
      forall d | d in doomed
        ensures doomed[d].sample != st.kept[k].sample
      {
        assert st.kept[d] == doomed[d];
        if doomed[d].sample == st.kept[k].sample {
          OwnSamples(st, d, k);
        }
      }
    }
  }

  lemma FreeExceptKeeps(st: Store, keep: set<string>)
    ensures var after := FreeExcept(st, keep);
            && after.kept.Keys == st.kept.Keys * keep
            && (forall k :: k in st.kept && k in keep ==> after.kept[k] == st.kept[k])
            && |after.kept| == |st.kept| - |st.kept - keep|
  {
    KeptSplits(st.kept, keep);
  }

  lemma KeptSplits(kept: map<string, Kept>, keep: set<string>)
    ensures var rest := kept - (kept - keep).Keys;
            && rest.Keys == kept.Keys * keep && (forall k :: k in kept && k in keep ==> rest[k] == kept[k])
            && |rest| == |kept| - |kept - keep|
  {
    var doomed := kept - keep;
    var rest := kept - doomed.Keys;
    assert kept.Keys == doomed.Keys + rest.Keys && doomed.Keys !! rest.Keys;
  }

  lemma FreeExceptCounted(st: Store, keep: set<string>)
    requires Counted(st, 0) && Apart(st, {}) && Traced(st)
    ensures Counted(FreeExcept(st, keep), 0)
  {
    FreedCount(st, st.kept - keep, {});
    FreeExceptKeeps(st, keep);
  }

  lemma FreeExceptTraced(st: Store, keep: set<string>)
    requires Traced(st)
    ensures Traced(FreeExcept(st, keep))
  {
    FreeExceptKeeps(st, keep);
  }

  lemma FreeExceptBooks(st: Store, keep: set<string>)
    requires Good(st)
    ensures Good(FreeExcept(st, keep))
  {
    FreeExceptCounted(st, keep);
    FreeExceptApart(st, keep);
    FreeExceptTraced(st, keep);
  }

  lemma TearDownBooks(st: Store, loans: set<nat>)
    requires Books(st, loans)
    ensures Books(TearDown(st), loans) && TearDown(st).kept == map[] && !TearDown(st).initialized
    ensures TearDown(st).born == st.born && TearDown(st).allocs == st.allocs
    ensures st.initialized ==> TearDown(st).down == st.wins == TearDown(st).wins
  {
    FreedCount(st, st.kept, loans);
  }

  // ---------------------------------------------------------------- one GPU instance

  lemma MapSizes<K, V>(m: map<K, V>, k: K, v: V)
    ensures |m[k := v]| == |m| + if k in m then 0 else 1
    ensures |m - {k}| == |m| - if k in m then 1 else 0
  {
    assert m[k := v].Keys == m.Keys + {k} && (m - {k}).Keys == m.Keys - {k};
  }

  lemma DropBooks(st: Store, key: string)
    requires Good(st) && key in st.kept
    ensures Good(Free(st, st.kept[key].sample).(kept := st.kept - {key}))
  {
    MapSizes(st.kept, key, st.kept[key]);
  }

  lemma InvalidatedBooks(st: Store, key: string, fp: Fingerprint, now: int)
    requires Good(st)
    ensures Good(Invalidated(st, key, fp, now)) && Invalidated(st, key, fp, now).initialized == st.initialized
  {
    if key in st.kept {
      DropBooks(st, key);
    }
  }

  lemma ReturnBooks(st: Store, x: nat)
    requires Books(st, {x}) && !st.down
    ensures Good(Free(st, x))
  {
  }

  /** Giving the sample of a failed diff back, behind the teardown the failure caused. */
  lemma LoseBooks(st: Store, x: nat)
    requires Books(st, {x}) && st.down == st.wins && x in st.born
    ensures Good(Free(st, x).(lost := st.lost[x := st.wins]))
  {
    var after := Free(st, x).(lost := st.lost[x := st.wins]);
    assert LateFrees(after);
  }

  lemma AllocBooks(st: Store)
    requires Good(st)
    ensures Books(st.(allocs := st.allocs + 1), {st.allocs})
  {
    var after := st.(allocs := st.allocs + 1);
    assert Traced(after);
    assert Apart(after, {st.allocs});
  }

  lemma FillBooks(st: Store, key: string, fp: Fingerprint, g: Sampling)
    requires Good(st)
    ensures Books(Filled(st, key, fp, g), {st.allocs})
    ensures forall k :: k in st.kept ==>
              (var x := st.kept[k].sample; x in Filled(st, key, fp, g).born && Filled(st, key, fp, g).born[x] == st.born[x])
  {
    var f := Filled(st, key, fp, g);
    assert Apart(f, {st.allocs});
    forall k | k in f.kept
      ensures f.kept[k].sample in f.born && Names(f.born[f.kept[k].sample], k, f.kept[k])
      ensures f.kept[k].last.Some? ==> Sound(f, k, f.kept[k].last.value) && f.kept[k].last.value.cur == f.kept[k].sample
    {
    }
  }

  /** What a kept entry must say about the sample it names. */
  ghost predicate Described(st: Store, key: string, k: Kept) {
    && k.sample in st.born && Names(st.born[k.sample], key, k)
    && (k.last.Some? ==> Sound(st, key, k.last.value) && k.last.value.cur == k.sample)
  }

  /** Retaining the sample on loan under a new key. */
  lemma RetainBooks(st: Store, x: nat, key: string, k: Kept)
    requires Books(st, {x}) && st.initialized && k.sample == x && Described(st, key, k) && key !in st.kept
    ensures Good(st.(kept := st.kept[key := k]))
  {
    MapSizes(st.kept, key, k);
    var after := st.(kept := st.kept[key := k]);
    KeepsTraced(st, after, key, k);
    assert Apart(after, {});
    assert Counted(after, 0);
    assert LateFrees(after);
  }

  /** A described entry for one key leaves the others as they are. */
  lemma KeepsTraced(st: Store, after: Store, key: string, k: Kept)
    requires Traced(st) && Described(st, key, k)
    requires after.kept == st.kept[key := k] && after.born == st.born && after.allocs == st.allocs
    ensures Traced(after)
  {
    forall j | j in after.kept
      ensures Described(after, j, after.kept[j])
    {
      if j != key {
        assert after.kept[j] == st.kept[j];
      }
    }
  }

  /** Retaining the sample on loan in place of the one retained before, which is freed. */
  lemma ReplaceBooks(st: Store, x: nat, key: string, k: Kept)
    requires Books(st, {x}) && st.initialized && k.sample == x && Described(st, key, k) && key in st.kept
    ensures Good(Free(st, st.kept[key].sample).(kept := st.kept[key := k]))
  {
    MapSizes(st.kept, key, k);
    var after := Free(st, st.kept[key].sample).(kept := st.kept[key := k]);
    KeepsTraced(st, after, key, k);
    assert Counted(after, 0);
    assert Apart(after, {});
    assert LateFrees(after);
  }

  lemma DiffShape(st: Store, prev: nat, cur: nat, g: Sampling)
    ensures var d := Diff(st, prev, cur, g);
            && (d.more ==> d.store == st && (d.util.Some? ==> d.util.value.prev == prev && d.util.value.cur == cur && d.util.value.values == Values(g.metrics)))
            && (!d.more ==> d.store == TearDown(st) && d.util.None?)
  {
  }

  /** The diff of a usable pair is sound. */
  lemma DiffSound(st: Store, key: string, fp: Fingerprint, g: Sampling)
    requires Good(st) && key in st.kept && !Stale(st.kept[key], fp, g.now) && !Anchored(st, key, g.now)
    requires Diff(Filled(st, key, fp, g), st.kept[key].sample, st.allocs, g).more
    ensures var filled := Filled(st, key, fp, g);
            Described(filled, key, Kept(st.allocs, g.now, fp, Diff(filled, st.kept[key].sample, st.allocs, g).util))
  {
    DiffShape(Filled(st, key, fp, g), st.kept[key].sample, st.allocs, g);
    assert Traced(st) && st.kept[key].sample < st.allocs;
    ValuesAreMeasured(g.metrics);
  }

  lemma ValuesAreMeasured(metrics: seq<Metric>)
    ensures Measured(Values(metrics), metrics)
  {
    var values := Values(metrics);
    forall i | 0 <= i < |values|
      ensures MeasuredAt(i, values[i], metrics[i])
    {
      assert values[i] == Scaled(i, metrics[i]);
    }
  }

  /** The books are right and the pass goes on exactly as long as the library is there. */
  ghost predicate Settled(r: Outcome) {
    Good(r.store) && r.store.initialized == r.more
  }

  lemma RotateBooks(st: Store, key: string, fp: Fingerprint, g: Sampling)
    requires Good(st) && st.initialized
    requires key in st.kept && !Stale(st.kept[key], fp, g.now) && !Anchored(st, key, g.now)
    ensures Settled(Rotate(st, key, fp, g))
  {
    var filled := Filled(st, key, fp, g);
    FillBooks(st, key, fp, g);
    DiffShape(filled, st.kept[key].sample, st.allocs, g);
    var d := Diff(filled, st.kept[key].sample, st.allocs, g);
    if d.more {
      DiffSound(st, key, fp, g);
      ReplaceBooks(filled, st.allocs, key, Kept(st.allocs, g.now, fp, d.util));
    } else {
      TearDownBooks(filled, {st.allocs});
      LoseBooks(d.store, st.allocs);
    }
  }

  lemma FailedBooks(st: Store, ret: Ret)
    requires Good(st) && st.initialized
    ensures Settled(Failed(st, ret))
  {
    TearDownBooks(st, {});
  }

  lemma GiveBackBooks(st: Store, ret: Ret)
    requires Good(st) && st.initialized
    ensures Settled(GiveBack(st, ret))
  {
    var got := st.(allocs := st.allocs + 1);
    AllocBooks(st);
    ReturnBooks(got, st.allocs);
    FailedBooks(Free(got, st.allocs), ret);
  }

  lemma SeedBooks(st: Store, key: string, fp: Fingerprint, g: Sampling)
    requires Good(st) && st.initialized && key !in st.kept
    ensures Settled(Seed(st, key, fp, g))
  {
    FillBooks(st, key, fp, g);
    RetainBooks(Filled(st, key, fp, g), st.allocs, key, Kept(st.allocs, g.now, fp, None));
  }

  lemma ResampleBooks(st: Store, key: string, fp: Fingerprint, g: Sampling)
    requires Good(st) && st.initialized
    requires key in st.kept ==> !Stale(st.kept[key], fp, g.now) && !Anchored(st, key, g.now)
    ensures Settled(Resample(st, key, fp, g))
  {
    var r := Resample(st, key, fp, g);
    if !g.alloc.Success? {
      FailedBooks(st, g.alloc);
    } else if !g.get.Success? {
      GiveBackBooks(st, g.get);
    } else if key in st.kept {
      RotateBooks(st, key, fp, g);
    } else {
      SeedBooks(st, key, fp, g);
    }
  }

  /** Sampling one GPU instance keeps the books through every failure path. */
  lemma SampleBooks(st: Store, key: string, fp: Fingerprint, g: Sampling)
    requires Good(st) && st.initialized
    ensures Settled(Sample(st, key, fp, g))
  {
    InvalidatedBooks(st, key, fp, g.now);
    var d := Invalidated(st, key, fp, g.now);
    if !Anchored(d, key, g.now) {
      ResampleBooks(d, key, fp, g);
    }
  }

  lemma RotateShape(st: Store, key: string, fp: Fingerprint, g: Sampling)
    requires key in st.kept && Rotate(st, key, fp, g).util.Some?
    ensures var r := Rotate(st, key, fp, g);
            r.more && key in r.store.kept && r.store.kept[key] == Kept(st.allocs, g.now, fp, r.util)
  {
    DiffShape(Filled(st, key, fp, g), st.kept[key].sample, st.allocs, g);
  }

  /** What is served is what stays retained, under the present fingerprint. */
  lemma ServedIsKept(st: Store, key: string, fp: Fingerprint, g: Sampling)
    requires Sample(st, key, fp, g).util.Some?
    ensures var r := Sample(st, key, fp, g);
            r.more && key in r.store.kept && r.store.kept[key].last == r.util && r.store.kept[key].fingerprint == fp
  {
    var d := Invalidated(st, key, fp, g.now);
    if !Anchored(d, key, g.now) {
      assert key in d.kept && Resample(d, key, fp, g) == Rotate(d, key, fp, g);
      RotateShape(d, key, fp, g);
    }
  }

  /** What the books say of a kept entry's utilization. */
  lemma KeptIsSound(st: Store, key: string)
    requires Traced(st) && key in st.kept && st.kept[key].last.Some?
    ensures var e := st.kept[key];
            && Sound(st, key, e.last.value) && e.last.value.cur == e.sample
            && st.born[e.last.value.cur].fingerprint == e.fingerprint
  {
  }

  /**
   A served utilization diffs two samples of the instance's present generation whose distance is between one second
   and ten minutes, and stays retained with the newer of the two.
   */
  lemma ServedIsSound(st: Store, key: string, fp: Fingerprint, g: Sampling)
    requires Good(st) && st.initialized && Sample(st, key, fp, g).util.Some?
    ensures var r := Sample(st, key, fp, g);
            && r.more && Sound(r.store, key, r.util.value)
            && key in r.store.kept && r.store.kept[key].last == r.util && r.store.kept[key].fingerprint == fp
            && r.util.value.cur == r.store.kept[key].sample && r.store.born[r.util.value.cur].fingerprint == fp
  {
    SampleBooks(st, key, fp, g);
    ServedIsKept(st, key, fp, g);
    KeptIsSound(Sample(st, key, fp, g).store, key);
  }

  /**
   A retained sample of the same generation, at least one second and at most ten minutes old, and a driver that answers:
   the two samples are diffed, and exactly the metrics that were measured are served, each in its unit.
   */
  lemma ServesWhatIsMeasured(st: Store, key: string, fp: Fingerprint, g: Sampling)
    requires key in st.kept && st.kept[key].fingerprint == fp
    requires 1_000_000_000 <= g.now - st.kept[key].taken <= 600_000_000_000
    requires g.alloc == Success && g.get == Success && g.outer == Success
    requires forall i :: 0 <= i < |g.metrics| ==>
               g.metrics[i].ret !in {GpuIsLost, Uninitialized, DriverNotLoaded, LibRmVersionMismatch, GpuNotFound}
    ensures var r := Sample(st, key, fp, g);
            && r.more && r.util.Some? && r.util.value.prev == st.kept[key].sample && r.util.value.cur == st.allocs
            && r.store.kept == st.kept[key := Kept(st.allocs, g.now, fp, r.util)]
    ensures var values := Sample(st, key, fp, g).util.value.values;
            && |values| == |g.metrics|
            && forall i :: 0 <= i < |values| ==>
                 && (values[i].Some? <==> g.metrics[i].ret == Success && g.metrics[i].value.Some?)
                 && (values[i].Some? && i < 4 ==> 100.0 * values[i].value == g.metrics[i].value.value)
                 && (values[i].Some? && i >= 4 ==> values[i].value == 1048576.0 * g.metrics[i].value.value)
  {
    NoneIsLost(g.metrics);
    assert !Stale(st.kept[key], fp, g.now) && !Anchored(st, key, g.now);
    assert Sample(st, key, fp, g) == Rotate(st, key, fp, g);
    RotatesAndServes(st, key, fp, g);
    ValuesAreMeasured(g.metrics);
    var values := Values(g.metrics);
    forall i | 0 <= i < |values|
      ensures MeasuredAt(i, values[i], g.metrics[i])
    {
    }
  }

  lemma RotatesAndServes(st: Store, key: string, fp: Fingerprint, g: Sampling)
    requires key in st.kept && g.outer.Success? && FirstLost(g.metrics).None?
    ensures var u := Some(Util(st.kept[key].sample, st.allocs, Values(g.metrics)));
            var r := Rotate(st, key, fp, g);
            r.more && r.util == u && r.store.kept == st.kept[key := Kept(st.allocs, g.now, fp, u)]
  {
  }

  lemma {:induction false} NoneIsLost(metrics: seq<Metric>)
    ensures FirstLost(metrics).None? <==>
              forall i :: 0 <= i < |metrics| ==>
                metrics[i].ret !in {GpuIsLost, Uninitialized, DriverNotLoaded, LibRmVersionMismatch, GpuNotFound}
    decreases |metrics|
  {
    if metrics != [] {
      NoneIsLost(metrics[1..]);
      assert forall i :: 0 < i < |metrics| ==> metrics[i] == metrics[1..][i - 1];
    }
  }

  /** Within a second of the retained sample nothing is asked of the driver, and the last values are served again. */
  lemma ServesTheSameAgain(st: Store, key: string, fp: Fingerprint, g: Sampling)
    requires key in st.kept && st.kept[key].fingerprint == fp && g.now - st.kept[key].taken < 1_000_000_000
    ensures Sample(st, key, fp, g) == Outcome(st, st.kept[key].last, true)
  {
  }

  /**
   The pass goes on unless a call that is made answers that the library or the GPU is gone; then nothing is served, nothing
   is retained, and the library is down. Every other failure costs this instance's values only.
   */
  lemma StopsExactlyWhenLost(st: Store, key: string, fp: Fingerprint, g: Sampling)
    requires st.initialized
    ensures var r := Sample(st, key, fp, g);
            var gone := {GpuIsLost, Uninitialized, DriverNotLoaded, LibRmVersionMismatch, GpuNotFound};
            var anew := key !in st.kept || st.kept[key].fingerprint != fp || g.now - st.kept[key].taken > 600_000_000_000;
            && (r.more <==>
                  || (!anew && g.now - st.kept[key].taken < 1_000_000_000)
                  || (&& g.alloc !in gone
                      && (g.alloc == Success ==> g.get !in gone)
                      && (g.alloc == Success && g.get == Success && !anew ==> g.outer !in gone)
                      && (g.alloc == Success && g.get == Success && !anew && g.outer == Success ==>
                            forall i :: 0 <= i < |g.metrics| ==> g.metrics[i].ret !in gone)))
            && r.store.initialized == r.more && (!r.more ==> r.util.None? && r.store.kept == map[])
  {
    var d := Invalidated(st, key, fp, g.now);
    assert d.initialized && (key in d.kept <==> key in st.kept && !Stale(st.kept[key], fp, g.now));
    assert key in d.kept ==> d.kept[key] == st.kept[key];
    if !Anchored(d, key, g.now) {
      ResampleStops(d, key, fp, g);
    }
  }

  lemma ResampleStops(st: Store, key: string, fp: Fingerprint, g: Sampling)
    requires st.initialized
    ensures var r := Resample(st, key, fp, g);
            var gone := {GpuIsLost, Uninitialized, DriverNotLoaded, LibRmVersionMismatch, GpuNotFound};
            && (r.more <==>
                  && g.alloc !in gone
                  && (g.alloc == Success ==> g.get !in gone)
                  && (g.alloc == Success && g.get == Success && key in st.kept ==> g.outer !in gone)
                  && (g.alloc == Success && g.get == Success && key in st.kept && g.outer == Success ==>
                        forall i :: 0 <= i < |g.metrics| ==> g.metrics[i].ret !in gone))
            && r.store.initialized == r.more && (!r.more ==> r.util.None? && r.store.kept == map[])
  {
    NoneIsLost(g.metrics);
    if !g.alloc.Success? {
      FailedStops(st, g.alloc);
    } else if !g.get.Success? {
      FailedStops(Free(st.(allocs := st.allocs + 1), st.allocs), g.get);
    } else if key in st.kept {
      RotateStops(st, key, fp, g);
    }
  }

  lemma FailedStops(st: Store, ret: Ret)
    requires st.initialized
    ensures var r := Failed(st, ret);
            && (r.more <==> ret !in {GpuIsLost, Uninitialized, DriverNotLoaded, LibRmVersionMismatch, GpuNotFound})
            && r.store.initialized == r.more && (!r.more ==> r.store.kept == map[])
  {
  }

  lemma RotateStops(st: Store, key: string, fp: Fingerprint, g: Sampling)
    requires st.initialized && key in st.kept
    ensures var r := Rotate(st, key, fp, g);
            && (r.more <==> if g.outer == Success then FirstLost(g.metrics).None?
                            else g.outer !in {GpuIsLost, Uninitialized, DriverNotLoaded, LibRmVersionMismatch, GpuNotFound})
            && r.store.initialized == r.more && (!r.more ==> r.util.None? && r.store.kept == map[])
  {
    FailedStops(Filled(st, key, fp, g), g.outer);
  }

  /** A first sight, a reused id or an overgrown window serves nothing, and reseeds when the driver gives a sample. */
  lemma FreshStartServesNothing(st: Store, key: string, fp: Fingerprint, g: Sampling)
    requires key !in st.kept || st.kept[key].fingerprint != fp || g.now - st.kept[key].taken > 600_000_000_000
    ensures var r := Sample(st, key, fp, g);
            && r.util.None?
            && (g.alloc.Success? && g.get.Success? ==>
                  r.more && key in r.store.kept && r.store.kept[key] == Kept(st.allocs, g.now, fp, None))
            && (r.more && !(g.alloc.Success? && g.get.Success?) ==> key !in r.store.kept)
  {
  }

  /** Sampling one instance leaves the others' retention alone, unless the library is lost. */
  lemma OthersUntouched(st: Store, key: string, fp: Fingerprint, g: Sampling, k: string)
    requires Sample(st, key, fp, g).more && k != key
    ensures var after := Sample(st, key, fp, g).store;
            && (k in after.kept <==> k in st.kept)
            && (k in st.kept ==> after.kept[k] == st.kept[k])
  {
    var d := Invalidated(st, key, fp, g.now);
    assert Spares(st, d, k);
    if !Anchored(d, key, g.now) {
      ResampleSpares(d, key, fp, g, k);
    }
  }

  /** What is retained for `k` stays. */
  ghost predicate Spares(st: Store, after: Store, k: string) {
    (k in after.kept <==> k in st.kept) && (k in st.kept ==> after.kept[k] == st.kept[k])
  }

  lemma FailedSpares(st: Store, ret: Ret)
    requires Failed(st, ret).more
    ensures Failed(st, ret).store == st
  {
  }

  lemma ResampleSpares(st: Store, key: string, fp: Fingerprint, g: Sampling, k: string)
    requires Resample(st, key, fp, g).more && k != key
    ensures Spares(st, Resample(st, key, fp, g).store, k)
  {
    if !g.alloc.Success? {
      FailedSpares(st, g.alloc);
    } else if !g.get.Success? {
      FailedSpares(Free(st.(allocs := st.allocs + 1), st.allocs), g.get);
    } else if key in st.kept {
      DiffShape(Filled(st, key, fp, g), st.kept[key].sample, st.allocs, g);
    }
  }

  /** Whether a diff fails together with the library. */
  predicate LosesDiff(g: Sampling) { if g.outer.Success? then FirstLost(g.metrics).Some? else IsLifecycle(g.outer) }

  lemma RotateFreedLate(st: Store, key: string, fp: Fingerprint, g: Sampling)
    requires key in st.kept && st.initialized && !st.down
    ensures var after := Rotate(st, key, fp, g).store;
            && after.late == (if LosesDiff(g) && st.wins then st.late + {st.allocs} else st.late)
            && after.lost == (if LosesDiff(g) then st.lost[st.allocs := st.wins] else st.lost)
  {
    var filled := Filled(st, key, fp, g);
    var d := Diff(filled, st.kept[key].sample, st.allocs, g);
    DiffShape(filled, st.kept[key].sample, st.allocs, g);
    assert d.more <==> !LosesDiff(g);
  }

  lemma FailedFreesInTime(st: Store, ret: Ret)
    requires !st.down
    ensures Failed(st, ret).store.late == st.late && Failed(st, ret).store.lost == st.lost
  {
  }

  lemma GivenBackInTime(st: Store, ret: Ret)
    requires !st.down
    ensures GiveBack(st, ret).store.late == st.late && GiveBack(st, ret).store.lost == st.lost
  {
    FailedFreesInTime(Free(st.(allocs := st.allocs + 1), st.allocs), ret);
  }

  /**
   A sample is freed while the library is down exactly when the diff hit a lifecycle error and the teardown that
   followed won the lock: then it is the fresh sample, and only that. The failed diff is recorded either way.
   */
  lemma SampleFreedLate(st: Store, key: string, fp: Fingerprint, g: Sampling)
    requires st.initialized && !st.down
    ensures var diffed := key in st.kept && !Stale(st.kept[key], fp, g.now) && !Anchored(st, key, g.now)
                          && g.alloc.Success? && g.get.Success?;
            var after := Sample(st, key, fp, g).store;
            && after.late == (if diffed && LosesDiff(g) && st.wins then st.late + {st.allocs} else st.late)
            && after.lost == (if diffed && LosesDiff(g) then st.lost[st.allocs := st.wins] else st.lost)
  {
    var d := Invalidated(st, key, fp, g.now);
    assert d == (if key in st.kept && Stale(st.kept[key], fp, g.now)
                 then Free(st, st.kept[key].sample).(kept := st.kept - {key}) else st);
    if Anchored(d, key, g.now) {
    } else if !g.alloc.Success? {
      FailedFreesInTime(d, g.alloc);
    } else if !g.get.Success? {
      GivenBackInTime(d, g.get);
    } else if key in d.kept {
      RotateFreedLate(d, key, fp, g);
    }
  }

  /** What is known about a sample is never rewritten. */
  ghost predicate Remembers(st: Store, after: Store) {
    forall x :: x in st.born ==> x in after.born && after.born[x] == st.born[x]
  }

  lemma RotateRemembers(st: Store, key: string, fp: Fingerprint, g: Sampling)
    requires key in st.kept
    ensures Rotate(st, key, fp, g).store.born == Filled(st, key, fp, g).born
  {
    DiffShape(Filled(st, key, fp, g), st.kept[key].sample, st.allocs, g);
  }

  lemma SampleRemembers(st: Store, key: string, fp: Fingerprint, g: Sampling)
    requires Traced(st)
    ensures Remembers(st, Sample(st, key, fp, g).store)
  {
    var d := Invalidated(st, key, fp, g.now);
    assert d.born == st.born && d.allocs == st.allocs;
    if Anchored(d, key, g.now) {
    } else if !g.alloc.Success? || !g.get.Success? {
      assert Resample(d, key, fp, g).store.born == st.born;
    } else {
      if key in d.kept {
        RotateRemembers(d, key, fp, g);
      }
      assert Resample(d, key, fp, g).store.born == Filled(d, key, fp, g).born;
      assert st.allocs !in st.born;
    }
  }

  lemma SoundStays(st: Store, after: Store, key: string, u: Util)
    requires Sound(st, key, u) && Remembers(st, after)
    ensures Sound(after, key, u)
  {
  }
}
