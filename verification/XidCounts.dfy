/** The watcher's accumulator of observed XID events, and the counters a scrape reads from it. */
module XidCounts {
  import opened Basics
  import opened Synth
  import Exporter
  import Scrapes

  /** One observed event. */
  function Observed(uuid: string, xid: nat, at: int): Event { Event(uuid, xid, 1, at) }

  /** How often a pair was observed. */
  function Times(history: seq<Event>, uuid: string, xid: nat): nat
    decreases |history|
  {
    if history == [] then 0
    else
      var n := |history| - 1;
      Times(history[..n], uuid, xid) + if history[n].uuid == uuid && history[n].xid == xid then 1 else 0
  }

  /** When a pair was last observed, if ever. */
  function LastAt(history: seq<Event>, uuid: string, xid: nat): Option<int>
    decreases |history|
  {
    if history == [] then None
    else
      var n := |history| - 1;
      if history[n].uuid == uuid && history[n].xid == xid then Some(history[n].at) else LastAt(history[..n], uuid, xid)
  }

  /** A counter shows how often its pair was observed and when last. */
  ghost predicate Shows(c: Exporter.XidReading, history: seq<Event>) {
    && c.count == Times(history, c.uuid, c.xid)
    && var last := LastAt(history, c.uuid, c.xid); last.Some? && c.lastSeen == last.value as real
  }

  /** A reading's counters are exactly the observed pairs, each once. */
  ghost predicate Counts(counters: seq<Exporter.XidReading>, history: seq<Event>) {
    && Scrapes.DistinctXids(counters)
    && (forall i :: 0 <= i < |counters| ==> Shows(counters[i], history))
    && forall e :: e in history ==> exists i :: 0 <= i < |counters| && counters[i].uuid == e.uuid && counters[i].xid == e.xid
  }

  ghost predicate AllSingle(history: seq<Event>) { forall i :: 0 <= i < |history| ==> history[i].count == 1 }

  lemma {:induction false} SingleEventsCount(history: seq<Event>, uuid: string, xid: nat)
    requires AllSingle(history)
    ensures AddedTo(history, uuid, xid) == Times(history, uuid, xid)
    decreases |history|
  {
    if history != [] {
      SingleEventsCount(history[..|history| - 1], uuid, xid);
    }
  }

  lemma {:induction false} LastsAreExact(history: seq<Event>, uuid: string, xid: nat)
    ensures var s := StatOf(BumpedAll(map[], history), uuid, xid);
            LastAt(history, uuid, xid) == if s.Some? then Some(s.value.last) else None
    decreases |history|
  {
    if history != [] {
      LastsAreExact(history[..|history| - 1], uuid, xid);
    }
  }

  // ---------------------------------------------------------------- the order of a snapshot

  /** The order of strings. */
  predicate Below(a: string, b: string)
    decreases |a|
  {
    b != "" && (a == "" || a[0] < b[0] || (a[0] == b[0] && Below(a[1..], b[1..])))
  }

  lemma {:induction false} BelowChains(a: string, b: string, c: string)
    requires Below(a, b) && Below(b, c)
    ensures Below(a, c)
    decreases |a|
  {
    if a != "" && a[0] == b[0] == c[0] {
      BelowChains(a[1..], b[1..], c[1..]);
    }
  }

  lemma {:induction false} BelowIsTotal(a: string, b: string)
    ensures a == b || Below(a, b) || Below(b, a)
    decreases |a|
  {
    if a != "" && b != "" && a[0] == b[0] {
      BelowIsTotal(a[1..], b[1..]);
      assert a == [a[0]] + a[1..] && b == [b[0]] + b[1..];
    }
  }

  lemma {:induction false} BelowIsStrict(a: string)
    ensures !Below(a, a)
    decreases |a|
  {
    if a != "" {
      BelowIsStrict(a[1..]);
    }
  }

  predicate Before(x: Exporter.XidReading, y: Exporter.XidReading) {
    Below(x.uuid, y.uuid) || (x.uuid == y.uuid && x.xid < y.xid)
  }

  predicate Sorted(s: seq<Exporter.XidReading>) { forall i, j :: 0 <= i < j < |s| ==> Before(s[i], s[j]) }

  predicate SamePair(x: Exporter.XidReading, y: Exporter.XidReading) { x.uuid == y.uuid && x.xid == y.xid }

  function Inserted(s: seq<Exporter.XidReading>, x: Exporter.XidReading): (r: seq<Exporter.XidReading>)
    ensures forall y :: y in r <==> y in s || y == x
    decreases |s|
  {
    if s == [] then [x] else if Before(x, s[0]) then [x] + s else [s[0]] + Inserted(s[1..], x)
  }

  lemma {:induction false} InsertedIsSorted(s: seq<Exporter.XidReading>, x: Exporter.XidReading)
    requires Sorted(s) && forall y :: y in s ==> !SamePair(x, y)
    ensures Sorted(Inserted(s, x))
    decreases |s|
  {
    if s != [] {
      if Before(x, s[0]) {
        forall j | 0 < j < |s|
          ensures Before(x, s[j])
        {
          BeforeChains(x, s[0], s[j]);
        }
      } else {
        BelowIsTotal(x.uuid, s[0].uuid);
        assert s[0] in s && Before(s[0], x);
        InsertedIsSorted(s[1..], x);
        assert forall y :: y in s[1..] ==> Before(s[0], y);
      }
    }
  }

  lemma BeforeChains(x: Exporter.XidReading, y: Exporter.XidReading, z: Exporter.XidReading)
    requires Before(x, y) && Before(y, z)
    ensures Before(x, z)
  {
    if Below(x.uuid, y.uuid) && Below(y.uuid, z.uuid) {
      BelowChains(x.uuid, y.uuid, z.uuid);
    }
  }

  /** sortXIDCounters: sort.Slice by GPU and code. */
  function SortCounters(s: seq<Exporter.XidReading>): (r: seq<Exporter.XidReading>)
    ensures forall y :: y in r <==> y in s
    decreases |s|
  {
    if s == [] then [] else Inserted(SortCounters(s[..|s| - 1]), s[|s| - 1])
  }

  lemma {:induction false} SortCountersSorts(s: seq<Exporter.XidReading>)
    requires Scrapes.DistinctXids(s)
    ensures Sorted(SortCounters(s))
    decreases |s|
  {
    if s != [] {
      var n := |s| - 1;
      SortCountersSorts(s[..n]);
      forall y | y in SortCounters(s[..n])
        ensures !SamePair(s[n], y)
      {
        var i :| 0 <= i < n && s[..n][i] == y;
        assert s[i] == y;
      }
      InsertedIsSorted(SortCounters(s[..n]), s[n]);
    }
  }

  lemma SortedIsDistinct(s: seq<Exporter.XidReading>)
    requires Sorted(s)
    ensures Scrapes.DistinctXids(s)
  {
    forall i, j | 0 <= i < j < |s|
      ensures !SamePair(s[i], s[j])
    {
      BelowIsStrict(s[i].uuid);
    }
  }

  /** Sorting changes nothing but the order. */
  lemma PermutedCounts(counters: seq<Exporter.XidReading>, sorted: seq<Exporter.XidReading>, history: seq<Event>)
    requires Counts(counters, history) && sorted == SortCounters(counters)
    ensures Counts(sorted, history) && Sorted(sorted)
  {
    SortCountersSorts(counters);
    SortedIsDistinct(sorted);
    forall i | 0 <= i < |sorted|
      ensures Shows(sorted[i], history)
    {
      assert sorted[i] in counters;
      var k :| 0 <= k < |counters| && counters[k] == sorted[i];
    }
    forall e | e in history
      ensures exists i :: 0 <= i < |sorted| && sorted[i].uuid == e.uuid && sorted[i].xid == e.xid
    {
      var k :| 0 <= k < |counters| && counters[k].uuid == e.uuid && counters[k].xid == e.xid;
      assert counters[k] in sorted;
      var i :| 0 <= i < |sorted| && sorted[i] == counters[k];
    }
  }

  class Accumulator {
    var stats: Xids
    ghost var history: seq<Event>

    /** The state is what the observed events make of nothing. */
    ghost predicate Valid()
      reads this
    {
      AllSingle(history) && stats == BumpedAll(map[], history)
    }

    constructor ()
      ensures Valid() && history == []
    {
      stats, history := map[], [];
    }

    /** bump. */
    method Bump(uuid: string, xid: nat, at: int)
      requires Valid()
      modifies this
      ensures Valid() && history == old(history) + [Observed(uuid, xid, at)]
      ensures CountOf(stats, uuid, xid) == CountOf(old(stats), uuid, xid) + 1
      ensures StatOf(stats, uuid, xid).Some? && StatOf(stats, uuid, xid).value.last == at
    {
      var perGpu := if uuid in stats then stats[uuid] else map[];
      var stat := if xid in perGpu then perGpu[xid] else Stat(0, at);
      stats := stats[uuid := perGpu[xid := Stat(stat.count + 1, at)]];
      history := history + [Observed(uuid, xid, at)];
      assert history[..|history| - 1] == old(history);
    }

    /** counts: one counter per observed pair, sorted by GPU and code. */
    method Snapshot() returns (counters: seq<Exporter.XidReading>)
      requires Valid()
      ensures Counts(counters, history) && Sorted(counters)
    {
      var unsorted := Gather();
      counters := SortCounters(unsorted);
      PermutedCounts(unsorted, counters, history);
    }

    /** The counters in whatever order the maps yield them. */
    method Gather() returns (counters: seq<Exporter.XidReading>)
      requires Valid()
      ensures Counts(counters, history)
    {
      counters := [];
      var todo := stats.Keys;
      while todo != {}
        invariant todo <= stats.Keys && Listed(counters, stats)
        invariant forall i :: 0 <= i < |counters| ==> counters[i].uuid !in todo
        invariant forall u, x :: u in stats && u !in todo && x in stats[u] ==> Lists(counters, u, x)
        decreases todo
      {
        var uuid :| uuid in todo;
        todo := todo - {uuid};
        counters := ListGpu(counters, uuid);
      }
      ListedCounts(counters, stats, history);
    }

    /** One GPU's counters, behind those of other GPUs. */
    method ListGpu(before: seq<Exporter.XidReading>, uuid: string) returns (counters: seq<Exporter.XidReading>)
      requires uuid in stats && Listed(before, stats) && forall i :: 0 <= i < |before| ==> before[i].uuid != uuid
      ensures before <= counters && Listed(counters, stats)
      ensures forall i :: |before| <= i < |counters| ==> counters[i].uuid == uuid
      ensures forall x :: x in stats[uuid] ==> Lists(counters, uuid, x)
    {
      counters := before;
      var todo := stats[uuid].Keys;
      while todo != {}
        invariant todo <= stats[uuid].Keys && before <= counters && Listed(counters, stats)
        invariant forall i :: |before| <= i < |counters| ==> counters[i].uuid == uuid && counters[i].xid !in todo
        invariant forall x :: x in stats[uuid] && x !in todo ==> Lists(counters, uuid, x)
        decreases todo
      {
        var xid :| xid in todo;
        todo := todo - {xid};
        var stat := stats[uuid][xid];
        ghost var shorter := counters;
        counters := counters + [Exporter.XidReading(uuid, xid, stat.count, stat.last as real)];
        assert counters[|shorter|].xid == xid;
        assert forall i :: 0 <= i < |shorter| ==> counters[i] == shorter[i];
      }
    }
  }

  predicate Lists(counters: seq<Exporter.XidReading>, uuid: string, xid: nat) {
    exists i :: 0 <= i < |counters| && counters[i].uuid == uuid && counters[i].xid == xid
  }

  predicate OfStat(c: Exporter.XidReading, stats: Xids) {
    var s := StatOf(stats, c.uuid, c.xid);
    s.Some? && c.count == s.value.count && c.lastSeen == s.value.last as real
  }

  /** Every counter is of an accumulated pair, none twice. */
  ghost predicate Listed(counters: seq<Exporter.XidReading>, stats: Xids) {
    && Scrapes.DistinctXids(counters)
    && forall i :: 0 <= i < |counters| ==> OfStat(counters[i], stats)
  }

  lemma {:induction false} EveryEventIsAccumulated(history: seq<Event>, e: Event)
    requires e in history
    ensures StatOf(BumpedAll(map[], history), e.uuid, e.xid).Some?
    decreases |history|
  {
    var n := |history| - 1;
    if e in history[..n] {
      EveryEventIsAccumulated(history[..n], e);
    }
  }

  lemma ListedCounts(counters: seq<Exporter.XidReading>, stats: Xids, history: seq<Event>)
    requires AllSingle(history) && stats == BumpedAll(map[], history) && Listed(counters, stats)
    requires forall u, x :: u in stats && x in stats[u] ==> Lists(counters, u, x)
    ensures Counts(counters, history)
  {
    forall i | 0 <= i < |counters|
      ensures Shows(counters[i], history)
    {
      assert OfStat(counters[i], stats);
      CountsAreExact(map[], history, counters[i].uuid, counters[i].xid);
      SingleEventsCount(history, counters[i].uuid, counters[i].xid);
      LastsAreExact(history, counters[i].uuid, counters[i].xid);
    }
    forall e | e in history
      ensures Lists(counters, e.uuid, e.xid)
    {
      EveryEventIsAccumulated(history, e);
    }
  }
}
