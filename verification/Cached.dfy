/** The background source: one attempt per tick, readers see the last published outcome. */
module Cached {
  import opened Basics
  import opened Collect

  /** What a tick is given: the query's answer and the clock before and after it. */
  datatype Tick = Tick(answer: Answer, start: int, end: int)

  function Outcome(t: Tick): Snapshot { Attempt(t.answer, t.start, t.end) }

  function Outcomes(ticks: seq<Tick>): (o: seq<Snapshot>)
    ensures |o| == |ticks|
  {
    seq(|ticks|, i requires 0 <= i < |ticks| => Outcome(ticks[i]))
  }

  /** What Latest serves after a history of ticks. */
  function Served(ticks: seq<Tick>): Snapshot {
    if ticks == [] then NOTHING else Stamped(FoldAll(Outcomes(ticks)), Outcome(ticks[|ticks| - 1]))
  }

  class CachedSource {
    var published: Option<Snapshot>
    var started: bool
    const counters: Counters
    ghost var history: seq<Tick>

    ghost predicate Valid()
      reads this, counters
    {
      && counters.View() == FoldAll(Outcomes(history))
      && published == (if history == [] then None else Some(Served(history)))
    }

    constructor ()
      ensures Valid() && !started && history == [] && fresh(counters)
    {
      published, started, history := None, false, [];
      counters := new Counters();
    }

    /** One collection, folded and published. */
    method OneTick(t: Tick)
      requires Valid()
      modifies this, counters
      ensures Valid() && history == old(history) + [t] && started == old(started)
    {
      var raw, fatal := CollectOnce(t.answer, t.start, t.end, false, false);
      ghost var before := Outcomes(history);
      var folded := counters.FoldCumulative(raw);
      published := Some(folded);
      history := history + [t];
      FoldOne(before, raw);
      assert Outcomes(history) == before + [raw];
    }

    /** Runs the loop over the ticks that arrive before the context ends; only the first caller gets to. */
    method Run(ticks: seq<Tick>) returns (accepted: bool)
      requires Valid() && ticks != []
      modifies this, counters
      ensures Valid() && started
      ensures accepted <==> !old(started)
      ensures history == if accepted then old(history) + ticks else old(history)
      ensures !accepted ==> published == old(published)
    {
      if started {
        return false;
      }
      started := true;
      OneTick(ticks[0]);
      var next := 1;
      while next < |ticks|
        invariant 1 <= next <= |ticks| && Valid() && started
        invariant history == old(history) + ticks[..next]
      {
        OneTick(ticks[next]);
        next := next + 1;
      }
      assert ticks[..next] == ticks;
      return true;
    }

    method Latest() returns (snapshot: Snapshot)
      requires Valid()
      ensures snapshot == Served(history)
      ensures history == [] ==> !snapshot.attempted && !snapshot.success && snapshot.table.None? && snapshot.failures == 0
                                && snapshot.lastSuccess.None?
    {
      return if published.Some? then published.value else NOTHING;
    }
  }

  /** Readers see the newest attempt's data together with counters that count every tick so far exactly once. */
  lemma ServedAfterTicks(ticks: seq<Tick>)
    requires ticks != []
    ensures var s := Served(ticks);
            var o := Outcomes(ticks);
            var newest := ticks[|ticks| - 1];
            && s.attempted && s.exitCode == newest.answer.exitCode && s.duration == newest.end - newest.start
            && s.failure == newest.answer.failure && (s.success <==> newest.answer.failure.None?)
            && s.failures == |FailedAt(o)|
            && (s.success ==> s.table == Some(newest.answer.reading.table) && s.apps == newest.answer.reading.apps
                              && s.extras == newest.answer.reading.extras && s.lastSuccess == Some(newest.end))
            && (!s.success ==> s.table.None? && s.apps == [])
            && (forall k: nat :: LastSuccessAt(o, k) ==> s.lastSuccess == Some(ticks[k].end))
            && (s.lastSuccess.Some? ==> exists k: nat :: LastSuccessAt(o, k))
  {
    var o := Outcomes(ticks);
    FoldCountsEachOnce(o);
    if exists i :: 0 <= i < |o| && o[i].success {
      var k := LastSuccessExists(o);
    }
    if Served(ticks).success {
      assert LastSuccessAt(o, |o| - 1);
    }
  }

  lemma {:induction false} LastSuccessExists(o: seq<Snapshot>) returns (k: nat)
    requires exists i :: 0 <= i < |o| && o[i].success
    ensures LastSuccessAt(o, k)
    decreases |o|
  {
    k := |o| - 1;
    if !o[k].success {
      var i :| 0 <= i < |o| && o[i].success;
      assert o[..k][i].success;
      k := LastSuccessExists(o[..k]);
    }
  }
}
