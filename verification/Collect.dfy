/** One collection attempt and the counters every source folds its attempts into. Times are nanoseconds. */
module Collect {
  import opened Basics

  /** What one collection cycle produced. Tables, processes and extras are opaque contents here, named by numbers. */
  datatype Reading = Reading(table: nat, apps: seq<nat>, appsAttempted: bool, appsSuccess: bool, extras: nat)

  /** Why a collection failed, as far as shutdown-on-error looks at it. */
  datatype Failure = CommandExit | Fatal | Plain

  /** What the query function returned. */
  datatype Answer = Answer(reading: Reading, exitCode: int, failure: Option<Failure>)

  datatype Snapshot = Snapshot(
    attempted: bool,
    success: bool,
    table: Option<nat>,
    apps: seq<nat>,
    appsAttempted: bool,
    appsSuccess: bool,
    extras: nat,
    exitCode: int,
    duration: int,
    lastSuccess: Option<int>,
    failures: nat,
    failure: Option<Failure>)

  /** The snapshot of a source nobody collected for yet; no extras is 0. */
  const NOTHING := Snapshot(false, false, None, [], false, false, 0, 0, 0, None, 0, None)

  /** The outcome of one attempt, its cumulative fields not yet folded in. */
  function Attempt(answer: Answer, start: int, now: int): Snapshot {
    var failed := NOTHING.(attempted := true, exitCode := answer.exitCode, duration := now - start,
                           failure := answer.failure);
    if answer.failure.Some? then failed
    else
      failed.(success := true, table := Some(answer.reading.table), apps := answer.reading.apps,
              appsAttempted := answer.reading.appsAttempted, appsSuccess := answer.reading.appsSuccess,
              extras := answer.reading.extras, lastSuccess := Some(now))
  }

  /**
   Runs one attempt field by field, the way a snapshot is filled. The fatal hook fires on a genuine failure, not on a
   timeout the collector caused itself.
   */
  method CollectOnce(answer: Answer, start: int, now: int, contextEnded: bool, hooked: bool)
    returns (snapshot: Snapshot, fatal: bool)
    ensures snapshot == Attempt(answer, start, now)
    ensures fatal <==> hooked && !contextEnded && answer.failure in {Some(CommandExit), Some(Fatal)}
    ensures snapshot.attempted && snapshot.exitCode == answer.exitCode && snapshot.duration == now - start
    ensures snapshot.failure == answer.failure && (snapshot.success <==> answer.failure.None?)
    ensures snapshot.success ==> snapshot.table == Some(answer.reading.table) && snapshot.lastSuccess == Some(now)
    ensures snapshot.success ==> snapshot.apps == answer.reading.apps && snapshot.extras == answer.reading.extras
    ensures snapshot.success ==> snapshot.appsAttempted == answer.reading.appsAttempted
                                 && snapshot.appsSuccess == answer.reading.appsSuccess
    ensures !snapshot.success ==> snapshot.table.None? && snapshot.apps == [] && snapshot.lastSuccess.None?
                                  && !snapshot.appsAttempted && !snapshot.appsSuccess && snapshot.extras == 0
  {
    snapshot := NOTHING;
    snapshot := snapshot.(attempted := true, exitCode := answer.exitCode);
    snapshot := snapshot.(duration := now - start, failure := answer.failure);
    fatal := false;
    if answer.failure.Some? {
      if !contextEnded && hooked && (answer.failure.value.CommandExit? || answer.failure.value.Fatal?) {
        fatal := true;
      }
      return;
    }
    snapshot := snapshot.(success := true, table := Some(answer.reading.table), apps := answer.reading.apps);
    snapshot := snapshot.(appsAttempted := answer.reading.appsAttempted, appsSuccess := answer.reading.appsSuccess);
    snapshot := snapshot.(extras := answer.reading.extras, lastSuccess := Some(now));
  }

  /** The cumulative health state. */
  datatype Totals = Totals(failures: nat, lastOK: Option<int>)

  const NO_TOTALS := Totals(0, None)

  function Fold(t: Totals, s: Snapshot): Totals {
    if s.success then t.(lastOK := s.lastSuccess) else t.(failures := t.failures + 1)
  }

  /** The snapshot with the folded values stamped on. */
  function Stamped(t: Totals, s: Snapshot): Snapshot {
    s.(failures := t.failures, lastSuccess := t.lastOK)
  }

  /** A no-data snapshot that carries the health state. */
  function HealthOnly(t: Totals): Snapshot {
    Stamped(t, NOTHING)
  }

  /** foldCumulative: the counters live behind pointers, so they are updated in place. */
  class Counters {
    var failures: nat
    var lastOK: Option<int>

    constructor ()
      ensures View() == NO_TOTALS
    {
      failures := 0;
      lastOK := None;
    }

    function View(): Totals
      reads this
    {
      Totals(failures, lastOK)
    }

    method FoldCumulative(snapshot: Snapshot) returns (folded: Snapshot)
      modifies this
      ensures View() == Fold(old(View()), snapshot)
      ensures folded == Stamped(View(), snapshot)
      ensures failures == old(failures) + if snapshot.success then 0 else 1
      ensures lastOK == if snapshot.success then snapshot.lastSuccess else old(lastOK)
      ensures folded == snapshot.(failures := failures, lastSuccess := lastOK)
    {
      if snapshot.success {
        lastOK := snapshot.lastSuccess;
      } else {
        failures := failures + 1;
      }
      folded := snapshot.(failures := failures, lastSuccess := lastOK);
    }
  }

  /** The fold over a whole history of outcomes. */
  function FoldAll(outcomes: seq<Snapshot>): Totals
    decreases |outcomes|
  {
    if outcomes == [] then NO_TOTALS else Fold(FoldAll(outcomes[..|outcomes| - 1]), outcomes[|outcomes| - 1])
  }

  lemma FoldOne(outcomes: seq<Snapshot>, s: Snapshot)
    ensures FoldAll(outcomes + [s]) == Fold(FoldAll(outcomes), s)
  {
    assert (outcomes + [s])[..|outcomes|] == outcomes;
  }

  /** The failed outcomes of a history, by position. */
  function FailedAt(outcomes: seq<Snapshot>): set<nat> {
    set i: nat | i < |outcomes| && !outcomes[i].success
  }

  /** The last successful outcome stands at `k`. */
  predicate LastSuccessAt(outcomes: seq<Snapshot>, k: nat) {
    k < |outcomes| && outcomes[k].success && forall i :: k < i < |outcomes| ==> !outcomes[i].success
  }

  /** A lastOK is that of some last success. */
  lemma {:induction false} LastSuccessExists(outcomes: seq<Snapshot>)
    ensures FoldAll(outcomes).lastOK.Some? ==> exists k: nat :: LastSuccessAt(outcomes, k)
    decreases |outcomes|
  {
    if outcomes != [] {
      var n: nat := |outcomes| - 1;
      LastSuccessExists(outcomes[..n]);
      if outcomes[n].success {
        assert LastSuccessAt(outcomes, n);
      } else if FoldAll(outcomes).lastOK.Some? {
        var k: nat :| LastSuccessAt(outcomes[..n], k);
        assert LastSuccessAt(outcomes, k);
      }
    }
  }

  /** Every outcome counts once: failures are the failed ones, lastOK belongs to the last successful one. */
  lemma {:induction false} FoldCountsEachOnce(outcomes: seq<Snapshot>)
    ensures FoldAll(outcomes).failures == |FailedAt(outcomes)|
    ensures (forall i :: 0 <= i < |outcomes| ==> !outcomes[i].success) ==> FoldAll(outcomes).lastOK.None?
    ensures forall k: nat :: LastSuccessAt(outcomes, k) ==> FoldAll(outcomes).lastOK == outcomes[k].lastSuccess
    decreases |outcomes|
  {
    if outcomes == [] {
    } else {
      var n := |outcomes| - 1;
      var earlier := outcomes[..n];
      FoldCountsEachOnce(earlier);
      if outcomes[n].success {
        assert FailedAt(outcomes) == FailedAt(earlier);
      } else {
        assert FailedAt(outcomes) == FailedAt(earlier) + {n};
        forall k: nat | LastSuccessAt(outcomes, k)
          ensures FoldAll(outcomes).lastOK == outcomes[k].lastSuccess
        {
          assert LastSuccessAt(earlier, k);
        }
      }
    }
  }

  /** The counters of a snapshot are those of a history: how many attempts failed, and when the last one succeeded. */
  ghost predicate Carries(s: Snapshot, outcomes: seq<Snapshot>) {
    && s.failures == |FailedAt(outcomes)|
    && (forall j: nat :: LastSuccessAt(outcomes, j) ==> s.lastSuccess == outcomes[j].lastSuccess)
    && ((forall j: nat :: !LastSuccessAt(outcomes, j)) ==> s.lastSuccess.None?)
  }

  /** Stamped with the fold of a history, a snapshot carries its counters and is otherwise the one it was. */
  lemma StampedCarries(outcomes: seq<Snapshot>, s: Snapshot)
    ensures var t := Stamped(FoldAll(outcomes), s);
            Carries(t, outcomes) && t == s.(failures := t.failures, lastSuccess := t.lastSuccess)
  {
    FoldCountsEachOnce(outcomes);
    LastSuccessExists(outcomes);
  }
}
