/** The synchronous source's shared state. Each method is one locked transition of the single-flight protocol. */
module Live {
  import opened Basics
  import opened Collect

  /** One collection run; `snapshot` is written just before `done` is closed, so Some means closed. */
  datatype RunState = RunState(waiters: int, cancelled: bool, snapshot: Option<Snapshot>)

  /** What the mutex guards. Runs are named by the order they started in; finished ones stay listed. */
  datatype Hub = Hub(runs: seq<RunState>, inflight: Option<nat>, totals: Totals)

  const IDLE := Hub([], None, NO_TOTALS)

  predicate Known(h: Hub, r: nat) { r < |h.runs| }

  /** The run a new caller is attached to. */
  function Joined(h: Hub): nat {
    if h.inflight.Some? then h.inflight.value else |h.runs|
  }

  predicate Slotted(h: Hub) { h.inflight.Some? ==> Known(h, h.inflight.value) }

  function Join(h: Hub): Hub
    requires Slotted(h)
  {
    var started := if h.inflight.Some? then h else h.(runs := h.runs + [RunState(0, false, None)], inflight := Some(|h.runs|));
    var r := started.inflight.value;
    started.(runs := started.runs[r := started.runs[r].(waiters := started.runs[r].waiters + 1)])
  }

  /** The last one out cancels the run and takes it out of the joinable slot. */
  function Leave(h: Hub, r: nat): Hub
    requires Known(h, r)
  {
    var run := h.runs[r].(waiters := h.runs[r].waiters - 1);
    if run.waiters == 0 && h.inflight == Some(r)
    then h.(runs := h.runs[r := run.(cancelled := true)], inflight := None)
    else h.(runs := h.runs[r := run])
  }

  /** Folding, leaving the slot and publishing are one transition. */
  function Publish(h: Hub, r: nat, raw: Snapshot): Hub
    requires Known(h, r)
  {
    var totals := Fold(h.totals, raw);
    Hub(h.runs[r := h.runs[r].(snapshot := Some(Stamped(totals, raw)))],
        if h.inflight == Some(r) then None else h.inflight,
        totals)
  }

  /** The cancel deferred by run, after it published. */
  function Unwind(h: Hub, r: nat): Hub
    requires Known(h, r)
  {
    h.(runs := h.runs[r := h.runs[r].(cancelled := true)])
  }

  class Flight {
    var waiters: int
    var cancelled: bool
    var snapshot: Option<Snapshot>

    constructor ()
      ensures waiters == 0 && !cancelled && snapshot == None
    {
      waiters, cancelled, snapshot := 0, false, None;
    }

    function View(): RunState
      reads this
    {
      RunState(waiters, cancelled, snapshot)
    }
  }

  class LiveSource {
    var inflight: Flight?
    const counters: Counters
    /** Every flight ever started; `slot` names the one in the joinable slot. */
    ghost var flights: seq<Flight>
    ghost var slot: Option<nat>

    ghost predicate Valid()
      reads this
    {
      && (forall i, j :: 0 <= i < j < |flights| ==> flights[i] != flights[j])
      && (slot.None? <==> inflight == null)
      && (slot.Some? ==> slot.value < |flights| && flights[slot.value] == inflight)
    }

    ghost function View(): Hub
      reads this, counters, flights
    {
      Hub(seq(|flights|, i requires 0 <= i < |flights| reads this, flights => flights[i].View()), slot, counters.View())
    }

    constructor ()
      ensures Valid() && View() == IDLE && fresh(counters)
    {
      inflight, flights, slot := null, [], None;
      counters := new Counters();
      new;
      assert View().runs == [];
    }

    method JoinRun() returns (shared: Flight, ghost r: nat)
      requires Valid()
      modifies this, flights
      ensures Valid() && View() == Join(old(View()))
      ensures r == Joined(old(View())) && r < |flights| && flights[r] == shared
      ensures old(flights) <= flights && forall f :: f in flights && f !in old(flights) ==> fresh(f)
    {
      ghost var before := View();
      if inflight == null {
        var started := new Flight();
        flights, slot := flights + [started], Some(|flights|);
        inflight := started;
      }
      inflight.waiters := inflight.waiters + 1;
      shared, r := inflight, slot.value;
      assert View().runs == Join(before).runs;
    }

    method LeaveRun(shared: Flight, ghost r: nat)
      requires Valid() && r < |flights| && flights[r] == shared
      modifies this, shared
      ensures Valid() && flights == old(flights) && View() == Leave(old(View()), r)
    {
      ghost var before := View();
      shared.waiters := shared.waiters - 1;
      if shared.waiters == 0 && inflight == shared {
        shared.cancelled := true;
        inflight, slot := null, None;
      }
      assert View().runs == Leave(before, r).runs;
    }

    method PublishRun(shared: Flight, ghost r: nat, raw: Snapshot)
      requires Valid() && r < |flights| && flights[r] == shared
      modifies this, shared, counters
      ensures Valid() && flights == old(flights) && View() == Publish(old(View()), r, raw)
    {
      ghost var before := View();
      var folded := counters.FoldCumulative(raw);
      if inflight == shared {
        inflight, slot := null, None;
      }
      shared.snapshot := Some(folded);
      assert View().runs == Publish(before, r, raw).runs;
    }

    method UnwindRun(shared: Flight, ghost r: nat)
      requires Valid() && r < |flights| && flights[r] == shared
      modifies shared
      ensures Valid() && flights == old(flights) && View() == Unwind(old(View()), r)
    {
      ghost var before := View();
      shared.cancelled := true;
      assert View().runs == Unwind(before, r).runs;
    }

    method NoResult() returns (snapshot: Snapshot)
      requires Valid()
      ensures snapshot == HealthOnly(View().totals)
      ensures snapshot.failures == counters.failures && snapshot.lastSuccess == counters.lastOK
      ensures !snapshot.attempted && !snapshot.success && snapshot.table.None? && snapshot.apps == []
    {
      snapshot := NOTHING.(failures := counters.failures, lastSuccess := counters.lastOK);
    }
  }
}
