/**
 Every interleaving of any number of callers and collection runs on one synchronous source. The locked transitions
 are the ones of module Live; between them callers check their context, select, and check again, queries return in any
 order with any answer, contexts end whenever they like, and an abandoned run may unwind beside a fresh one.
 */
module LiveProtocol {
  import opened Basics
  import opened Collect
  import opened Live

  /** Where a Latest call stands. */
  datatype Phase =
    | Ready                               // the entry check of the context is next
    | Refused                             // it failed, noResult is next
    | Admitted                            // it passed, join is next
    | Waiting(run: nat)                   // in the select
    | Gone(run: nat)                      // left after the context ended, the second select is next
    | Declined(run: nat)                  // nothing was published by then, noResult is next
    | Served(run: nat, snapshot: Snapshot)
    | Empty(snapshot: Snapshot)

  /** `entered` and `since` are the publication counts when the call began and when it joined. */
  datatype Caller = Caller(phase: Phase, ended: bool, entered: nat, since: nat, holds: Option<nat>)

  datatype World = World(
    hub: Hub,
    raws: seq<Option<Snapshot>>, // per run, the attempt's outcome once its query returned
    log: seq<nat>,               // the published runs, in order
    outcomes: seq<Snapshot>,     // their outcomes, as folded
    callers: seq<Caller>,
    abandoned: set<nat>,         // runs cancelled before they published
    now: int)

  datatype Action =
    | Call | EndContext(c: nat) | CheckEntry(c: nat) | JoinFlight(c: nat) | Take(c: nat) | LeaveFlight(c: nat)
    | TakeLate(c: nat) | Decline(c: nat) | GiveNothing(c: nat)
    | QueryReturns(r: nat, answer: Answer, start: int) | PublishFlight(r: nat) | UnwindFlight(r: nat) | Wait(d: nat)

  const START := World(IDLE, [], [], [], [], {}, 0)

  predicate Published(w: World, r: nat) { r < |w.hub.runs| && w.hub.runs[r].snapshot.Some? }

  function Moved(w: World, c: nat, p: Phase): World
    requires c < |w.callers|
  {
    w.(callers := w.callers[c := w.callers[c].(phase := p)])
  }

  function CallerNext(w: World, a: Action, c: nat): Option<World>
    requires c < |w.callers|
  {
    var me := w.callers[c];
    match a
    case EndContext(_) => Some(w.(callers := w.callers[c := me.(ended := true)]))
    case CheckEntry(_) =>
      if me.phase.Ready? then Some(Moved(w, c, if me.ended then Refused else Admitted)) else None
    case JoinFlight(_) =>
      if !me.phase.Admitted? || !Slotted(w.hub) then None
      else
        var r := Joined(w.hub);
        Some(w.(hub := Join(w.hub),
                raws := if w.hub.inflight.Some? then w.raws else w.raws + [None],
                callers := w.callers[c := me.(phase := Waiting(r), since := |w.log|, holds := Some(r))]))
    case Take(_) =>
      if me.phase.Waiting? && Published(w, me.phase.run)
      then Some(Moved(w, c, Served(me.phase.run, w.hub.runs[me.phase.run].snapshot.value)))
      else None
    case LeaveFlight(_) =>
      if !me.phase.Waiting? || !me.ended || !Known(w.hub, me.phase.run) then None
      else
        var r := me.phase.run;
        var hub := Leave(w.hub, r);
        Some(w.(hub := hub,
                abandoned := if hub.runs[r].cancelled && !Published(w, r) then w.abandoned + {r} else w.abandoned,
                callers := w.callers[c := me.(phase := Gone(r), holds := None)]))
    case TakeLate(_) =>
      if me.phase.Gone? && Published(w, me.phase.run)
      then Some(Moved(w, c, Served(me.phase.run, w.hub.runs[me.phase.run].snapshot.value)))
      else None
    case Decline(_) =>
      if me.phase.Gone? && !Published(w, me.phase.run) then Some(Moved(w, c, Declined(me.phase.run))) else None
    case GiveNothing(_) =>
      if me.phase.Declined? || me.phase.Refused? then Some(Moved(w, c, Empty(HealthOnly(w.hub.totals)))) else None
    case _ => None
  }

  function RunNext(w: World, a: Action): Option<World> {
    match a
    case QueryReturns(r, answer, start) =>
      if r < |w.raws| && w.raws[r].None? then Some(w.(raws := w.raws[r := Some(Attempt(answer, start, w.now))])) else None
    case PublishFlight(r) =>
      if r < |w.raws| && w.raws[r].Some? && Known(w.hub, r) && !Published(w, r)
      then Some(w.(hub := Publish(w.hub, r, w.raws[r].value), log := w.log + [r], outcomes := w.outcomes + [w.raws[r].value]))
      else None
    case UnwindFlight(r) => if Published(w, r) then Some(w.(hub := Unwind(w.hub, r))) else None
    case Wait(d) => Some(w.(now := w.now + d))
    case _ => None
  }

  function Next(w: World, a: Action): Option<World> {
    match a
    case Call => Some(w.(callers := w.callers + [Caller(Ready, false, |w.log|, 0, None)]))
    case QueryReturns(_, _, _) => RunNext(w, a)
    case PublishFlight(_) => RunNext(w, a)
    case UnwindFlight(_) => RunNext(w, a)
    case Wait(_) => RunNext(w, a)
    case _ => if a.c < |w.callers| then CallerNext(w, a, a.c) else None
  }

  function Run(w: World, actions: seq<Action>): Option<World>
    decreases |actions|
  {
    if actions == [] then Some(w)
    else
      var next := Next(w, actions[0]);
      if next.None? then None else Run(next.value, actions[1..])
  }

  ghost predicate Reachable(w: World) {
    exists actions :: Run(START, actions) == Some(w)
  }

  // ---------------------------------------------------------------- invariants

  /** The callers counted as waiters of a run: joined and not left. */
  function Holders(callers: seq<Caller>, r: nat): set<nat> {
    set c: nat | c < |callers| && callers[c].holds == Some(r)
  }

  ghost predicate HubInv(w: World) {
    var h := w.hub;
    && |w.raws| == |h.runs|
    && Slotted(h)
    // the un-cancelled, unpublished run is the joinable one, so there is at most one
    && (forall r: nat :: r < |h.runs| ==> (h.inflight == Some(r) <==> !h.runs[r].cancelled && h.runs[r].snapshot.None?))
    && (h.inflight.Some? ==> h.runs[h.inflight.value].waiters >= 1)
    && (forall r :: r in w.abandoned ==> r < |h.runs| && h.runs[r].cancelled)
    && (forall r: nat :: r < |h.runs| && h.runs[r].cancelled && h.runs[r].snapshot.None? ==>
          r in w.abandoned && h.runs[r].waiters == 0)
  }

  ghost predicate CountInv(w: World) {
    forall r: nat :: r < |w.hub.runs| ==> w.hub.runs[r].waiters == |Holders(w.callers, r)|
  }

  /** The k-th publication: its run's outcome, stamped with the totals of the first k + 1. */
  predicate Logged(w: World, k: nat)
    requires k < |w.log| == |w.outcomes|
  {
    && w.log[k] < |w.raws| && w.log[k] < |w.hub.runs|
    && w.raws[w.log[k]] == Some(w.outcomes[k])
    && w.hub.runs[w.log[k]].snapshot == Some(Stamped(FoldAll(w.outcomes[..k + 1]), w.outcomes[k]))
  }

  ghost predicate LogInv(w: World) {
    && |w.outcomes| == |w.log|
    && (forall i, j :: 0 <= i < j < |w.log| ==> w.log[i] != w.log[j])
    && (forall r: nat :: r in w.log <==> Published(w, r))
    && w.hub.totals == FoldAll(w.outcomes)
    && (forall k: nat :: k < |w.log| ==> Logged(w, k))
    && (forall r: nat :: r < |w.raws| && w.raws[r].Some? ==> w.raws[r].value.attempted)
  }

  /** Run `r`'s publication, if there is one, came after the first `since` publications. */
  predicate NotBefore(w: World, r: nat, since: nat) {
    since <= |w.log| && r !in w.log[..since]
  }

  ghost predicate CallerInv(w: World, m: Caller) {
    && m.entered <= |w.log|
    && (m.holds.Some? ==> m.holds.value < |w.hub.runs|)
    && match m.phase
       case Ready => m.holds.None?
       case Refused => m.holds.None? && m.ended
       case Admitted => m.holds.None?
       case Waiting(r) => m.holds == Some(r) && m.entered <= m.since && NotBefore(w, r, m.since)
       case Gone(r) => m.holds.None? && r < |w.hub.runs| && m.ended && m.entered <= m.since && NotBefore(w, r, m.since)
       case Declined(r) => m.holds.None? && m.ended
       case Served(r, s) =>
         && (m.holds.None? || m.holds == Some(r)) && m.entered <= m.since && NotBefore(w, r, m.since)
         && r < |w.hub.runs| && w.hub.runs[r].snapshot == Some(s)
       case Empty(s) => m.holds.None? && m.ended && HealthSeen(w, m.entered, s)
  }

  /** `s` carries the health state after some publication count since `from`. */
  ghost predicate HealthSeen(w: World, from: nat, s: Snapshot) {
    exists k: nat :: from <= k <= |w.outcomes| && s == HealthOnly(FoldAll(w.outcomes[..k]))
  }

  ghost predicate Inv(w: World) {
    && HubInv(w)
    && CountInv(w)
    && LogInv(w)
    && CallersInv(w)
  }

  ghost predicate CallersInv(w: World) {
    forall c: nat :: c < |w.callers| ==> CallerInv(w, w.callers[c])
  }

  /** Changing one caller's hold moves the counts of the runs it lets go of and takes by one. */
  lemma HoldersUpdate(callers: seq<Caller>, c: nat, m: Caller, r: nat)
    requires c < |callers|
    ensures Holders(callers[c := m], r)
            == (Holders(callers, r) - {c}) + (if m.holds == Some(r) then {c} else {})
    ensures |Holders(callers[c := m], r)|
            == |Holders(callers, r)| - (if callers[c].holds == Some(r) then 1 else 0) + (if m.holds == Some(r) then 1 else 0)
  {
    var before, after := Holders(callers, r), Holders(callers[c := m], r);
    assert after == (before - {c}) + (if m.holds == Some(r) then {c} else {});
    if callers[c].holds == Some(r) {
      assert |before - {c}| == |before| - 1;
    } else {
      assert before - {c} == before;
    }
  }

  lemma HoldersSame(callers: seq<Caller>, more: seq<Caller>)
    requires |callers| <= |more|
    requires forall c: nat :: c < |callers| ==> more[c].holds == callers[c].holds
    requires forall c: nat :: |callers| <= c < |more| ==> more[c].holds.None?
    ensures forall r :: Holders(more, r) == Holders(callers, r)
  {
  }

  /** The history only grows: same runs, same published snapshots, longer log. */
  ghost predicate Grows(w: World, v: World) {
    && |w.hub.runs| <= |v.hub.runs|
    && (forall r: nat :: r < |w.hub.runs| && w.hub.runs[r].snapshot.Some? ==> v.hub.runs[r].snapshot == w.hub.runs[r].snapshot)
    && w.log <= v.log
    && w.outcomes <= v.outcomes
    && (forall r: nat :: r < |w.hub.runs| && r !in w.log && r in v.log ==> r !in v.log[..|w.log|])
  }

  lemma CallersKeep(w: World, v: World, m: Caller)
    requires Grows(w, v) && CallerInv(w, m)
    ensures CallerInv(v, m)
  {
    assert v.log[..|w.log|] == w.log;
    if m.phase.Waiting? || m.phase.Gone? || m.phase.Served? {
      assert v.log[..m.since] == w.log[..m.since];
    }
    if m.phase.Empty? {
      var k: nat :| m.entered <= k <= |w.outcomes| && m.phase.snapshot == HealthOnly(FoldAll(w.outcomes[..k]));
      assert v.outcomes[..k] == w.outcomes[..k];
    }
  }

  // ---------------------------------------------------------------- each kind of step

  lemma CallKeepsInv(w: World)
    requires Inv(w)
    ensures Inv(Next(w, Call).value)
  {
    var v := Next(w, Call).value;
    LogKeeps(w, v);
    HoldersSame(w.callers, v.callers);
    forall c: nat | c < |v.callers|
      ensures CallerInv(v, v.callers[c])
    {
      if c < |w.callers| {
        CallersKeep(w, v, w.callers[c]);
      }
    }
  }

  /** A step that changes one caller, keeps what it holds, and nothing else. */
  lemma PhaseKeepsInv(w: World, c: nat, m: Caller)
    requires Inv(w) && c < |w.callers| && m.holds == w.callers[c].holds && CallerInv(w, m)
    ensures Inv(w.(callers := w.callers[c := m]))
  {
    var v := w.(callers := w.callers[c := m]);
    LogKeeps(w, v);
    HoldersSame(w.callers, v.callers);
    forall i: nat | i < |v.callers|
      ensures CallerInv(v, v.callers[i])
    {
      CallersKeep(w, v, if i == c then m else w.callers[i]);
    }
  }

  /** A step that publishes nothing keeps the log's invariant. */
  lemma LogKeeps(w: World, v: World)
    requires LogInv(w) && Slotted(w.hub) && |w.raws| == |w.hub.runs| <= |v.hub.runs| == |v.raws|
    requires v.log == w.log && v.outcomes == w.outcomes && v.hub.totals == w.hub.totals
    requires forall r: nat :: r < |w.hub.runs| ==> v.hub.runs[r].snapshot == w.hub.runs[r].snapshot
    requires forall r: nat :: |w.hub.runs| <= r < |v.hub.runs| ==> v.hub.runs[r].snapshot.None?
    requires forall r: nat :: r < |w.raws| && w.raws[r].Some? ==> v.raws[r] == w.raws[r]
    requires forall r: nat :: r < |v.raws| && v.raws[r].Some? ==> v.raws[r].value.attempted
    ensures LogInv(v) && Grows(w, v)
  {
    forall r: nat
      ensures r in v.log <==> Published(v, r)
    {
      assert r in w.log <==> Published(w, r);
    }
    forall k: nat | k < |v.log|
      ensures Logged(v, k)
    {
      assert Logged(w, k);
    }
  }

  /** The other callers' invariants survive whatever grows the history. */
  lemma OthersKeep(w: World, v: World, c: nat)
    requires CallersInv(w) && Grows(w, v) && c < |w.callers| && |v.callers| == |w.callers|
    requires v.callers == w.callers[c := v.callers[c]] && CallerInv(v, v.callers[c])
    ensures CallersInv(v)
  {
    forall i: nat | i < |v.callers|
      ensures CallerInv(v, v.callers[i])
    {
      if i != c {
        CallersKeep(w, v, w.callers[i]);
      }
    }
  }

  lemma JoinCounts(w: World, c: nat)
    requires Inv(w) && c < |w.callers| && Next(w, JoinFlight(c)).Some?
    ensures CountInv(Next(w, JoinFlight(c)).value)
  {
    var v := Next(w, JoinFlight(c)).value;
    var m := v.callers[c];
    assert CallerInv(w, w.callers[c]);
    forall r: nat | r < |v.hub.runs|
      ensures v.hub.runs[r].waiters == |Holders(v.callers, r)|
    {
      HoldersUpdate(w.callers, c, m, r);
      if r == |w.hub.runs| {
        assert forall i: nat :: i < |w.callers| ==> CallerInv(w, w.callers[i]);
        assert Holders(w.callers, r) == {};
      }
    }
  }

  lemma JoinKeepsInv(w: World, c: nat)
    requires Inv(w) && c < |w.callers| && Next(w, JoinFlight(c)).Some?
    ensures Inv(Next(w, JoinFlight(c)).value)
  {
    var v := Next(w, JoinFlight(c)).value;
    JoinCounts(w, c);
    LogKeeps(w, v);
    var r := Joined(w.hub);
    assert !Published(w, r) && r !in w.log && w.log[..|w.log|] == w.log;
    assert CallerInv(w, w.callers[c]);
    assert HubInv(v) by {
      if w.hub.inflight.Some? {
        assert CountInv(w) && w.hub.runs[r].waiters >= 1;
      }
    }
    OthersKeep(w, v, c);
  }

  lemma LeaveCounts(w: World, c: nat)
    requires CountInv(w) && CallersInv(w) && c < |w.callers| && Next(w, LeaveFlight(c)).Some?
    ensures CountInv(Next(w, LeaveFlight(c)).value)
  {
    var v := Next(w, LeaveFlight(c)).value;
    assert CallerInv(w, w.callers[c]);
    forall r: nat | r < |v.hub.runs|
      ensures v.hub.runs[r].waiters == |Holders(v.callers, r)|
    {
      HoldersUpdate(w.callers, c, v.callers[c], r);
    }
  }

  lemma LeaveKeepsInv(w: World, c: nat)
    requires Inv(w) && c < |w.callers| && Next(w, LeaveFlight(c)).Some?
    ensures Inv(Next(w, LeaveFlight(c)).value)
  {
    var v := Next(w, LeaveFlight(c)).value;
    assert CallerInv(w, w.callers[c]);
    LeaveCounts(w, c);
    LogKeeps(w, v);
    assert HubInv(v) by {
      var r := w.callers[c].phase.run;
      assert c in Holders(w.callers, r) && w.hub.runs[r].waiters == |Holders(w.callers, r)|;
    }
    OthersKeep(w, v, c);
  }

  lemma PublishMembers(w: World, r: nat)
    requires LogInv(w) && Next(w, PublishFlight(r)).Some?
    ensures var v := Next(w, PublishFlight(r)).value;
            && (forall i, j :: 0 <= i < j < |v.log| ==> v.log[i] != v.log[j])
            && (forall q: nat :: q in v.log <==> Published(v, q))
            && Grows(w, v)
  {
    var v := Next(w, PublishFlight(r)).value;
    assert v.log[..|w.log|] == w.log && r !in w.log;
    forall q: nat
      ensures q in v.log <==> Published(v, q)
    {
      assert q in w.log <==> Published(w, q);
    }
  }

  lemma PublishLog(w: World, r: nat)
    requires LogInv(w) && |w.raws| == |w.hub.runs| && Next(w, PublishFlight(r)).Some?
    ensures LogInv(Next(w, PublishFlight(r)).value)
  {
    var v := Next(w, PublishFlight(r)).value;
    PublishMembers(w, r);
    FoldOne(w.outcomes, w.raws[r].value);
    forall k: nat | k < |v.log|
      ensures Logged(v, k)
    {
      if k < |w.log| {
        assert Logged(w, k) && w.log[k] in w.log && w.log[k] != r;
        assert v.outcomes[..k + 1] == w.outcomes[..k + 1];
      } else {
        assert v.outcomes[..k + 1] == v.outcomes;
      }
    }
  }

  lemma PublishKeepsHub(w: World, r: nat)
    requires HubInv(w) && CountInv(w) && Next(w, PublishFlight(r)).Some?
    ensures HubInv(Next(w, PublishFlight(r)).value) && CountInv(Next(w, PublishFlight(r)).value)
  {
  }

  /** The callers' invariants survive whatever grows the history and leaves the callers alone. */
  lemma AllKeep(w: World, v: World)
    requires CallersInv(w) && Grows(w, v) && v.callers == w.callers
    ensures CallersInv(v)
  {
    forall i: nat | i < |v.callers|
      ensures CallerInv(v, v.callers[i])
    {
      CallersKeep(w, v, w.callers[i]);
    }
  }

  lemma PublishKeepsInv(w: World, r: nat)
    requires Inv(w) && Next(w, PublishFlight(r)).Some?
    ensures Inv(Next(w, PublishFlight(r)).value)
  {
    PublishLog(w, r);
    PublishMembers(w, r);
    PublishKeepsHub(w, r);
    AllKeep(w, Next(w, PublishFlight(r)).value);
  }

  lemma RunStepKeepsHub(w: World, a: Action)
    requires HubInv(w) && CountInv(w) && (a.QueryReturns? || a.UnwindFlight? || a.Wait?) && Next(w, a).Some?
    ensures HubInv(Next(w, a).value) && CountInv(Next(w, a).value) && Next(w, a).value.callers == w.callers
  {
    if a.UnwindFlight? {
      assert w.hub.inflight != Some(a.r);
    }
  }

  lemma RunStepKeepsLog(w: World, a: Action)
    requires LogInv(w) && HubInv(w) && (a.QueryReturns? || a.UnwindFlight? || a.Wait?) && Next(w, a).Some?
    ensures LogInv(Next(w, a).value) && Grows(w, Next(w, a).value)
  {
    LogKeeps(w, Next(w, a).value);
  }

  /** Steps that only touch a run or the clock. */
  lemma RunStepKeepsInv(w: World, a: Action)
    requires Inv(w) && (a.QueryReturns? || a.UnwindFlight? || a.Wait?) && Next(w, a).Some?
    ensures Inv(Next(w, a).value)
  {
    var v := Next(w, a).value;
    RunStepKeepsHub(w, a);
    RunStepKeepsLog(w, a);
    AllKeep(w, v);
    assert Inv(v);
  }

  lemma CallerKeepsInv(w: World, a: Action, c: nat)
    requires Inv(w) && c < |w.callers| && CallerNext(w, a, c).Some? && Next(w, a) == CallerNext(w, a, c)
    requires a.EndContext? || a.CheckEntry? || a.Take? || a.TakeLate? || a.Decline? || a.GiveNothing?
    ensures Inv(Next(w, a).value)
  {
    var v := Next(w, a).value;
    assert CallerInv(w, w.callers[c]);
    if a.GiveNothing? {
      var k := |w.outcomes|;
      assert w.outcomes[..k] == w.outcomes;
      assert HealthSeen(w, w.callers[c].entered, HealthOnly(w.hub.totals));
    }
    PhaseKeepsInv(w, c, v.callers[c]);
    assert v == w.(callers := w.callers[c := v.callers[c]]);
  }

  lemma StepKeepsInv(w: World, a: Action)
    requires Inv(w) && Next(w, a).Some?
    ensures Inv(Next(w, a).value)
  {
    match a
    case Call => CallKeepsInv(w);
    case JoinFlight(c) => JoinKeepsInv(w, c);
    case LeaveFlight(c) => LeaveKeepsInv(w, c);
    case QueryReturns(_, _, _) => RunStepKeepsInv(w, a);
    case PublishFlight(r) => PublishKeepsInv(w, r);
    case UnwindFlight(_) => RunStepKeepsInv(w, a);
    case Wait(_) => RunStepKeepsInv(w, a);
    case _ => CallerKeepsInv(w, a, a.c);
  }

  lemma {:induction false} RunKeepsInv(w: World, actions: seq<Action>)
    requires Inv(w) && Run(w, actions).Some?
    ensures Inv(Run(w, actions).value)
    decreases |actions|
  {
    if actions == [] {
    } else {
      StepKeepsInv(w, actions[0]);
      RunKeepsInv(Next(w, actions[0]).value, actions[1..]);
    }
  }

  lemma ReachableInv(w: World)
    requires Reachable(w)
    ensures Inv(w)
  {
    var actions :| Run(START, actions) == Some(w);
    RunKeepsInv(START, actions);
  }

  // ---------------------------------------------------------------- the protocol's promises

  /** A run that was started, not cancelled, and did not publish yet. */
  predicate Alive(w: World, r: nat) {
    r < |w.hub.runs| && !w.hub.runs[r].cancelled && w.hub.runs[r].snapshot.None?
  }

  /** At most one run is alive, and it is the one new callers join. */
  lemma OneLiveRun(w: World, r: nat, q: nat)
    requires Reachable(w) && Alive(w, r) && Alive(w, q)
    ensures r == q && w.hub.inflight == Some(r)
  {
    ReachableInv(w);
  }

  /** While a run can be joined, its counter is the number of callers in their select on it, and that is not zero. */
  lemma WaitersAreCounted(w: World, r: nat)
    requires Reachable(w) && w.hub.inflight == Some(r)
    ensures r < |w.hub.runs|
    ensures var waiting := set c: nat | c < |w.callers| && w.callers[c].phase == Waiting(r);
            w.hub.runs[r].waiters == |waiting| >= 1
  {
    ReachableInv(w);
    var waiting := set c: nat | c < |w.callers| && w.callers[c].phase == Waiting(r);
    forall c: nat | c < |w.callers|
      ensures w.callers[c].holds == Some(r) <==> w.callers[c].phase == Waiting(r)
    {
      assert CallerInv(w, w.callers[c]);
    }
    assert Holders(w.callers, r) == waiting;
    assert CountInv(w);
  }

  /** Nobody waits on `r` and nobody can join it. */
  predicate Deserted(w: World, r: nat) {
    && r < |w.hub.runs| && w.hub.runs[r].cancelled && w.hub.inflight != Some(r)
    && forall c: nat :: c < |w.callers| ==> w.callers[c].phase != Waiting(r)
  }

  /** A run cancelled before it published is deserted: one caller giving up never disturbs another. */
  lemma CancelledIsDeserted(w: World, r: nat)
    requires Reachable(w) && r < |w.hub.runs| && w.hub.runs[r].cancelled && w.hub.runs[r].snapshot.None?
    ensures Deserted(w, r)
  {
    ReachableInv(w);
    assert CountInv(w) && |Holders(w.callers, r)| == 0;
    forall c: nat | c < |w.callers|
      ensures w.callers[c].phase != Waiting(r)
    {
      assert CallerInv(w, w.callers[c]) && c !in Holders(w.callers, r);
    }
  }

  lemma DesertedStep(w: World, r: nat, a: Action)
    requires Deserted(w, r) && Next(w, a).Some?
    ensures Deserted(Next(w, a).value, r)
  {
    if a.JoinFlight? {
      assert Joined(w.hub) != r;
    }
  }

  /** Deserted is for good: whatever happens next, no caller ever waits on the run again. */
  lemma {:induction false} DesertedForGood(w: World, r: nat, actions: seq<Action>)
    requires Deserted(w, r) && Run(w, actions).Some?
    ensures Deserted(Run(w, actions).value, r)
    decreases |actions|
  {
    if actions == [] {
    } else {
      DesertedStep(w, r, actions[0]);
      DesertedForGood(Next(w, actions[0]).value, r, actions[1..]);
    }
  }

  lemma WrittenStep(w: World, r: nat, a: Action)
    requires Published(w, r) && Next(w, a).Some?
    ensures Published(Next(w, a).value, r) && Next(w, a).value.hub.runs[r].snapshot == w.hub.runs[r].snapshot
  {
  }

  /** A published snapshot is written once: no later step changes it. */
  lemma {:induction false} WrittenOnce(w: World, r: nat, actions: seq<Action>)
    requires Published(w, r) && Run(w, actions).Some?
    ensures Published(Run(w, actions).value, r)
    ensures Run(w, actions).value.hub.runs[r].snapshot == w.hub.runs[r].snapshot
    decreases |actions|
  {
    if actions == [] {
    } else {
      WrittenStep(w, r, actions[0]);
      WrittenOnce(Next(w, actions[0]).value, r, actions[1..]);
    }
  }

  /**
   A served snapshot is the stamped outcome of the caller's own run, which published after the caller joined; the
   stamp is the fold of every outcome up to and including it.
   */
  lemma ServedIsFresh(w: World, c: nat) returns (k: nat)
    requires Reachable(w) && c < |w.callers| && w.callers[c].phase.Served?
    ensures w.callers[c].entered <= w.callers[c].since <= k < |w.log| == |w.outcomes|
    ensures w.log[k] == w.callers[c].phase.run
    ensures w.callers[c].phase.snapshot == Stamped(FoldAll(w.outcomes[..k + 1]), w.outcomes[k])
    ensures w.callers[c].phase.snapshot.attempted
    ensures var s, seen := w.callers[c].phase.snapshot, w.outcomes[..k + 1];
            && s == w.outcomes[k].(failures := s.failures, lastSuccess := s.lastSuccess)
            && s.failures == |FailedAt(seen)|
            && (forall j: nat :: LastSuccessAt(seen, j) ==> s.lastSuccess == seen[j].lastSuccess)
            && ((forall j: nat :: !LastSuccessAt(seen, j)) ==> s.lastSuccess.None?)
  {
    ReachableInv(w);
    var m := w.callers[c];
    assert CallerInv(w, m);
    assert Published(w, m.phase.run);
    k :| 0 <= k < |w.log| && w.log[k] == m.phase.run;
    assert Logged(w, k) && forall i: nat :: i < m.since ==> w.log[i] in w.log[..m.since];
    StampedCarries(w.outcomes[..k + 1], w.outcomes[k]);
  }

  /** Everyone served by one run is served the same snapshot. */
  lemma SharedResult(w: World, c: nat, d: nat)
    requires Reachable(w) && c < |w.callers| && d < |w.callers|
    requires w.callers[c].phase.Served? && w.callers[d].phase.Served? && w.callers[c].phase.run == w.callers[d].phase.run
    ensures w.callers[c].phase.snapshot == w.callers[d].phase.snapshot
  {
    ReachableInv(w);
    assert CallerInv(w, w.callers[c]) && CallerInv(w, w.callers[d]);
  }

  /**
   Only a caller whose context ended gets the no-result answer. It holds no data, and the counters that held at some
   moment of the call: how many of the runs published by then failed, and when the last success among them completed.
   */
  lemma NothingOnlyAfterTheEnd(w: World, c: nat) returns (k: nat)
    requires Reachable(w) && c < |w.callers| && w.callers[c].phase.Empty?
    ensures w.callers[c].entered <= k <= |w.outcomes| == |w.log|
    ensures w.callers[c].ended
    ensures var s := w.callers[c].phase.snapshot;
            && !s.attempted && !s.success && s.table.None? && s.apps == []
            && s.failures == |FailedAt(w.outcomes[..k])|
            && (forall j: nat :: LastSuccessAt(w.outcomes[..k], j) ==> s.lastSuccess == w.outcomes[j].lastSuccess)
            && ((forall j: nat :: !LastSuccessAt(w.outcomes[..k], j)) ==> s.lastSuccess.None?)
  {
    ReachableInv(w);
    var m := w.callers[c];
    assert CallerInv(w, m);
    k :| m.entered <= k <= |w.outcomes| && m.phase.snapshot == HealthOnly(FoldAll(w.outcomes[..k]));
    StampedCarries(w.outcomes[..k], NOTHING);
  }

  /**
   A result that is there is never passed over: once the run has published, the next step of a caller that waits for it
   with a live context, or that left it because its context ended, serves that run's snapshot.
   */
  lemma APublishedResultIsServed(w: World, c: nat, a: Action)
    requires c < |w.callers| && Next(w, a).Some? && Next(w, a).value.callers[c].phase != w.callers[c].phase
    requires w.callers[c].phase.Gone? || (w.callers[c].phase.Waiting? && !w.callers[c].ended)
    requires Published(w, w.callers[c].phase.run)
    ensures Next(w, a).value.callers[c].phase == Served(w.callers[c].phase.run, w.hub.runs[w.callers[c].phase.run].snapshot.value)
  {
  }

  /**
   Nobody is stuck: a caller without its answer can take a step that moves it, or waits for a run that is not published,
   and then that run can take one: its query returns, or it publishes.
   */
  lemma NobodyIsStuck(w: World, c: nat) returns (a: Action)
    requires Reachable(w) && c < |w.callers| && !w.callers[c].phase.Served? && !w.callers[c].phase.Empty?
    ensures Next(w, a).Some?
    ensures var p := w.callers[c].phase;
            || Next(w, a).value.callers[c].phase != p
            || (p.Waiting? && !Published(w, p.run) && !w.callers[c].ended
                && (a == PublishFlight(p.run) || (a.QueryReturns? && a.r == p.run)))
  {
    ReachableInv(w);
    var m := w.callers[c];
    assert CallerInv(w, m);
    match m.phase
    case Ready => a := CheckEntry(c);
    case Refused => a := GiveNothing(c);
    case Admitted => a := JoinFlight(c);
    case Declined(_) => a := GiveNothing(c);
    case Gone(r) => a := if Published(w, r) then TakeLate(c) else Decline(c);
    case Waiting(r) =>
      if Published(w, r) {
        a := Take(c);
      } else if m.ended {
        a := LeaveFlight(c);
      } else {
        a := if w.raws[r].None? then QueryReturns(r, GOOD, 0) else PublishFlight(r);
      }
  }

  /** Every published run is folded exactly once: failures counts the failed ones, lastOK is the last folded success's. */
  lemma RunsFoldOnce(w: World)
    requires Reachable(w)
    ensures forall i, j :: 0 <= i < j < |w.log| ==> w.log[i] != w.log[j]
    ensures forall r: nat :: r in w.log <==> Published(w, r)
    ensures |w.outcomes| == |w.log|
    ensures w.hub.totals.failures == |FailedAt(w.outcomes)|
    ensures forall k: nat :: LastSuccessAt(w.outcomes, k) ==> w.hub.totals.lastOK == w.outcomes[k].lastSuccess
    ensures forall k: nat :: k < |w.log| ==> w.log[k] < |w.raws| && w.raws[w.log[k]] == Some(w.outcomes[k])
  {
    ReachableInv(w);
    FoldCountsEachOnce(w.outcomes);
    forall k: nat | k < |w.log|
      ensures w.log[k] < |w.raws| && w.raws[w.log[k]] == Some(w.outcomes[k])
    {
      assert Logged(w, k);
    }
  }

  // ---------------------------------------------------------------- lastOK and abandoned runs

  predicate NoLater(a: Option<int>, b: Option<int>) {
    a.Some? ==> b.Some? && a.value <= b.value
  }

  /** Run `r` succeeded and waits to be folded. */
  predicate Pending(w: World, r: nat) {
    r < |w.raws| && w.raws[r].Some? && w.raws[r].value.success && !Published(w, r)
  }

  /** The pending run `r` completed before the success folded at `k` did. */
  predicate CompletedBefore(w: World, r: nat, k: nat) {
    && Pending(w, r) && k < |w.log| && k < |w.outcomes| && w.outcomes[k].success
    && !NoLater(w.outcomes[k].lastSuccess, w.raws[r].value.lastSuccess)
  }

  /** The pending run `r` completed before the last folded success did, and was not folded before it. */
  ghost predicate Overtaken(w: World, r: nat) {
    exists k: nat :: LastSuccessAt(w.outcomes, k) && CompletedBefore(w, r, k)
  }

  /** Successes carry the time they completed, and of a run and the one that overtook it one was abandoned. */
  ghost predicate TimeInv(w: World) {
    && |w.outcomes| == |w.log|
    && (forall r: nat :: r < |w.raws| && w.raws[r].Some? ==> Dated(w.raws[r].value, w.now))
    && (forall k: nat :: k < |w.outcomes| ==> Dated(w.outcomes[k], w.now))
    && (forall r: nat, k: nat :: CompletedBefore(w, r, k) ==> r in w.abandoned || w.log[k] in w.abandoned)
  }

  predicate Dated(s: Snapshot, now: int) {
    s.success ==> s.lastSuccess.Some? && s.lastSuccess.value <= now
  }

  lemma PublishKeepsTime(w: World, q: nat)
    requires HubInv(w) && TimeInv(w) && Next(w, PublishFlight(q)).Some?
    ensures TimeInv(Next(w, PublishFlight(q)).value)
  {
    var v := Next(w, PublishFlight(q)).value;
    forall r: nat, k: nat | CompletedBefore(v, r, k)
      ensures r in v.abandoned || v.log[k] in v.abandoned
    {
      if k < |w.outcomes| {
        assert CompletedBefore(w, r, k);
      } else {
        assert !Published(w, r) && !Published(w, q) && r != q;
      }
    }
  }

  lemma StepKeepsTime(w: World, a: Action)
    requires HubInv(w) && TimeInv(w) && Next(w, a).Some?
    ensures TimeInv(Next(w, a).value)
  {
    var v := Next(w, a).value;
    if a.PublishFlight? {
      PublishKeepsTime(w, a.r);
    } else {
      assert v.outcomes == w.outcomes && v.log == w.log && w.abandoned <= v.abandoned;
      forall r: nat, k: nat | CompletedBefore(v, r, k)
        ensures r in v.abandoned || v.log[k] in v.abandoned
      {
        assert CompletedBefore(w, r, k);
      }
    }
  }

  lemma {:induction false} RunKeepsTime(w: World, actions: seq<Action>)
    requires Inv(w) && TimeInv(w) && Run(w, actions).Some?
    ensures TimeInv(Run(w, actions).value)
    decreases |actions|
  {
    if actions == [] {
    } else {
      StepKeepsInv(w, actions[0]);
      StepKeepsTime(w, actions[0]);
      RunKeepsTime(Next(w, actions[0]).value, actions[1..]);
    }
  }

  lemma ReachableTime(w: World)
    requires Reachable(w)
    ensures TimeInv(w)
  {
    var actions :| Run(START, actions) == Some(w);
    RunKeepsTime(START, actions);
  }

  lemma PublishMovesLastOk(w: World, r: nat, ok: Option<int>)
    requires |w.outcomes| == |w.log| && ok == w.hub.totals.lastOK == FoldAll(w.outcomes).lastOK
    requires Next(w, PublishFlight(r)).Some?
    ensures !NoLater(ok, Next(w, PublishFlight(r)).value.hub.totals.lastOK) <==> Overtaken(w, r)
  {
    FoldCountsEachOnce(w.outcomes);
    LastSuccessExists(w.outcomes);
    assert Next(w, PublishFlight(r)).value.hub.totals == Fold(w.hub.totals, w.raws[r].value);
    if !w.raws[r].value.success {
      assert !Pending(w, r);
    } else if ok.Some? {
      var k: nat :| LastSuccessAt(w.outcomes, k);
      assert Pending(w, r) && (CompletedBefore(w, r, k) <==> !NoLater(ok, w.raws[r].value.lastSuccess));
    } else {
      forall k: nat
        ensures !(LastSuccessAt(w.outcomes, k) && CompletedBefore(w, r, k))
      {
      }
    }
  }

  /**
   A step moves lastOK back exactly when it publishes an overtaken run; and a run is overtaken only where it, or a run
   that overtook it, was abandoned.
   */
  lemma LastOkMovesBackExactlyWhenOvertaken(w: World, a: Action)
    requires Reachable(w) && Next(w, a).Some?
    ensures !NoLater(w.hub.totals.lastOK, Next(w, a).value.hub.totals.lastOK) <==> a.PublishFlight? && Overtaken(w, a.r)
    ensures forall r: nat, k: nat :: CompletedBefore(w, r, k) ==> r in w.abandoned || w.log[k] in w.abandoned
  {
    ReachableInv(w);
    ReachableTime(w);
    if a.PublishFlight? {
      PublishMovesLastOk(w, a.r, w.hub.totals.lastOK);
    } else {
      assert Next(w, a).value.hub.totals == w.hub.totals;
    }
  }

  lemma {:induction false} RunThen(w: World, actions: seq<Action>, a: Action)
    requires Run(w, actions).Some?
    ensures Run(w, actions + [a]) == Next(Run(w, actions).value, a)
    decreases |actions|
  {
    if actions == [] {
      assert (actions + [a])[1..] == [];
      var next := Next(w, a);
    } else {
      assert (actions + [a])[1..] == actions[1..] + [a];
      RunThen(Next(w, actions[0]).value, actions[1..], a);
    }
  }

  lemma Step(w: World, a: Action) returns (v: World)
    requires Reachable(w) && Next(w, a).Some?
    ensures v == Next(w, a).value && Reachable(v)
  {
    var actions :| Run(START, actions) == Some(w);
    RunThen(START, actions, a);
    v := Next(w, a).value;
  }

  /** A new call reaches its select on a fresh run. */
  lemma CallAndJoin(w: World) returns (v: World)
    requires Reachable(w) && w.hub.inflight.None? && |w.raws| == |w.hub.runs|
    ensures Reachable(v)
    ensures v == w.(hub := Join(w.hub), raws := w.raws + [None],
                    callers := w.callers + [Caller(Waiting(|w.hub.runs|), false, |w.log|, |w.log|, Some(|w.hub.runs|))])
  {
    var c := |w.callers|;
    v := Step(w, Call);
    v := Step(v, CheckEntry(c));
    v := Step(v, JoinFlight(c));
    assert v.callers == w.callers + [v.callers[c]];
  }

  const GOOD := Answer(Reading(0, [], false, false, 0), 0, None)

  /** Run 0 completed at time 0 and its only caller left before it published. */
  lemma Abandon() returns (w: World)
    ensures Reachable(w) && w.now == 5
    ensures w.hub == Hub([RunState(0, true, None)], None, NO_TOTALS) && w.raws == [Some(Attempt(GOOD, 0, 0))]
  {
    assert Run(START, []) == Some(START);
    w := CallAndJoin(START);
    assert w.callers == [Caller(Waiting(0), false, 0, 0, Some(0))];
    w := Step(w, QueryReturns(0, GOOD, 0));
    w := Step(w, EndContext(0));
    w := Step(w, LeaveFlight(0));
    w := Step(w, Wait(5));
  }

  /** A fresh run completes beside it at time 5. */
  lemma Overlap() returns (w: World)
    ensures Reachable(w)
    ensures w.hub == Hub([RunState(0, true, None), RunState(1, false, None)], Some(1), NO_TOTALS)
    ensures w.raws == [Some(Attempt(GOOD, 0, 0)), Some(Attempt(GOOD, 5, 5))]
  {
    w := Abandon();
    w := CallAndJoin(w);
    w := Step(w, QueryReturns(1, GOOD, 5));
  }

  /** With an abandoned run still unwinding beside a fresh one, lastOK can move back. */
  lemma LastOkCanMoveBack()
    ensures exists w, a :: Reachable(w) && Next(w, a).Some?
                           && !NoLater(w.hub.totals.lastOK, Next(w, a).value.hub.totals.lastOK)
  {
    var w := Overlap();
    w := Step(w, PublishFlight(1));
    assert w.hub.totals == Totals(0, Some(5));
    assert Next(w, PublishFlight(0)).value.hub.totals == Totals(0, Some(0));
    assert Reachable(w) && Next(w, PublishFlight(0)).Some?
           && !NoLater(w.hub.totals.lastOK, Next(w, PublishFlight(0)).value.hub.totals.lastOK);
  }
}
