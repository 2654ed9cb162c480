/**
 The NVML backend's lifecycle, as a state machine over atomic steps.

 Four kinds of goroutine meet here: whoever holds the cycle mutex `mu` (a collection cycle, `Close`, or the
 watcher's `tryRecover`), the goroutines that `tryLifecycleLock` starts to acquire the exclusive side of
 `lifecycleMu`, and the XID watcher, which holds the shared side around its driver calls. One action is one load,
 store, lock operation or driver call, so a run interleaves them in every order the two locks allow. A driver call
 answers anything; the deadline of `tryLifecycleLock` may fire at any moment, even when the lock was just granted.
 */
module Lifecycle {
  import opened Basics

  /** Who holds `mu`. All three enter with TryLock. */
  datatype Owner = Cycle | Closer | Recoverer

  /** What the holder of `mu` does next. */
  datatype Pc =
    | Entry                  // nothing read yet
    | CallInit               // api.init is next
    | Inited                 // api.init succeeded, no field updated yet
    | Marked                 // initialized was set
    | Counted                // generation was incremented
    | Body                   // a cycle's driver calls
    | FreeSamples            // tearing down: the loop of freeGPMSamples
    | Unmark                 // every retained sample is free
    | Kill                   // initialized was cleared
    | Acquire(acquirer: nat) // genLive was cleared, racing the acquirer against the deadline
    | Shut(acquirer: nat)    // the exclusive lock is held, api.shutdown is next
    | Unlock(acquirer: nat)  // api.shutdown returned, the deferred unlock is next
    | Down(ran: bool)        // the teardown returned; ran says whether api.shutdown ran
    | Leaving                // releasing mu is next

  datatype Mu = Free | Held(owner: Owner, pc: Pc)

  /** One goroutine of tryLifecycleLock. */
  datatype Acquirer = Waiting | Granted | Orphaned | OrphanGranted | Gone

  /** Where the watcher goes once it drops the shared lock. */
  datatype Exit = ToLoop(event: nat) | ToIdle | ToRecover

  /** What the XID watcher does next. Event sets are named by their creation number. */
  datatype Watcher =
    | Idle                            // between two registration rounds
    | RegEnter                        // xidRegister holds the shared lock
    | RegLive                         // it read genLive as true
    | RegTag(tag: nat)                // it read the generation
    | RegSet(event: nat)              // the event set exists, devices are being registered
    | Loop(event: nat)                // xidWait, outside the lock
    | Top(event: nat)                 // xidWait, lock held, the loop guard is next
    | GuardLive(event: nat)           // the guard read genLive as true
    | Wait(event: nat)                // inside the event wait
    | Check(event: nat)               // about to ask generationAlive before freeing
    | CheckLive(event: nat)           // that question read genLive as true
    | Alive(event: nat)               // the generation matched, the free is next
    | Leave(exit: Exit)               // dropping the shared lock is next
    | Recover                         // registration failed, tryRecover is next
    | Recovering                      // inside tryRecover, holding mu

  /** The library's state, with the counts no field of the program keeps. */
  datatype Lib = Lib(
    initialized: bool,
    generation: nat,
    genLive: bool,
    inits: nat,       // successful api.init calls
    shutdowns: nat,   // api.shutdown calls
    skipped: nat,     // teardowns whose shutdown was skipped
    downTo: nat       // the last generation an api.shutdown tore down, 0 before the first
  )

  datatype Barrier = Barrier(reader: bool, writer: Option<nat>, acquirers: seq<Acquirer>)

  /** GPM samples, named by allocation number. */
  datatype Samples = Samples(allocs: nat, retained: set<nat>, local: Option<nat>, freed: set<nat>)

  /**
   tags[e] is the generation event set e was registered under. Dropped are the sets the watcher gave up unfreed because
   it read genLive as false, although their generation was about to become live.
   */
  datatype Events = Events(tags: seq<nat>, dropped: set<nat>, freed: set<nat>)

  datatype State = State(mu: Mu, lib: Lib, barrier: Barrier, samples: Samples, events: Events, watcher: Watcher)

  datatype MuAction =
    | Start(owner: Owner) | Branch | Init(ok: bool) | SetInitialized | AddGeneration | SetLive
    | Alloc | Retain | FreeLocal | FreeRetained(sample: nat) | Lose | EndBody
    | SamplesGone | ClearInitialized | ClearLive | TakeLock | GiveUp | Shutdown | ReleaseLock | AfterTeardown | Finish

  datatype LockAction = Grant(acquirer: nat) | OrphanRelease(acquirer: nat)

  datatype WatchAction =
    | Enter | LoadLive | LoadGeneration | ContextEnded | CannotCreate | Create | Registered | FreeSet
    | Delivered | WaitFailed | Exit | SkipRecover

  datatype Action = Holder(h: MuAction) | Lock(l: LockAction) | Watch(w: WatchAction)

  /** The state after newWithAPI returned a backend. */
  function Init0(): State {
    State(Free, Lib(true, 1, true, 1, 0, 0, 0), Barrier(false, None, []), Samples(0, {}, None, {}),
          Events([], {}, {}), Idle)
  }

  predicate Cleans(pc: Pc) { pc.FreeSamples? || pc.Body? }

  /** One step of the goroutine that holds `mu`, None when it is not its turn. */
  function HolderNext(s: State, a: MuAction): Option<State> {
    if a.Start? then
      if s.mu.Free? && (a.owner.Recoverer? ==> s.watcher.Recover?)
      then Some(s.(mu := Held(a.owner, Entry), watcher := if a.owner.Recoverer? then Recovering else s.watcher))
      else None
    else if s.mu.Free? then None
    else
      var o, pc := s.mu.owner, s.mu.pc;
      match a
      case Branch =>
        if !pc.Entry? then None
        else if o.Cycle? then Some(s.(mu := Held(o, if s.lib.initialized then Body else CallInit)))
        else if o.Closer? then Some(s.(mu := Held(o, if s.lib.initialized then FreeSamples else Leaving)))
        else Some(s.(mu := Held(o, if s.lib.initialized then FreeSamples else CallInit)))
      case Init(ok) =>
        if !pc.CallInit? then None
        else if ok then Some(s.(mu := Held(o, Inited), lib := s.lib.(inits := s.lib.inits + 1)))
        else Some(s.(mu := Held(o, Leaving)))
      case SetInitialized =>
        if pc.Inited? then Some(s.(mu := Held(o, Marked), lib := s.lib.(initialized := true))) else None
      case AddGeneration =>
        if pc.Marked? then Some(s.(mu := Held(o, Counted), lib := s.lib.(generation := s.lib.generation + 1))) else None
      case SetLive =>
        if pc.Counted?
        then Some(s.(mu := Held(o, if o.Cycle? then Body else Leaving), lib := s.lib.(genLive := true)))
        else None
      case Alloc =>
        if pc.Body? && s.samples.local.None?
        then Some(s.(samples := s.samples.(allocs := s.samples.allocs + 1, local := Some(s.samples.allocs))))
        else None
      case Retain =>
        if pc.Body? && s.samples.local.Some?
        then Some(s.(samples := s.samples.(retained := s.samples.retained + {s.samples.local.value}, local := None)))
        else None
      case FreeLocal =>
        if (pc.Body? || pc.Down?) && s.samples.local.Some?
        then Some(s.(samples := s.samples.(freed := s.samples.freed + {s.samples.local.value}, local := None)))
        else None
      case FreeRetained(x) =>
        if Cleans(pc) && x in s.samples.retained
        then Some(s.(samples := s.samples.(retained := s.samples.retained - {x}, freed := s.samples.freed + {x})))
        else None
      case Lose => if pc.Body? then Some(s.(mu := Held(o, FreeSamples))) else None
      case EndBody => if pc.Body? && s.samples.local.None? then Some(s.(mu := Held(o, Leaving))) else None
      case SamplesGone =>
        if pc.FreeSamples? && s.samples.retained == {} then Some(s.(mu := Held(o, Unmark))) else None
      case ClearInitialized =>
        if pc.Unmark? then Some(s.(mu := Held(o, Kill), lib := s.lib.(initialized := false))) else None
      case ClearLive =>
        if pc.Kill?
        then Some(s.(mu := Held(o, Acquire(|s.barrier.acquirers|)), lib := s.lib.(genLive := false),
                     barrier := s.barrier.(acquirers := s.barrier.acquirers + [Waiting])))
        else None
      case TakeLock =>
        if pc.Acquire? && pc.acquirer < |s.barrier.acquirers| && s.barrier.acquirers[pc.acquirer].Granted?
        then Some(s.(mu := Held(o, Shut(pc.acquirer))))
        else None
      case GiveUp =>
        if pc.Acquire? && pc.acquirer < |s.barrier.acquirers|
        then
          var left := if s.barrier.acquirers[pc.acquirer].Granted? then OrphanGranted else Orphaned;
          Some(s.(mu := Held(o, Down(false)), lib := s.lib.(skipped := s.lib.skipped + 1),
                  barrier := s.barrier.(acquirers := s.barrier.acquirers[pc.acquirer := left])))
        else None
      case Shutdown =>
        if pc.Shut?
        then Some(s.(mu := Held(o, Unlock(pc.acquirer)),
                     lib := s.lib.(shutdowns := s.lib.shutdowns + 1, downTo := s.lib.generation)))
        else None
      case ReleaseLock =>
        if pc.Unlock? && pc.acquirer < |s.barrier.acquirers|
        then Some(s.(mu := Held(o, Down(true)),
                     barrier := s.barrier.(writer := None, acquirers := s.barrier.acquirers[pc.acquirer := Gone])))
        else None
      case AfterTeardown =>
        if pc.Down? && s.samples.local.None?
        then Some(s.(mu := Held(o, if o.Recoverer? then CallInit else Leaving)))
        else None
      case Finish =>
        if pc.Leaving? && s.samples.local.None?
        then Some(s.(mu := Free, watcher := if o.Recoverer? then Idle else s.watcher))
        else None
      case Start(_) => None
  }

  /** One step of a goroutine started by tryLifecycleLock. */
  function LockNext(s: State, a: LockAction): Option<State> {
    var b := s.barrier;
    match a
    case Grant(i) =>
      if i < |b.acquirers| && !b.reader && b.writer.None? && (b.acquirers[i].Waiting? || b.acquirers[i].Orphaned?)
      then
        var got := if b.acquirers[i].Waiting? then Granted else OrphanGranted;
        Some(s.(barrier := b.(writer := Some(i), acquirers := b.acquirers[i := got])))
      else None
    case OrphanRelease(i) =>
      if i < |b.acquirers| && b.acquirers[i].OrphanGranted?
      then Some(s.(barrier := b.(writer := None, acquirers := b.acquirers[i := Gone])))
      else None
  }

  /** The event set's generation was counted by a re-initialization whose next step makes it live. */
  predicate ComesAlive(s: State, e: nat) {
    s.mu.Held? && s.mu.pc.Counted? && e < |s.events.tags| && s.events.tags[e] == s.lib.generation
  }

  /** One step of the watcher. */
  function WatchNext(s: State, a: WatchAction): Option<State> {
    var w := s.watcher;
    match a
    case Enter =>
      if s.barrier.writer.Some? || s.barrier.reader then None
      else if w.Idle? then Some(s.(watcher := RegEnter, barrier := s.barrier.(reader := true)))
      else if w.Loop? then Some(s.(watcher := Top(w.event), barrier := s.barrier.(reader := true)))
      else None
    case LoadLive =>
      if w.RegEnter? then Some(s.(watcher := if s.lib.genLive then RegLive else Leave(ToRecover)))
      else if w.Top? then Some(s.(watcher := if s.lib.genLive then GuardLive(w.event) else Check(w.event)))
      else if w.Check? && s.lib.genLive then Some(s.(watcher := CheckLive(w.event)))
      else if w.Check? then
        Some(s.(watcher := Leave(ToIdle),
                events := if ComesAlive(s, w.event) then s.events.(dropped := s.events.dropped + {w.event}) else s.events))
      else None
    case LoadGeneration =>
      if w.RegLive? then Some(s.(watcher := RegTag(s.lib.generation)))
      else if w.GuardLive? && w.event < |s.events.tags|
      then Some(s.(watcher := if s.events.tags[w.event] == s.lib.generation then Wait(w.event) else Check(w.event)))
      else if w.CheckLive? && w.event < |s.events.tags|
      then Some(s.(watcher := if s.events.tags[w.event] == s.lib.generation then Alive(w.event) else Leave(ToIdle)))
      else None
    case ContextEnded => if w.Top? then Some(s.(watcher := Check(w.event))) else None
    case CannotCreate => if w.RegTag? then Some(s.(watcher := Leave(ToRecover))) else None
    case Create =>
      if w.RegTag?
      then
        Some(s.(watcher := RegSet(|s.events.tags|), events := s.events.(tags := s.events.tags + [w.tag])))
      else None
    case Registered => if w.RegSet? then Some(s.(watcher := Leave(ToLoop(w.event)))) else None
    case FreeSet =>
      if w.RegSet?
      then Some(s.(watcher := Leave(ToRecover), events := s.events.(freed := s.events.freed + {w.event})))
      else if w.Alive?
      then Some(s.(watcher := Leave(ToIdle), events := s.events.(freed := s.events.freed + {w.event})))
      else None
    case Delivered => if w.Wait? then Some(s.(watcher := Leave(ToLoop(w.event)))) else None
    case WaitFailed => if w.Wait? then Some(s.(watcher := Check(w.event))) else None
    case Exit =>
      if w.Leave?
      then Some(s.(barrier := s.barrier.(reader := false),
                   watcher := match w.exit case ToLoop(e) => Loop(e) case ToIdle => Idle case ToRecover => Recover))
      else None
    case SkipRecover => if w.Recover? && s.mu.Held? then Some(s.(watcher := Idle)) else None
  }

  function Next(s: State, a: Action): Option<State> {
    match a
    case Holder(h) => HolderNext(s, h)
    case Lock(l) => LockNext(s, l)
    case Watch(w) => WatchNext(s, w)
  }

  /** The state a run of actions leads to, None when some action was not enabled. */
  function Run(s: State, actions: seq<Action>): Option<State>
    decreases |actions|
  {
    if actions == [] then Some(s)
    else
      var next := Next(s, actions[0]);
      if next.None? then None else Run(next.value, actions[1..])
  }

  ghost predicate Reachable(s: State) {
    exists actions :: Run(Init0(), actions) == Some(s)
  }

  // ---------------------------------------------------------------- what the watcher holds

  /** True while the watcher holds the shared lock: every driver call it makes lies inside such a stretch. */
  predicate HoldsShared(w: Watcher) {
    w.RegEnter? || w.RegLive? || w.RegTag? || w.RegSet? || w.Top? || w.GuardLive? || w.Wait? || w.Check?
    || w.CheckLive? || w.Alive? || w.Leave?
  }

  /** The event set the watcher owns, if any. */
  function Owned(w: Watcher): Option<nat> {
    match w
    case RegSet(e) => Some(e)
    case Loop(e) => Some(e)
    case Top(e) => Some(e)
    case GuardLive(e) => Some(e)
    case Wait(e) => Some(e)
    case Check(e) => Some(e)
    case CheckLive(e) => Some(e)
    case Alive(e) => Some(e)
    case Leave(ToLoop(e)) => Some(e)
    case _ => None
  }

  // ---------------------------------------------------------------- invariants

  /** Between api.init and the generation count, one init is not in the generation yet. */
  function Uncounted(mu: Mu): nat {
    if mu.Held? && (mu.pc.Inited? || mu.pc.Marked?) then 1 else 0
  }

  /** From clearing (or before setting) `initialized` until the shutdown or skip, one init is in neither count. */
  function InTransit(mu: Mu): nat {
    if mu.Held? && (mu.pc.Inited? || mu.pc.Kill? || mu.pc.Acquire? || mu.pc.Shut?) then 1 else 0
  }

  ghost predicate LibInv(s: State) {
    var l := s.lib;
    && l.inits == l.shutdowns + l.skipped + (if l.initialized then 1 else 0) + InTransit(s.mu)
    && l.inits == l.generation + Uncounted(s.mu)
    && l.downTo <= l.generation
    && (l.genLive ==> l.downTo < l.generation)
    && match s.mu
       case Free => l.genLive == l.initialized
       case Held(_, pc) =>
         match pc
         case Entry => l.genLive == l.initialized
         case CallInit => !l.initialized && !l.genLive
         case Inited => !l.initialized && !l.genLive
         case Marked => l.initialized && !l.genLive
         case Counted => l.initialized && !l.genLive && l.downTo < l.generation
         case Body => l.initialized && l.genLive
         case FreeSamples => l.initialized && l.genLive
         case Unmark => l.initialized && l.genLive
         case Kill => !l.initialized && l.genLive
         case Acquire(_) => !l.initialized && !l.genLive && l.downTo < l.generation
         case Shut(_) => !l.initialized && !l.genLive && l.downTo < l.generation
         case Unlock(_) => !l.initialized && !l.genLive && l.downTo == l.generation
         case Down(ran) => !l.initialized && !l.genLive && (ran <==> l.downTo == l.generation)
         case Leaving => l.genLive == l.initialized
  }

  /** The acquirer the holder of `mu` is racing or holding the lock through. */
  function Current(mu: Mu): Option<nat> {
    if mu.Held? && (mu.pc.Acquire? || mu.pc.Shut? || mu.pc.Unlock?) then Some(mu.pc.acquirer) else None
  }

  ghost predicate LockInv(s: State) {
    var b := s.barrier;
    && (b.reader <==> HoldsShared(s.watcher))
    && (b.writer.Some? ==> !b.reader)
    && (forall i :: 0 <= i < |b.acquirers| ==>
          ((b.acquirers[i].Granted? || b.acquirers[i].OrphanGranted?) <==> b.writer == Some(i)))
    && (b.writer.Some? ==> b.writer.value < |b.acquirers|)
    && (forall i :: 0 <= i < |b.acquirers| ==>
          ((b.acquirers[i].Waiting? || b.acquirers[i].Granted?) <==> Current(s.mu) == Some(i)))
    && (Current(s.mu).Some? ==> Current(s.mu).value < |b.acquirers|)
    && (s.mu.Held? && (s.mu.pc.Shut? || s.mu.pc.Unlock?) ==> b.acquirers[s.mu.pc.acquirer].Granted?)
    && (s.watcher.Recovering? <==> s.mu.Held? && s.mu.owner.Recoverer?)
  }

  /** Where the holder of `mu` can have a sample in hand: in a cycle, or in the teardown a failed diff caused. */
  predicate InHand(pc: Pc) {
    pc.Body? || pc.FreeSamples? || pc.Unmark? || pc.Kill? || pc.Acquire? || pc.Shut? || pc.Unlock? || pc.Down?
  }

  ghost predicate SampleInv(s: State) {
    var p := s.samples;
    && (forall x :: x in p.retained || x in p.freed || p.local == Some(x) ==> x < p.allocs)
    && p.retained !! p.freed
    && (p.local.Some? ==> p.local.value !in p.retained && p.local.value !in p.freed)
    && p.allocs == |p.retained| + |p.freed| + (if p.local.Some? then 1 else 0)
    && (p.retained != {} ==> s.lib.initialized && s.lib.genLive && !(s.mu.Held? && s.mu.pc.Unmark?))
    && (p.local.Some? ==> s.mu.Held? && InHand(s.mu.pc))
  }

  ghost predicate EventInv(s: State) {
    var t := s.events.tags;
    && (forall e :: 0 <= e < |t| ==> t[e] <= s.lib.generation)
    && (forall e :: e in s.events.freed || e in s.events.dropped ==> e < |t|)
    && s.events.freed !! s.events.dropped
    && (Owned(s.watcher).Some? ==> Owned(s.watcher).value < |t| && Owned(s.watcher).value !in s.events.freed + s.events.dropped)
    && (s.watcher.RegLive? || s.watcher.GuardLive? || s.watcher.CheckLive? ==> s.lib.downTo < s.lib.generation)
    && (s.watcher.RegTag? ==> s.lib.downTo < s.watcher.tag <= s.lib.generation)
    && (s.watcher.RegSet? || s.watcher.Wait? || s.watcher.Alive? ==> s.lib.downTo < t[s.watcher.event])
  }

  /** An event set nobody owns any more, neither freed nor recorded as dropped. */
  ghost predicate Stranded(s: State, e: nat) {
    e < |s.events.tags| && e !in s.events.freed && e !in s.events.dropped && Owned(s.watcher) != Some(e)
  }

  /** The generation tag `g` is not alive and no re-initialization is about to make it so. */
  ghost predicate Dead(s: State, g: nat) {
    g < s.lib.generation || (!s.lib.genLive && !(s.mu.Held? && s.mu.pc.Counted?))
  }

  ghost predicate LeakInv(s: State) {
    forall e: nat :: Stranded(s, e) ==> Dead(s, s.events.tags[e])
  }

  ghost predicate Inv(s: State) {
    LibInv(s) && LockInv(s) && SampleInv(s) && EventInv(s) && LeakInv(s)
  }

  predicate Starting(a: MuAction) { a.Start? || a.Branch? || a.Init? || a.SetInitialized? || a.AddGeneration? || a.SetLive? }

  lemma StartingKeepsLib(s: State, a: MuAction)
    requires LibInv(s) && HolderNext(s, a).Some? && Starting(a)
    ensures LibInv(HolderNext(s, a).value)
  {
  }

  lemma EndingKeepsLib(s: State, a: MuAction)
    requires LibInv(s) && HolderNext(s, a).Some? && !Starting(a)
    ensures LibInv(HolderNext(s, a).value)
  {
  }

  lemma HolderKeepsLib(s: State, a: MuAction)
    requires LibInv(s) && HolderNext(s, a).Some?
    ensures LibInv(HolderNext(s, a).value)
  {
    if Starting(a) {
      StartingKeepsLib(s, a);
    } else {
      EndingKeepsLib(s, a);
    }
  }

  /** The steps of a teardown that touch the exclusive lock or its acquirers. */
  predicate Locking(a: MuAction) { a.ClearLive? || a.TakeLock? || a.GiveUp? || a.Shutdown? || a.ReleaseLock? || a.AfterTeardown? }

  lemma LockingKeepsLock(s: State, a: MuAction)
    requires LockInv(s) && HolderNext(s, a).Some? && Locking(a)
    ensures LockInv(HolderNext(s, a).value)
  {
  }

  lemma OthersKeepLock(s: State, a: MuAction)
    requires LockInv(s) && HolderNext(s, a).Some? && !Locking(a)
    ensures LockInv(HolderNext(s, a).value)
  {
    assert HolderNext(s, a).value.barrier == s.barrier;
  }

  lemma HolderKeepsLock(s: State, a: MuAction)
    requires LockInv(s) && HolderNext(s, a).Some?
    ensures LockInv(HolderNext(s, a).value)
  {
    if Locking(a) {
      LockingKeepsLock(s, a);
    } else {
      OthersKeepLock(s, a);
    }
  }

  /** The steps that allocate, retain or free a sample. */
  predicate Sampling(a: MuAction) { a.Alloc? || a.Retain? || a.FreeLocal? || a.FreeRetained? }

  /** Moving one sample between the sets keeps the count, as the samples stay apart. */
  lemma SamplingKeepsSamples(s: State, a: MuAction)
    requires LibInv(s) && SampleInv(s) && HolderNext(s, a).Some? && Sampling(a)
    ensures SampleInv(HolderNext(s, a).value)
  {
    var p, q := s.samples, HolderNext(s, a).value.samples;
    if a.Retain? {
      assert |q.retained| == |p.retained| + 1;
    } else if a.FreeLocal? {
      assert |q.freed| == |p.freed| + 1;
    } else if a.FreeRetained? {
      assert |q.freed| == |p.freed| + 1 && |q.retained| == |p.retained| - 1;
    }
  }

  lemma OthersKeepSamples(s: State, a: MuAction)
    requires LibInv(s) && SampleInv(s) && HolderNext(s, a).Some? && !Sampling(a)
    ensures SampleInv(HolderNext(s, a).value)
  {
    assert HolderNext(s, a).value.samples == s.samples;
  }

  lemma HolderKeepsSamples(s: State, a: MuAction)
    requires LibInv(s) && SampleInv(s) && HolderNext(s, a).Some?
    ensures SampleInv(HolderNext(s, a).value)
  {
    if Sampling(a) {
      SamplingKeepsSamples(s, a);
    } else {
      OthersKeepSamples(s, a);
    }
  }

  /** The steps of an initialization, and the shutdown. */
  predicate Counting(a: MuAction) { a.Init? || a.SetInitialized? || a.AddGeneration? || a.SetLive? || a.ClearLive? || a.Shutdown? }

  lemma CountingKeepsEvents(s: State, a: MuAction)
    requires LibInv(s) && LockInv(s) && EventInv(s) && HolderNext(s, a).Some? && Counting(a)
    ensures EventInv(HolderNext(s, a).value)
  {
  }

  lemma OthersKeepEvents(s: State, a: MuAction)
    requires LibInv(s) && LockInv(s) && EventInv(s) && HolderNext(s, a).Some? && !Counting(a)
    ensures EventInv(HolderNext(s, a).value)
  {
    var t := HolderNext(s, a).value;
    assert t.events == s.events && t.lib.generation == s.lib.generation && t.lib.downTo == s.lib.downTo;
  }

  lemma HolderKeepsEvents(s: State, a: MuAction)
    requires LibInv(s) && LockInv(s) && EventInv(s) && HolderNext(s, a).Some?
    ensures EventInv(HolderNext(s, a).value)
  {
    if Counting(a) {
      CountingKeepsEvents(s, a);
    } else {
      OthersKeepEvents(s, a);
    }
  }

  lemma HolderKeepsLeaks(s: State, a: MuAction)
    requires LibInv(s) && LockInv(s) && EventInv(s) && LeakInv(s) && HolderNext(s, a).Some?
    ensures LeakInv(HolderNext(s, a).value)
  {
    var t := HolderNext(s, a).value;
    assert t.events == s.events && Owned(t.watcher) == Owned(s.watcher);
    forall e: nat | Stranded(t, e)
      ensures Dead(t, t.events.tags[e])
    {
      assert Stranded(s, e);
    }
  }

  lemma LockKeepsInv(s: State, a: LockAction)
    requires Inv(s) && LockNext(s, a).Some?
    ensures Inv(LockNext(s, a).value)
  {
  }

  lemma WatchKeepsLock(s: State, a: WatchAction)
    requires LockInv(s) && WatchNext(s, a).Some?
    ensures LockInv(WatchNext(s, a).value)
  {
  }

  lemma WatchKeepsEvents(s: State, a: WatchAction)
    requires s.lib.genLive ==> s.lib.downTo < s.lib.generation
    requires EventInv(s) && WatchNext(s, a).Some?
    ensures EventInv(WatchNext(s, a).value)
  {
    var t := WatchNext(s, a).value;
    if a.Create? {
      assert t.events.tags == s.events.tags + [s.watcher.tag];
    } else if a.FreeSet? {
      assert t.events.tags == s.events.tags && Owned(t.watcher).None?;
    } else if a.LoadLive? {
      assert t.events.tags == s.events.tags && t.events.freed == s.events.freed;
    } else {
      assert t.events == s.events;
      assert Owned(t.watcher).None? || Owned(t.watcher) == Owned(s.watcher);
    }
  }

  lemma WatchKeepsLeaks(s: State, a: WatchAction)
    requires LibInv(s) && LockInv(s) && EventInv(s) && LeakInv(s) && WatchNext(s, a).Some?
    ensures LeakInv(WatchNext(s, a).value)
  {
    var t := WatchNext(s, a).value;
    forall e: nat | Stranded(t, e)
      ensures Dead(t, t.events.tags[e])
    {
      if e < |s.events.tags| && Owned(s.watcher) != Some(e) {
        assert Stranded(s, e);
      }
    }
  }

  lemma WatchKeepsRest(s: State, a: WatchAction)
    requires LibInv(s) && SampleInv(s) && WatchNext(s, a).Some?
    ensures LibInv(WatchNext(s, a).value) && SampleInv(WatchNext(s, a).value)
  {
    var t := WatchNext(s, a).value;
    assert t.mu == s.mu && t.lib == s.lib && t.samples == s.samples;
  }

  lemma HolderKeepsInv(s: State, a: MuAction)
    requires Inv(s) && HolderNext(s, a).Some?
    ensures Inv(HolderNext(s, a).value)
  {
    HolderKeepsLib(s, a);
    HolderKeepsLock(s, a);
    HolderKeepsSamples(s, a);
    HolderKeepsEvents(s, a);
    HolderKeepsLeaks(s, a);
  }

  // ---------------------------------------------------------------- every run

  lemma StepKeepsInv(s: State, a: Action)
    requires Inv(s) && Next(s, a).Some?
    ensures Inv(Next(s, a).value)
  {
    match a
    case Holder(h) => HolderKeepsInv(s, h);
    case Lock(l) => LockKeepsInv(s, l);
    case Watch(w) =>
      WatchKeepsLock(s, w);
      WatchKeepsEvents(s, w);
      WatchKeepsLeaks(s, w);
      WatchKeepsRest(s, w);
  }

  lemma {:induction false} RunKeepsInv(s: State, actions: seq<Action>)
    requires Inv(s) && Run(s, actions).Some?
    ensures Inv(Run(s, actions).value)
    decreases |actions|
  {
    if actions == [] {
    } else {
      StepKeepsInv(s, actions[0]);
      RunKeepsInv(Next(s, actions[0]).value, actions[1..]);
    }
  }

  lemma ReachableInv(s: State)
    requires Reachable(s)
    ensures Inv(s)
  {
    var actions :| Run(Init0(), actions) == Some(s);
    RunKeepsInv(Init0(), actions);
  }

  /** Generation `g` was torn down by an api.shutdown that ran. */
  predicate ShutDown(s: State, g: nat) { g <= s.lib.downTo }

  /** The event set a watcher action hands to the driver: to register devices for, to wait on, or to free. */
  function Touched(w: Watcher, a: WatchAction): Option<nat> {
    if (a.Registered? && w.RegSet?) || (a.FreeSet? && (w.RegSet? || w.Alive?)) || ((a.Delivered? || a.WaitFailed?) && w.Wait?)
    then Owned(w)
    else None
  }

  /** What must not go wrong when `a` happens in `s`, said without the lock and program-counter state behind it. */
  ghost predicate Safe(s: State, a: Action) {
    match a
    case Holder(Shutdown) =>
      // no driver call of the watcher is under way, and every retained sample was freed before
      !HoldsShared(s.watcher) && s.samples.retained == {} && !ShutDown(s, s.lib.generation)
    case Holder(FreeRetained(x)) =>
      x !in s.samples.freed && !ShutDown(s, s.lib.generation)
    case Holder(FreeLocal) =>
      s.samples.local.Some? && s.samples.local.value !in s.samples.freed
    case Holder(Alloc) =>
      s.samples.allocs !in s.samples.retained + s.samples.freed && !ShutDown(s, s.lib.generation)
    case Watch(w) =>
      && (w.Create? || w.CannotCreate? ==> s.watcher.RegTag? && !ShutDown(s, s.watcher.tag))
      && (Touched(s.watcher, w).Some? ==>
            var e := Touched(s.watcher, w).value;
            e < |s.events.tags| && e !in s.events.freed && !ShutDown(s, s.events.tags[e]))
    case _ => true
  }

  /**
   In every interleaving: api.shutdown never runs while the watcher is inside a driver call or a sample is still
   retained, no event set or sample is freed twice, no event set is created under a generation that was shut down, and
   neither an event set nor a retained sample is freed or used after its own generation was.
   */
  lemma NoUseAfterShutdown(s: State, a: Action)
    requires Reachable(s) && Next(s, a).Some?
    ensures Safe(s, a)
  {
    ReachableInv(s);
  }

  /**
   Inits are conserved: each is matched by a shutdown, a skipped shutdown or the generation in use, exactly whenever
   no transition of `initialized` is half done; with `mu` free the generation counts the inits and the watcher's view
   of the generation agrees with the holders'.
   */
  lemma InitsAreAccountedFor(s: State)
    requires Reachable(s)
    ensures s.lib.inits == s.lib.shutdowns + s.lib.skipped + (if s.lib.initialized then 1 else 0) <==> InTransit(s.mu) == 0
    ensures s.lib.inits == s.lib.generation <==> Uncounted(s.mu) == 0
    ensures s.mu.Free? ==>
              && s.lib.inits == s.lib.shutdowns + s.lib.skipped + (if s.lib.initialized then 1 else 0)
              && s.lib.generation == s.lib.inits
              && (s.lib.genLive <==> s.lib.initialized)
  {
    ReachableInv(s);
  }

  /** Samples are conserved in every state, not only between cycles. */
  lemma SamplesAreAccountedFor(s: State)
    requires Reachable(s)
    ensures s.samples.allocs == |s.samples.retained| + |s.samples.freed| + (if s.samples.local.Some? then 1 else 0)
    ensures s.samples.retained !! s.samples.freed
    ensures s.mu.Free? ==> s.samples.local.None?
    ensures !s.lib.genLive ==> s.samples.retained == {}
  {
    ReachableInv(s);
  }

  /** The event set one action frees, as a sequence of at most one. */
  function FreedBy(s: State, a: Action): seq<nat> {
    if a.Watch? && a.w.FreeSet? && Owned(s.watcher).Some? then [Owned(s.watcher).value] else []
  }

  /** The event sets a run frees, in order. */
  function EventFrees(s: State, actions: seq<Action>): (log: seq<nat>)
    requires Run(s, actions).Some?
    decreases |actions|
  {
    if actions == [] then [] else FreedBy(s, actions[0]) + EventFrees(Next(s, actions[0]).value, actions[1..])
  }

  lemma WatchFrees(s: State, w: WatchAction)
    requires EventInv(s) && WatchNext(s, w).Some?
    ensures WatchNext(s, w).value.events.freed == s.events.freed + (set e | e in FreedBy(s, Watch(w)))
    ensures forall e :: e in FreedBy(s, Watch(w)) ==> e !in s.events.freed
  {
    if w.FreeSet? {
      assert FreedBy(s, Watch(w)) == [s.watcher.event];
    }
  }

  lemma FreeIsNew(s: State, a: Action)
    requires Inv(s) && Next(s, a).Some?
    ensures Next(s, a).value.events.freed == s.events.freed + (set e | e in FreedBy(s, a))
    ensures forall e :: e in FreedBy(s, a) ==> e !in s.events.freed
  {
    match a
    case Holder(h) => assert HolderNext(s, h).value.events == s.events;
    case Lock(l) => assert LockNext(s, l).value.events == s.events;
    case Watch(w) => WatchFrees(s, w);
  }

  /** Over a whole run no event set is freed twice, and exactly the sets in the log end up freed. */
  lemma {:induction false} EventSetsFreedOnce(s: State, actions: seq<Action>)
    requires Inv(s) && Run(s, actions).Some?
    ensures var log := EventFrees(s, actions);
            && (forall i, j :: 0 <= i < j < |log| ==> log[i] != log[j])
            && (forall e :: e in log ==> e !in s.events.freed)
            && Run(s, actions).value.events.freed == s.events.freed + (set e | e in log)
    decreases |actions|
  {
    if actions == [] {
    } else {
      var next := Next(s, actions[0]).value;
      FreeIsNew(s, actions[0]);
      StepKeepsInv(s, actions[0]);
      EventSetsFreedOnce(next, actions[1..]);
      assert forall e :: e in FreedBy(s, actions[0]) ==> e in next.events.freed;
    }
  }

  /**
   The event sets that leak, unowned and unfreed while their generation can still be alive, are exactly the dropped ones.
   */
  lemma EventSetsDoNotLeak(s: State, e: nat)
    requires Reachable(s) && e < |s.events.tags|
    ensures Owned(s.watcher) != Some(e) && e !in s.events.freed && !Dead(s, s.events.tags[e])
            <==> e in s.events.dropped && !Dead(s, s.events.tags[e])
    ensures e in s.events.dropped ==> Owned(s.watcher) != Some(e) && e !in s.events.freed
  {
    ReachableInv(s);
    if Owned(s.watcher) != Some(e) && e !in s.events.freed && e !in s.events.dropped {
      assert Stranded(s, e);
    }
  }

  lemma DeadStep(s: State, g: nat, a: Action)
    requires g <= s.lib.generation && Next(s, a).Some?
    ensures var t := Next(s, a).value;
            && g <= t.lib.generation && (Dead(s, g) ==> Dead(t, g)) && s.events.dropped <= t.events.dropped
  {
  }

  /** A dead generation stays dead, and a dropped event set dropped, so that it is never freed, whatever happens next. */
  lemma {:induction false} DeadForGood(s: State, g: nat, actions: seq<Action>)
    requires g <= s.lib.generation && Run(s, actions).Some?
    ensures var t := Run(s, actions).value;
            && g <= t.lib.generation && (Dead(s, g) ==> Dead(t, g)) && s.events.dropped <= t.events.dropped
    decreases |actions|
  {
    if actions == [] {
    } else {
      DeadStep(s, g, actions[0]);
      DeadForGood(Next(s, actions[0]).value, g, actions[1..]);
    }
  }

  /** The fresh sample of a failed diff is freed after the shutdown exactly when the teardown won the lock. */
  lemma LocalFreeAfterShutdown(s: State)
    requires Reachable(s) && HolderNext(s, FreeLocal).Some?
    ensures ShutDown(s, s.lib.generation) <==> s.mu == Held(s.mu.owner, Down(true))
  {
    ReachableInv(s);
  }

  lemma {:induction false} RunThen(s: State, actions: seq<Action>, a: Action)
    requires Run(s, actions).Some?
    ensures Run(s, actions + [a]) == Next(Run(s, actions).value, a)
    decreases |actions|
  {
    if actions == [] {
      var t := Next(s, a);
      assert (actions + [a])[1..] == [];
    } else {
      assert (actions + [a])[1..] == actions[1..] + [a];
      RunThen(Next(s, actions[0]).value, actions[1..], a);
    }
  }

  lemma Take(s: State, a: Action) returns (t: State)
    requires Reachable(s) && Next(s, a).Some?
    ensures t == Next(s, a).value && Reachable(t)
  {
    var actions :| Run(Init0(), actions) == Some(s);
    RunThen(Init0(), actions, a);
    t := Next(s, a).value;
  }

  lemma InitReachable()
    ensures Reachable(Init0())
  {
    assert Run(Init0(), []) == Some(Init0());
  }

  /** From a cycle whose samples are gone to its race for the exclusive lock. */
  lemma GoDead(s: State) returns (t: State)
    requires Reachable(s) && s.mu == Held(Cycle, FreeSamples) && s.samples.retained == {}
    ensures Reachable(t) && t.mu == Held(Cycle, Acquire(|s.barrier.acquirers|))
    ensures t == s.(mu := t.mu, lib := s.lib.(initialized := false, genLive := false),
                    barrier := s.barrier.(acquirers := s.barrier.acquirers + [Waiting]))
  {
    t := Take(s, Holder(SamplesGone));
    t := Take(t, Holder(ClearInitialized));
    t := Take(t, Holder(ClearLive));
  }

  /** The rest of a teardown that wins the lock at once. */
  lemma WinAndShut(s: State) returns (t: State)
    requires Reachable(s) && s.mu.Held? && s.mu.owner.Cycle? && s.mu.pc.Acquire?
    requires s.mu.pc.acquirer < |s.barrier.acquirers| && s.barrier.acquirers[s.mu.pc.acquirer].Waiting?
    requires !s.barrier.reader && s.barrier.writer.None?
    ensures Reachable(t) && t.mu == Held(Cycle, Down(true)) && ShutDown(t, t.lib.generation) && t.samples == s.samples
  {
    t := Take(s, Lock(Grant(s.mu.pc.acquirer)));
    t := Take(t, Holder(TakeLock));
    t := Take(t, Holder(Shutdown));
    t := Take(t, Holder(ReleaseLock));
  }

  /** A cycle that retained sample 0, took sample 1 and met a lifecycle error; sample 0 is freed already. */
  lemma LoseWithLocal() returns (t: State)
    ensures Reachable(t)
    ensures t == Init0().(mu := Held(Cycle, FreeSamples), samples := Samples(2, {}, Some(1), {0}))
  {
    InitReachable();
    t := Take(Init0(), Holder(Start(Cycle)));
    t := Take(t, Holder(Branch));
    t := Take(t, Holder(Alloc));
    t := Take(t, Holder(Retain));
    t := Take(t, Holder(Alloc));
    assert t == Init0().(mu := Held(Cycle, Body), samples := Samples(2, {0}, Some(1), {}));
    t := Take(t, Holder(Lose));
    t := Take(t, Holder(FreeRetained(0)));
  }

  /** A run after which the fresh sample of a failed diff is freed although its library generation is down. */
  lemma LocalFreeAfterShutdownHappens()
    ensures exists s :: Reachable(s) && HolderNext(s, FreeLocal).Some? && ShutDown(s, s.lib.generation)
  {
    var t := LoseWithLocal();
    t := GoDead(t);
    t := WinAndShut(t);
  }

  /** A cycle loses the GPU while the watcher registers. */
  lemma LoseDuringRegistration() returns (t: State)
    ensures Reachable(t)
    ensures t == Init0().(watcher := RegLive, mu := Held(Cycle, FreeSamples), barrier := Barrier(true, None, []))
  {
    InitReachable();
    t := Take(Init0(), Watch(Enter));
    t := Take(t, Watch(LoadLive));
    t := Take(t, Holder(Start(Cycle)));
    t := Take(t, Holder(Branch));
    t := Take(t, Holder(Lose));
  }

  /** It gives up on the lock the registering watcher holds, and lets go of `mu`. */
  lemma LoseBehindWatcher() returns (t: State)
    ensures Reachable(t)
    ensures t == Init0().(watcher := RegLive, lib := Lib(false, 1, false, 1, 0, 1, 0),
                          barrier := Barrier(true, None, [Orphaned]))
  {
    t := LoseDuringRegistration();
    t := GoDead(t);
    t := Take(t, Holder(GiveUp));
    t := Take(t, Holder(AfterTeardown));
    t := Take(t, Holder(Finish));
  }

  /** The next cycle's re-initialization, up to the store that makes the generation live. */
  lemma Reinitialize(s: State) returns (t: State)
    requires Reachable(s) && s.mu.Free? && !s.lib.initialized
    ensures Reachable(t) && t.mu == Held(Cycle, Counted)
    ensures t == s.(mu := t.mu, lib := s.lib.(initialized := true, inits := s.lib.inits + 1,
                                              generation := s.lib.generation + 1))
  {
    t := Take(s, Holder(Start(Cycle)));
    t := Take(t, Holder(Branch));
    t := Take(t, Holder(Init(true)));
    t := Take(t, Holder(SetInitialized));
    t := Take(t, Holder(AddGeneration));
  }

  /** The watcher tags a set while genLive is clear and, finding it clear again, drops the set without a free. */
  lemma RegisterAndDrop(s: State) returns (t: State)
    requires Reachable(s) && s.watcher.RegLive? && s.barrier.reader && s.barrier.writer.None? && !s.lib.genLive
    requires s.events == Events([], {}, {}) && s.mu.Held? && s.mu.pc.Counted?
    ensures Reachable(t) && t.watcher.Idle? && t.lib == s.lib && t.mu == s.mu
    ensures t.events == Events([s.lib.generation], {0}, {})
  {
    t := Take(s, Watch(LoadGeneration));
    t := Take(t, Watch(Create));
    t := Take(t, Watch(Registered));
    t := Take(t, Watch(WatchAction.Exit));
    t := Take(t, Watch(Enter));
    t := Take(t, Watch(LoadLive));
    t := Take(t, Watch(LoadLive));
    t := Take(t, Watch(WatchAction.Exit));
  }

  /** The watcher reads the generation between its count and the genLive store: its event set leaks. */
  lemma EarlySetLeaks()
    ensures exists s, e: nat :: Reachable(s) && e < |s.events.tags| && Owned(s.watcher) != Some(e)
                           && e !in s.events.freed && s.lib.genLive && s.events.tags[e] == s.lib.generation
  {
    var t := LoseBehindWatcher();
    t := Reinitialize(t);
    t := RegisterAndDrop(t);
    t := Take(t, Holder(SetLive));
    var e: nat := 0;
    assert Reachable(t) && e < |t.events.tags| && Owned(t.watcher) != Some(e)
           && e !in t.events.freed && t.lib.genLive && t.events.tags[e] == t.lib.generation;
  }

  // ---------------------------------------------------------------- progress

  /** The next step of the holder of `mu` on its way out: a driver call fails, the race for the lock is given up. */
  function WayOut(s: State): MuAction
    requires s.mu.Held?
  {
    match s.mu.pc
    case Entry => Branch
    case CallInit => Init(false)
    case Inited => SetInitialized
    case Marked => AddGeneration
    case Counted => SetLive
    case Body => if s.samples.local.Some? then FreeLocal else EndBody
    case FreeSamples => SamplesGone
    case Unmark => ClearInitialized
    case Kill => ClearLive
    case Acquire(_) => GiveUp
    case Shut(_) => Shutdown
    case Unlock(_) => ReleaseLock
    case Down(_) => if s.samples.local.Some? then FreeLocal else AfterTeardown
    case Leaving => Finish
  }

  /** How far the holder is from letting go. */
  function Rank(pc: Pc): nat {
    match pc
    case Entry => 14
    case FreeSamples => 13
    case Unmark => 12
    case Kill => 11
    case Acquire(_) => 10
    case Shut(_) => 9
    case Unlock(_) => 8
    case Down(_) => 7
    case CallInit => 6
    case Inited => 5
    case Marked => 4
    case Counted => 3
    case Body => 2
    case Leaving => 1
  }

  function Distance(s: State): nat {
    if s.mu.Free? then 0 else 2 * Rank(s.mu.pc) + (if s.samples.local.Some? then 1 else 0) + 100 * |s.samples.retained|
  }

  lemma WayOutIsOpen(s: State)
    requires LibInv(s) && LockInv(s) && SampleInv(s) && s.mu.Held? && !(s.mu.pc.FreeSamples? && s.samples.retained != {})
    ensures HolderNext(s, WayOut(s)).Some?
  {
    assert Current(s.mu).Some? ==> Current(s.mu).value < |s.barrier.acquirers|;
  }

  lemma WayOutNears(s: State)
    requires s.mu.Held? && HolderNext(s, WayOut(s)).Some?
    ensures Distance(HolderNext(s, WayOut(s)).value) < Distance(s)
  {
    assert HolderNext(s, WayOut(s)).value.samples.retained == s.samples.retained;
  }

  /** The holder of `mu` is never stuck, and each of these steps brings it nearer to letting go. */
  lemma HolderMoves(s: State) returns (a: MuAction)
    requires Reachable(s) && s.mu.Held?
    ensures HolderNext(s, a).Some? && Distance(HolderNext(s, a).value) < Distance(s)
  {
    ReachableInv(s);
    if s.mu.pc.FreeSamples? && s.samples.retained != {} {
      var x :| x in s.samples.retained;
      a := FreeRetained(x);
      assert |s.samples.retained - {x}| == |s.samples.retained| - 1;
    } else {
      a := WayOut(s);
      WayOutIsOpen(s);
      WayOutNears(s);
    }
  }

  /** Whatever the driver, the watcher and other acquirers do, the holder can always go on until it lets go of `mu`. */
  lemma {:induction false} MuIsLetGo(s: State) returns (t: State, actions: seq<Action>)
    requires Reachable(s)
    ensures Run(s, actions) == Some(t) && Reachable(t) && t.mu.Free?
    ensures forall i :: 0 <= i < |actions| ==> actions[i].Holder?
    decreases Distance(s)
  {
    if s.mu.Free? {
      t, actions := s, [];
    } else {
      var a := HolderMoves(s);
      var next := Take(s, Holder(a));
      var rest;
      t, rest := MuIsLetGo(next);
      actions := [Holder(a)] + rest;
      assert actions[1..] == rest;
    }
  }

  /** So the watcher can always come to hold the shared lock: no teardown, orphaned acquirers included, keeps it out. */
  lemma WatcherGetsIn(s: State) returns (t: State)
    requires Reachable(s) && s.mu.Free? && (s.watcher.Idle? || s.watcher.Loop?)
    ensures Reachable(t) && HoldsShared(t.watcher)
  {
    ReachableInv(s);
    t := s;
    if s.barrier.writer.Some? {
      t := Take(t, Lock(OrphanRelease(s.barrier.writer.value)));
    }
    t := Take(t, Watch(Enter));
  }
}
