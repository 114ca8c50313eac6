/** Cancellation, spawning and finalisation of one run, interleaved: any number of lanes, finalisers, cancel requests
    and phase changes, serialised only by the process lock and the manifest lock. */
module Cancellation {
  import opened Base
  import opened StoreModel
  import StoreJournal

  /** Why a thread moves the run to another status. */
  datatype Origin = Runner | Finalizer | Canceller

  /** What a thread is doing; the comments say which locks it holds. */
  datatype Local =
    | Idle
    // a lane starting a child, under the process lock until the child is registered
    | SpawnLocked | SpawnCleared | Spawned(child: nat) | Registered(child: nat)
    // a lane waiting for its child, no lock
    | Running(child: nat)
    // a finaliser, under the process lock to the end
    | FinalLocked | FinalCleared | Published | Concluded
    // a cancel request, under the process lock until its snapshot is taken
    | CancelLocked | CancelOpen | Flagged | Withdrawn
    // a cancel request accepted, no lock
    | Accepted
    // a transition, under the manifest lock (a finaliser also keeps the process lock)
    | Moving(requested: Status, origin: Origin) | Decided(to: Status, origin: Origin)

  /** Orphans are the children whose starter died before registering them. */
  datatype State = State(
    status: Status, flag: bool, result: bool,
    registered: set<nat>, live: set<nat>, spawned: set<nat>, orphans: set<nat>, snapshots: set<set<nat>>,
    processLock: Option<nat>, manifestLock: Option<nat>,
    threads: map<nat, Local>)

  function At(s: State, t: nat): Local
  {
    if t in s.threads then s.threads[t] else Idle
  }

  function Go(s: State, t: nat, l: Local): State
  {
    s.(threads := s.threads[t := l])
  }

  predicate Success(status: Status)
  {
    status.Completed? || status.Degraded?
  }

  datatype Action =
    | LockForSpawn | RefuseSpawn | ClearSpawn | Spawn(started: nat) | Register | Abandon | FinishSpawn | Unregister
    | ChildExits(gone: nat)
    | LockForFinal | RefuseFinal | ClearFinal | Publish | FinishFinal
    | LockForCancel | RefuseCancel | OpenCancel | RaiseFlag | Withdraw | TakeSnapshot
    | BeginMove(wanted: Status) | Decide | Commit
    | Die

  function Origins(l: Local): Option<Origin>
  {
    match l
    case Idle => Some(Runner)
    case Published => Some(Finalizer)
    case Accepted => Some(Canceller)
    case _ => None
  }

  /** Only finalisers ask for a successful end, only accepted cancel requests ask for cancelling. */
  predicate MayAsk(origin: Origin, wanted: Status)
  {
    match origin
    case Runner => !Success(wanted) && !wanted.Cancelling?
    case Finalizer => Success(wanted)
    case Canceller => wanted.Cancelling? || wanted.Cancelled?
  }

  function After(origin: Origin): Local
  {
    match origin
    case Runner => Idle
    case Finalizer => Concluded
    case Canceller => Accepted
  }

  predicate Enabled(s: State, t: nat, a: Action)
  {
    var l := At(s, t);
    match a
    case LockForSpawn => l.Idle? && s.processLock.None?
    case RefuseSpawn => l.SpawnLocked? && s.flag
    case ClearSpawn => l.SpawnLocked? && !s.flag
    case Spawn(c) => l.SpawnCleared? && c !in s.spawned
    case Register => l.Spawned?
    case Abandon => l.Spawned?
    case FinishSpawn => l.Registered?
    case Unregister => l.Running? && l.child !in s.live && s.processLock.None?
    case ChildExits(c) => true
    case LockForFinal => l.Idle? && s.processLock.None?
    case RefuseFinal => l.FinalLocked? && s.flag
    case ClearFinal => l.FinalLocked? && !s.flag
    case Publish => l.FinalCleared?
    case FinishFinal => l.Concluded?
    case LockForCancel => l.Idle? && s.processLock.None?
    case RefuseCancel => l.CancelLocked? && Terminal(s.status)
    case OpenCancel => l.CancelLocked? && !Terminal(s.status)
    case RaiseFlag => l.CancelOpen?
    case Withdraw => l.Flagged?
    case TakeSnapshot => l.Withdrawn?
    case BeginMove(wanted) =>
      s.manifestLock.None? && Origins(l).Some? && MayAsk(Origins(l).value, wanted)
    case Decide => l.Moving?
    case Commit => l.Decided?
    case Die => true
  }

  function HoldsProcess(l: Local): bool
  {
    match l
    case Idle | Running(_) | Accepted => false
    case Moving(_, origin) => origin.Finalizer?
    case Decided(_, origin) => origin.Finalizer?
    case _ => true
  }

  function HoldsManifest(l: Local): bool
  {
    l.Moving? || l.Decided?
  }

  /** One step of one thread; a step that is not enabled does nothing. */
  function Do(s: State, t: nat, a: Action): State
  {
    var l := At(s, t);
    if !Enabled(s, t, a) then s
    else match a
      case LockForSpawn => Go(s.(processLock := Some(t)), t, SpawnLocked)
      case RefuseSpawn => Go(s.(processLock := None), t, Idle)
      case ClearSpawn => Go(s, t, SpawnCleared)
      case Spawn(c) => Go(s.(live := s.live + {c}, spawned := s.spawned + {c}), t, Spawned(c))
      case Register => Go(s.(registered := s.registered + {l.child}), t, Registered(l.child))
      case Abandon => Go(s.(live := s.live - {l.child}, processLock := None), t, Idle)
      case FinishSpawn => Go(s.(processLock := None), t, Running(l.child))
      case Unregister => Go(s.(registered := s.registered - {l.child}), t, Idle)
      case ChildExits(c) => s.(live := s.live - {c})
      case LockForFinal => Go(s.(processLock := Some(t)), t, FinalLocked)
      case RefuseFinal => Go(s.(processLock := None), t, Idle)
      case ClearFinal => Go(s, t, FinalCleared)
      case Publish => Go(s.(result := true), t, Published)
      case FinishFinal => Go(s.(processLock := None), t, Idle)
      case LockForCancel => Go(s.(processLock := Some(t)), t, CancelLocked)
      case RefuseCancel => Go(s.(processLock := None), t, Idle)
      case OpenCancel => Go(s, t, CancelOpen)
      case RaiseFlag => Go(s.(flag := true), t, Flagged)
      case Withdraw => Go(s.(result := false), t, Withdrawn)
      case TakeSnapshot => Go(s.(snapshots := s.snapshots + {s.registered}, processLock := None), t, Accepted)
      case BeginMove(wanted) => Go(s.(manifestLock := Some(t)), t, Moving(wanted, Origins(l).value))
      case Decide => DecideMove(s, t, l.requested, l.origin)
      case Commit => Go(s.(status := l.to, manifestLock := None), t, After(l.origin))
      case Die =>
        Go(s.(orphans := if l.Spawned? then s.orphans + {l.child} else s.orphans,
              processLock := if HoldsProcess(l) then None else s.processLock,
              manifestLock := if HoldsManifest(l) then None else s.manifestLock), t, Idle)
  }

  /** The decision of a transition: a finished run stays, a raised flag turns every other wish into Cancelled. */
  function DecideMove(s: State, t: nat, requested: Status, origin: Origin): State
  {
    var flag := s.flag || requested.Cancelling?;
    var to := StoreJournal.Effective(flag, s.status, requested);
    if Terminal(s.status) then Go(s.(manifestLock := None), t, After(origin))
    else if !TransitionAllowed(s.status, to) then Go(s.(flag := flag, manifestLock := None), t, After(origin))
    else Go(s.(flag := flag), t, Decided(to, origin))
  }

  datatype Step = Step(thread: nat, action: Action)

  function Start(status: Status): State
  {
    State(status, false, false, {}, {}, {}, {}, {}, None, None, map[])
  }

  function RunAll(status: Status, steps: seq<Step>): State
  {
    if steps == [] then Start(status)
    else
      var last := steps[|steps| - 1];
      Do(RunAll(status, steps[..|steps| - 1]), last.thread, last.action)
  }

  // ---- the invariant ---------------------------------------------------------------------------

  /** The locks are held by exactly the threads whose position says so. */
  ghost predicate LocksAgree(s: State, t: nat)
  {
    && (HoldsProcess(At(s, t)) <==> s.processLock == Some(t))
    && (HoldsManifest(At(s, t)) <==> s.manifestLock == Some(t))
  }

  /** What a thread may rely on at its position. */
  ghost predicate ThreadOk(s: State, t: nat)
  {
    var l := At(s, t);
    && LocksAgree(s, t)
    && ((l.SpawnCleared? || l.Spawned?) ==> !s.flag)
    && (l.Spawned? ==> l.child in s.spawned && l.child !in s.registered && l.child !in s.orphans)
    && (l.FinalCleared? ==> !s.flag)
    && (l.Published? || ((l.Moving? || l.Decided?) && l.origin.Finalizer?) ==> !s.flag && s.result)
    && (l.Moving? ==> MayAsk(l.origin, l.requested))
    && (l.Decided? ==> !Terminal(s.status) && (Success(l.to) ==> l.origin.Finalizer?))
    && (l.CancelOpen? || l.Flagged? || l.Withdrawn? ==> !Success(s.status))
    && (l.Flagged? || l.Withdrawn? || l.Accepted? ==> s.flag)
    && ((l.Moving? || l.Decided?) && l.origin.Canceller? ==> s.flag)
  }

  /** The children a thread has started and not yet registered. */
  function Unregistered(s: State): set<nat>
  {
    if s.processLock.Some? && At(s, s.processLock.value).Spawned? then {At(s, s.processLock.value).child} else {}
  }

  ghost predicate RunOk(s: State)
  {
    (Success(s.status) ==> !s.flag && s.result) && ChildrenOk(s)
  }

  /** Live children are registered, orphans, or just started under the lock; each snapshot covers all that still live
      but the orphans, of which it shows none. */
  ghost predicate ChildrenOk(s: State)
  {
    && s.live <= s.registered + s.orphans + Unregistered(s)
    && s.registered <= s.spawned && s.orphans <= s.spawned && s.registered !! s.orphans
    && (s.snapshots != {} ==> s.flag)
    && (forall snapshot :: snapshot in s.snapshots ==> s.live - s.orphans <= snapshot && snapshot !! s.orphans)
  }

  ghost predicate Inv(s: State)
  {
    RunOk(s) && forall t: nat :: ThreadOk(s, t)
  }

  /** One step keeps what its own thread (t == u) and every other thread rely on. */
  lemma SpawnKeepsThread(s: State, t: nat, a: Action, u: nat)
    requires RunOk(s) && ThreadOk(s, t) && ThreadOk(s, u)
    requires a.LockForSpawn? || a.RefuseSpawn? || a.ClearSpawn? || a.Spawn? || a.Register? || a.Abandon? || a.FinishSpawn?
    ensures ThreadOk(Do(s, t, a), u)
  {
    hide DecideMove, Unregistered;
  }

  lemma QuietKeepsThread(s: State, t: nat, a: Action, u: nat)
    requires RunOk(s) && ThreadOk(s, t) && ThreadOk(s, u)
    requires a.Unregister? || a.ChildExits? || a.LockForFinal? || a.RefuseFinal? || a.ClearFinal? || a.FinishFinal?
    ensures ThreadOk(Do(s, t, a), u)
  {
    hide DecideMove, Unregistered;
  }

  lemma RequestKeepsThread(s: State, t: nat, a: Action, u: nat)
    requires RunOk(s) && ThreadOk(s, t) && ThreadOk(s, u)
    requires a.LockForCancel? || a.RefuseCancel? || a.OpenCancel?
    ensures ThreadOk(Do(s, t, a), u)
  {
    hide DecideMove, Unregistered;
  }

  lemma CancelKeepsThread(s: State, t: nat, a: Action, u: nat)
    requires RunOk(s) && ThreadOk(s, t) && ThreadOk(s, u)
    requires a.RaiseFlag? || a.Withdraw? || a.TakeSnapshot?
    ensures ThreadOk(Do(s, t, a), u)
  {
    hide DecideMove, Unregistered;
  }

  lemma DeathKeepsThread(s: State, t: nat, a: Action, u: nat)
    requires RunOk(s) && ThreadOk(s, t) && ThreadOk(s, u) && (a.Die? || a.Publish?)
    ensures ThreadOk(Do(s, t, a), u)
  {
    hide DecideMove, Unregistered;
  }

  lemma MoveKeepsThread(s: State, t: nat, a: Action, u: nat)
    requires RunOk(s) && ThreadOk(s, t) && ThreadOk(s, u)
    requires a.BeginMove? || a.Decide? || a.Commit?
    ensures ThreadOk(Do(s, t, a), u)
  {
    if Enabled(s, t, a) && a.Decide? {
      DecideKeepsThread(s, t, u);
    }
  }

  lemma DecideKeepsOwn(s: State, t: nat)
    requires RunOk(s) && ThreadOk(s, t) && At(s, t).Moving?
    ensures ThreadOk(DecideMove(s, t, At(s, t).requested, At(s, t).origin), t)
  {
    hide Unregistered, TransitionAllowed, ChildrenOk;
    var l := At(s, t);
    assert l.requested.Cancelling? ==> s.flag;
    assert Success(StoreJournal.Effective(s.flag, s.status, l.requested)) ==> l.origin.Finalizer?;
  }

  lemma DecideKeepsThread(s: State, t: nat, u: nat)
    requires RunOk(s) && ThreadOk(s, t) && ThreadOk(s, u) && At(s, t).Moving?
    ensures ThreadOk(Do(s, t, Decide), u)
  {
    if u == t {
      DecideKeepsOwn(s, t);
      hide DecideMove, ThreadOk, RunOk;
    } else {
      hide Unregistered, TransitionAllowed, ChildrenOk;
      assert At(s, t).requested.Cancelling? ==> s.flag;
    }
  }

  lemma StepKeepsThread(s: State, t: nat, a: Action, u: nat)
    requires RunOk(s) && ThreadOk(s, t) && ThreadOk(s, u)
    ensures ThreadOk(Do(s, t, a), u)
  {
    hide ThreadOk, Do;
    match a {
      case LockForSpawn | RefuseSpawn | ClearSpawn | Spawn(_) | Register | Abandon | FinishSpawn =>
        SpawnKeepsThread(s, t, a, u);
      case LockForCancel | RefuseCancel | OpenCancel => RequestKeepsThread(s, t, a, u);
      case RaiseFlag | Withdraw | TakeSnapshot => CancelKeepsThread(s, t, a, u);
      case Publish | Die => DeathKeepsThread(s, t, a, u);
      case BeginMove(_) | Decide | Commit => MoveKeepsThread(s, t, a, u);
      case _ => QuietKeepsThread(s, t, a, u);
    }
  }

  lemma SpawnKeepsChildren(s: State, t: nat, a: Action)
    requires RunOk(s) && ThreadOk(s, t)
    requires a.LockForSpawn? || a.RefuseSpawn? || a.ClearSpawn? || a.Spawn? || a.Register? || a.Abandon? || a.FinishSpawn?
    ensures ChildrenOk(Do(s, t, a))
  {
  }

  lemma OthersKeepChildren(s: State, t: nat, a: Action)
    requires RunOk(s) && ThreadOk(s, t) && (s.processLock.Some? ==> ThreadOk(s, s.processLock.value))
    requires !(a.LockForSpawn? || a.RefuseSpawn? || a.ClearSpawn? || a.Spawn? || a.Register? || a.Abandon? || a.FinishSpawn?)
    requires !a.TakeSnapshot? && !a.Die? && !a.Decide?
    ensures ChildrenOk(Do(s, t, a))
  {
    hide DecideMove;
    var after := Do(s, t, a);
    assert after.live <= s.live;
    if s.processLock.Some? && At(s, s.processLock.value).Spawned? && s.processLock.value != t {
      assert Unregistered(after) == Unregistered(s);
    }
  }

  lemma DecideKeepsChildren(s: State, t: nat)
    requires RunOk(s) && ThreadOk(s, t) && (s.processLock.Some? ==> ThreadOk(s, s.processLock.value))
    ensures ChildrenOk(Do(s, t, Decide))
  {
    if s.processLock.Some? && At(s, s.processLock.value).Spawned? && s.processLock.value != t {
      assert Unregistered(Do(s, t, Decide)) == Unregistered(s);
    }
  }

  lemma SnapshotKeepsChildren(s: State, t: nat)
    requires RunOk(s) && ThreadOk(s, t)
    ensures ChildrenOk(Do(s, t, TakeSnapshot))
  {
  }

  lemma DeathKeepsChildren(s: State, t: nat)
    requires RunOk(s) && ThreadOk(s, t) && (s.processLock.Some? ==> ThreadOk(s, s.processLock.value))
    ensures ChildrenOk(Do(s, t, Die))
  {
    if s.processLock.Some? && At(s, s.processLock.value).Spawned? && s.processLock.value != t {
      assert Unregistered(Do(s, t, Die)) == Unregistered(s);
    }
  }

  lemma StepKeepsResult(s: State, t: nat, a: Action)
    requires RunOk(s) && ThreadOk(s, t)
    ensures Success(Do(s, t, a).status) ==> !Do(s, t, a).flag && Do(s, t, a).result
  {
  }

  lemma StepKeeps(s: State, t: nat, a: Action)
    requires Inv(s)
    ensures Inv(Do(s, t, a))
  {
    assert ThreadOk(s, t);
    forall u: nat ensures ThreadOk(Do(s, t, a), u) {
      assert ThreadOk(s, u);
      StepKeepsThread(s, t, a, u);
    }
    StepKeepsResult(s, t, a);
    if a.LockForSpawn? || a.RefuseSpawn? || a.ClearSpawn? || a.Spawn? || a.Register? || a.Abandon? || a.FinishSpawn? {
      SpawnKeepsChildren(s, t, a);
    } else if a.TakeSnapshot? {
      SnapshotKeepsChildren(s, t);
    } else {
      assert s.processLock.Some? ==> ThreadOk(s, s.processLock.value);
      if a.Die? {
        DeathKeepsChildren(s, t);
      } else if a.Decide? {
        DecideKeepsChildren(s, t);
      } else {
        OthersKeepChildren(s, t, a);
      }
    }
  }

  // ---- every interleaving --------------------------------------------------------------------------

  lemma {:induction false} EveryInterleavingHolds(status: Status, steps: seq<Step>)
    requires !Success(status)
    ensures Inv(RunAll(status, steps))
    decreases |steps|
  {
    if steps == [] {
      forall t: nat ensures ThreadOk(Start(status), t) {
      }
    } else {
      EveryInterleavingHolds(status, steps[..|steps| - 1]);
      var last := steps[|steps| - 1];
      StepKeeps(RunAll(status, steps[..|steps| - 1]), last.thread, last.action);
    }
  }

  /** No interleaving ends in success with a cancellation accepted or the result deleted. */
  lemma SuccessIsClean(status: Status, steps: seq<Step>)
    requires !Success(status) && Success(RunAll(status, steps).status)
    ensures var s := RunAll(status, steps);
            s.result && !s.flag && s.snapshots == {} && forall t :: t in s.threads ==> s.threads[t] != Accepted
  {
    EveryInterleavingHolds(status, steps);
    var s := RunAll(status, steps);
    forall t | t in s.threads ensures s.threads[t] != Accepted {
      assert ThreadOk(s, t);
    }
  }

  /** Every live child is registered or an orphan once the lock is free, and a cancel snapshot shows all live children
      exactly when none of them is an orphan. */
  lemma SnapshotsCoverLiveChildren(status: Status, steps: seq<Step>, snapshot: set<nat>)
    requires !Success(status)
    ensures var s := RunAll(status, steps);
            && s.live <= s.spawned + Unregistered(s)
            && (s.processLock.None? ==> s.live <= s.registered + s.orphans)
            && (snapshot in s.snapshots ==> s.live - s.orphans <= snapshot)
            && (snapshot in s.snapshots ==> (s.live <= snapshot <==> s.live !! s.orphans))
  {
    EveryInterleavingHolds(status, steps);
  }

  /** The step at which a worker dies between starting this child and registering it. */
  ghost predicate DiesStarting(status: Status, steps: seq<Step>, i: nat, child: nat)
  {
    i < |steps| && steps[i].action.Die? && At(RunAll(status, steps[..i]), steps[i].thread) == Spawned(child)
  }

  lemma {:induction false} OrphansAreDeaths(status: Status, steps: seq<Step>, child: nat)
    ensures child in RunAll(status, steps).orphans <==> exists i :: DiesStarting(status, steps, i, child)
    decreases |steps|
  {
    if steps != [] {
      var n := |steps| - 1;
      OrphansAreDeaths(status, steps[..n], child);
      forall i: nat | i < n ensures DiesStarting(status, steps[..n], i, child) <==> DiesStarting(status, steps, i, child) {
        assert steps[..n][..i] == steps[..i];
      }
      OrphanStep(RunAll(status, steps[..n]), steps[n].thread, steps[n].action, child);
      if child in RunAll(status, steps).orphans && child !in RunAll(status, steps[..n]).orphans {
        assert DiesStarting(status, steps, n, child);
      }
    }
  }

  lemma OrphanStep(s: State, t: nat, a: Action, child: nat)
    ensures child in Do(s, t, a).orphans <==> child in s.orphans || (a.Die? && At(s, t) == Spawned(child))
  {
  }

  /** So a snapshot misses a live child exactly when the worker that started it died before registering it. */
  lemma SnapshotMissesExactly(status: Status, steps: seq<Step>, snapshot: set<nat>)
    requires !Success(status) && snapshot in RunAll(status, steps).snapshots
    ensures forall child :: child in RunAll(status, steps).live ==>
              (child !in snapshot <==> exists i :: DiesStarting(status, steps, i, child))
  {
    SnapshotsCoverLiveChildren(status, steps, snapshot);
    EveryInterleavingHolds(status, steps);
    forall child | child in RunAll(status, steps).live
      ensures child !in snapshot <==> exists i :: DiesStarting(status, steps, i, child)
    {
      OrphansAreDeaths(status, steps, child);
    }
  }

  lemma Then(status: Status, steps: seq<Step>, t: nat, a: Action) returns (more: seq<Step>)
    ensures more == steps + [Step(t, a)] && RunAll(status, more) == Do(RunAll(status, steps), t, a)
  {
    more := steps + [Step(t, a)];
    assert more[..|more| - 1] == steps;
  }

  /** With the lock free and the run not finished, a cancel request goes through and shows what is registered. */
  lemma RequestTakes(status: Status, steps: seq<Step>, t: nat) returns (more: seq<Step>)
    requires !Terminal(RunAll(status, steps).status)
    requires RunAll(status, steps).processLock.None? && At(RunAll(status, steps), t).Idle?
    ensures RunAll(status, more).live == RunAll(status, steps).live
    ensures RunAll(status, steps).registered in RunAll(status, more).snapshots
  {
    hide RunAll;
    more := Then(status, steps, t, LockForCancel);
    more := Then(status, more, t, OpenCancel);
    more := Then(status, more, t, RaiseFlag);
    more := Then(status, more, t, Withdraw);
    more := Then(status, more, t, TakeSnapshot);
  }

  /** With the lock free and no cancellation, a lane can start a child and die. */
  lemma StartsAndDies(status: Status, steps: seq<Step>, t: nat, child: nat) returns (more: seq<Step>)
    requires RunAll(status, steps).processLock.None? && At(RunAll(status, steps), t).Idle?
    requires !RunAll(status, steps).flag && child !in RunAll(status, steps).spawned
    ensures var s, after := RunAll(status, steps), RunAll(status, more);
            && after.live == s.live + {child} && after.registered == s.registered && after.status == s.status
            && after.processLock.None? && forall u :: u != t ==> At(after, u) == At(s, u)
  {
    hide RunAll;
    more := Then(status, steps, t, LockForSpawn);
    more := Then(status, more, t, ClearSpawn);
    more := Then(status, more, t, Spawn(child));
    more := Then(status, more, t, Die);
  }

  /** It happens: a lane starts child 7 and dies; the snapshot of a later cancel request is empty, and the child runs. */
  lemma OrphanExample(status: Status) returns (steps: seq<Step>)
    requires !Terminal(status)
    ensures RunAll(status, steps).live == {7} && {} in RunAll(status, steps).snapshots
  {
    assert RunAll(status, []) == Start(status);
    hide RunAll;
    steps := StartsAndDies(status, [], 0, 7);
    steps := RequestTakes(status, steps, 1);
  }

  /** A raised flag stays raised, stops every later start of a child, and excludes success. */
  lemma FlagIsFinal(s: State, t: nat, a: Action)
    requires Inv(s) && s.flag
    ensures Do(s, t, a).flag && Do(s, t, a).spawned == s.spawned && !Success(Do(s, t, a).status)
  {
    assert ThreadOk(s, t);
    StepKeeps(s, t, a);
  }

  lemma FlagExcludes(s: State)
    requires Inv(s) && s.flag
    ensures !Success(s.status)
  {
  }

  /** Once the request of a cancellation is on disk, whatever is interleaved after it starts no child and never ends
      the run in success. */
  lemma {:induction false} AcceptedIsFinal(status: Status, steps: seq<Step>, more: seq<Step>)
    requires !Success(status) && RunAll(status, steps).flag
    ensures var s := RunAll(status, steps + more);
            s.flag && !Success(s.status) && s.spawned == RunAll(status, steps).spawned
    decreases |more|
  {
    hide Do, Inv, Success;
    if more == [] {
      assert steps + more == steps;
      EveryInterleavingHolds(status, steps);
      FlagExcludes(RunAll(status, steps));
    } else {
      var before, last := more[..|more| - 1], more[|more| - 1];
      AcceptedIsFinal(status, steps, before);
      assert (steps + more)[..|steps + more| - 1] == steps + before;
      EveryInterleavingHolds(status, steps + before);
      FlagIsFinal(RunAll(status, steps + before), last.thread, last.action);
    }
  }
}
