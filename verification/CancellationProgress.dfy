/** What one thread achieves when no other interferes: finishing, cancelling and spawning, and who is refused. */
module CancellationProgress {
  import opened Base
  import opened StoreModel
  import opened Cancellation
  import StoreJournal
  import StoreProgress

  /** The actions of one thread, one after the other. */
  function Acts(s: State, t: nat, actions: seq<Action>): State
    decreases |actions|
  {
    if actions == [] then s else Acts(Do(s, t, actions[0]), t, actions[1..])
  }

  lemma {:induction false} ActsBoth(s: State, t: nat, a: seq<Action>, b: seq<Action>)
    ensures Acts(s, t, a + b) == Acts(Acts(s, t, a), t, b)
    decreases |a|
  {
    if a == [] {
      assert a + b == b;
    } else {
      assert (a + b)[1..] == a[1..] + b;
      ActsBoth(Do(s, t, a[0]), t, a[1..], b);
    }
  }

  lemma ActsOne(s: State, t: nat, a: Action)
    ensures Acts(s, t, [a]) == Do(s, t, a)
  {
    assert [a][1..] == [];
  }

  lemma ActsTwo(s: State, t: nat, a: Action, b: Action)
    ensures Acts(s, t, [a, b]) == Do(Do(s, t, a), t, b)
  {
    assert [a, b][1..] == [b];
    ActsOne(Do(s, t, a), t, b);
  }

  lemma ActsThree(s: State, t: nat, a: Action, b: Action, c: Action)
    ensures Acts(s, t, [a, b, c]) == Do(Do(Do(s, t, a), t, b), t, c)
  {
    assert [a, b, c][1..] == [b, c];
    ActsTwo(Do(s, t, a), t, b, c);
  }

  /** Both locks are free and the thread is doing nothing. */
  predicate Free(s: State, t: nat)
  {
    s.processLock == None && s.manifestLock == None && At(s, t) == Idle
  }

  // ---- single steps -------------------------------------------------------------------------------------

  lemma MoveSteps(s: State, t: nat, origin: Origin, wanted: Status)
    ensures s.manifestLock == None && Origins(At(s, t)) == Some(origin) && MayAsk(origin, wanted) ==>
              Do(s, t, BeginMove(wanted)) == Go(s.(manifestLock := Some(t)), t, Moving(wanted, origin))
    ensures Do(s, t, Commit) ==
            if At(s, t).Decided? then Go(s.(status := At(s, t).to, manifestLock := None), t, After(At(s, t).origin)) else s
  {
  }

  lemma FinalSteps(s: State, t: nat)
    ensures At(s, t) == Idle && s.processLock == None ==>
              Do(s, t, LockForFinal) == Go(s.(processLock := Some(t)), t, FinalLocked)
    ensures At(s, t) == FinalLocked ==> Do(s, t, ClearFinal) == if s.flag then s else Go(s, t, FinalCleared)
    ensures At(s, t) == FinalLocked && s.flag ==> Do(s, t, RefuseFinal) == Go(s.(processLock := None), t, Idle)
    ensures Do(s, t, Publish) == if At(s, t) == FinalCleared then Go(s.(result := true), t, Published) else s
    ensures At(s, t) == Concluded ==> Do(s, t, FinishFinal) == Go(s.(processLock := None), t, Idle)
  {
  }

  lemma CancelSteps(s: State, t: nat)
    ensures At(s, t) == Idle && s.processLock == None ==>
              Do(s, t, LockForCancel) == Go(s.(processLock := Some(t)), t, CancelLocked)
    ensures At(s, t) == CancelLocked ==>
              && Do(s, t, OpenCancel) == (if Terminal(s.status) then s else Go(s, t, CancelOpen))
              && Do(s, t, RefuseCancel) == (if Terminal(s.status) then Go(s.(processLock := None), t, Idle) else s)
  {
    hide Terminal;
  }

  lemma RaisedSteps(s: State, t: nat)
    ensures Do(s, t, RaiseFlag) == if At(s, t) == CancelOpen then Go(s.(flag := true), t, Flagged) else s
    ensures At(s, t) == Flagged ==> Do(s, t, Withdraw) == Go(s.(result := false), t, Withdrawn)
    ensures At(s, t) == Withdrawn ==>
              Do(s, t, TakeSnapshot) ==
              Go(s.(snapshots := s.snapshots + {s.registered}, processLock := None), t, Accepted)
  {
  }

  lemma SpawnSteps(s: State, t: nat, c: nat)
    ensures At(s, t) == Idle && s.processLock == None ==>
              Do(s, t, LockForSpawn) == Go(s.(processLock := Some(t)), t, SpawnLocked)
    ensures At(s, t) == SpawnLocked ==> Do(s, t, ClearSpawn) == if s.flag then s else Go(s, t, SpawnCleared)
    ensures Do(s, t, Spawn(c)) ==
            if At(s, t) == SpawnCleared && c !in s.spawned then
              Go(s.(live := s.live + {c}, spawned := s.spawned + {c}), t, Spawned(c))
            else s
    ensures Do(s, t, Register) ==
            if At(s, t).Spawned? then Go(s.(registered := s.registered + {At(s, t).child}), t, Registered(At(s, t).child))
            else s
    ensures Do(s, t, FinishSpawn) ==
            if At(s, t).Registered? then Go(s.(processLock := None), t, Running(At(s, t).child)) else s
    ensures Do(s, t, ChildExits(c)) == s.(live := s.live - {c})
    ensures At(s, t) == Running(c) && c !in s.live && s.processLock == None ==>
              Do(s, t, Unregister) == Go(s.(registered := s.registered - {c}), t, Idle)
  {
  }

  // ---- what they come to -----------------------------------------------------------------------------------

  /** The status a request comes to: a raised flag or a running cancellation turns it into Cancelled. */
  function Outcome(s: State, wanted: Status): Status
  {
    if (s.flag || wanted == Cancelling || s.status == Cancelling) && wanted != Cancelling && wanted != Cancelled then
      Cancelled
    else wanted
  }

  /** Only t has moved on. */
  ghost predicate OnlyMoved(s: State, after: State, t: nat, l: Local)
  {
    At(after, t) == l && forall u: nat :: u != t ==> At(after, u) == At(s, u)
  }

  /** A change of status asked for by a thread that may ask for it, to a status the present one leads to, happens. */
  lemma MoveHappens(s: State, t: nat, origin: Origin, wanted: Status)
    requires s.manifestLock == None && Origins(At(s, t)) == Some(origin) && MayAsk(origin, wanted)
    requires StoreProgress.Leads(s.status, Outcome(s, wanted))
    ensures var after := Acts(s, t, [BeginMove(wanted), Decide, Commit]);
            && after == s.(status := Outcome(s, wanted), flag := s.flag || wanted == Cancelling, threads := after.threads)
            && OnlyMoved(s, after, t, After(origin))
  {
    hide StoreProgress.Leads, Acts, Do, MayAsk, Origins, After, Outcome;
    ActsThree(s, t, BeginMove(wanted), Decide, Commit);
    MoveSteps(s, t, origin, wanted);
    DecisionIsMade(Do(s, t, BeginMove(wanted)), t, origin, wanted);
    SameOutcome(s, t, origin, wanted);
    CommitEnds(s, t, origin, wanted, Outcome(s, wanted), s.flag || wanted == Cancelling);
  }

  /** Any other is refused; a request to cancel has raised the flag all the same, unless the run has ended. */
  lemma MoveIsRefused(s: State, t: nat, origin: Origin, wanted: Status)
    requires s.manifestLock == None && Origins(At(s, t)) == Some(origin) && MayAsk(origin, wanted)
    requires !StoreProgress.Leads(s.status, Outcome(s, wanted))
    ensures var after := Acts(s, t, [BeginMove(wanted), Decide, Commit]);
            && after == s.(flag := s.flag || (wanted == Cancelling && s.status !in StoreProgress.ENDS),
                           threads := after.threads)
            && OnlyMoved(s, after, t, After(origin))
  {
    hide StoreProgress.Leads, StoreProgress.ENDS, Acts, Do, MayAsk, Origins, After, Outcome;
    ActsThree(s, t, BeginMove(wanted), Decide, Commit);
    MoveSteps(s, t, origin, wanted);
    DecisionIsMade(Do(s, t, BeginMove(wanted)), t, origin, wanted);
    SameOutcome(s, t, origin, wanted);
    GivesUp(s, t, origin, wanted, s.flag || (wanted == Cancelling && s.status !in StoreProgress.ENDS));
  }

  lemma SameOutcome(s: State, t: nat, origin: Origin, wanted: Status)
    ensures Outcome(Go(s.(manifestLock := Some(t)), t, Moving(wanted, origin)), wanted) == Outcome(s, wanted)
  {
  }

  lemma CommitEnds(s: State, t: nat, origin: Origin, wanted: Status, to: Status, flag: bool)
    ensures var begun := Go(s.(manifestLock := Some(t)), t, Moving(wanted, origin));
            var after := Do(Go(begun.(flag := flag), t, Decided(to, origin)), t, Commit);
            && after == s.(status := to, flag := flag, manifestLock := None, threads := after.threads)
            && OnlyMoved(s, after, t, After(origin))
  {
    hide Do, After;
    var begun := Go(s.(manifestLock := Some(t)), t, Moving(wanted, origin));
    MoveSteps(Go(begun.(flag := flag), t, Decided(to, origin)), t, origin, to);
  }

  lemma GivesUp(s: State, t: nat, origin: Origin, wanted: Status, flag: bool)
    ensures var begun := Go(s.(manifestLock := Some(t)), t, Moving(wanted, origin));
            var after := Do(Go(begun.(flag := flag, manifestLock := None), t, After(origin)), t, Commit);
            && after == s.(flag := flag, manifestLock := None, threads := after.threads)
            && OnlyMoved(s, after, t, After(origin))
  {
    hide Do;
    var begun := Go(s.(manifestLock := Some(t)), t, Moving(wanted, origin));
    MoveSteps(Go(begun.(flag := flag, manifestLock := None), t, After(origin)), t, origin, wanted);
  }

  lemma DecisionIsMade(s: State, t: nat, origin: Origin, wanted: Status)
    requires At(s, t) == Moving(wanted, origin)
    ensures Do(s, t, Decide) ==
            if StoreProgress.Leads(s.status, Outcome(s, wanted)) then
              Go(s.(flag := s.flag || wanted == Cancelling), t, Decided(Outcome(s, wanted), origin))
            else
              Go(s.(flag := s.flag || (wanted == Cancelling && s.status !in StoreProgress.ENDS), manifestLock := None), t,
                 After(origin))
  {
    StoreProgress.LeadsOn(s.status, Outcome(s, wanted));
    hide StoreProgress.Leads, StoreProgress.ENDS, TransitionAllowed, Terminal;
    assert StoreJournal.Effective(s.flag || wanted.Cancelling?, s.status, wanted) == Outcome(s, wanted);
  }

  /** A finaliser that nothing disturbs publishes its result and ends a merging run with it. */
  lemma FinaliserFinishes(s: State, t: nat, wanted: Status)
    requires Free(s, t) && !s.flag && s.status == Merging && (wanted == Completed || wanted == Degraded)
    ensures var moves := [BeginMove(wanted), Decide, Commit];
            var after := Acts(s, t, [LockForFinal, ClearFinal, Publish] + moves + [FinishFinal]);
            && after == s.(status := wanted, result := true, threads := after.threads) && At(after, t) == Idle
  {
    var first, second: seq<Action> := [LockForFinal, ClearFinal, Publish], [BeginMove(wanted), Decide, Commit];
    hide Acts, Do;
    ActsBoth(s, t, first + second, [FinishFinal]);
    ActsBoth(s, t, first, second);
    ActsThree(s, t, LockForFinal, ClearFinal, Publish);
    FinalSteps(s, t);
    FinalSteps(Do(s, t, LockForFinal), t);
    FinalSteps(Do(Do(s, t, LockForFinal), t, ClearFinal), t);
    var published := Acts(s, t, first);
    assert published == s.(processLock := Some(t), result := true, threads := published.threads);
    assert At(published, t) == Published;
    StoreProgress.EdgesOut(Merging, wanted);
    assert StoreProgress.Leads(published.status, Outcome(published, wanted));
    MoveHappens(published, t, Finalizer, wanted);
    var concluded := Acts(published, t, second);
    ActsOne(concluded, t, FinishFinal);
    FinalSteps(concluded, t);
  }

  /** Once the flag is up, a finaliser is refused: whatever it goes on to do under the lock, nothing is published. */
  lemma FinaliserIsRefused(s: State, t: nat)
    requires Free(s, t) && s.flag
    ensures var after := Acts(s, t, [LockForFinal, ClearFinal, Publish]);
            after == s.(processLock := Some(t), threads := after.threads) && At(after, t) == FinalLocked
    ensures var after := Acts(s, t, [LockForFinal, RefuseFinal]);
            after == s.(threads := after.threads) && At(after, t) == Idle
  {
    hide Acts, Do;
    ActsThree(s, t, LockForFinal, ClearFinal, Publish);
    ActsTwo(s, t, LockForFinal, RefuseFinal);
    FinalSteps(s, t);
    FinalSteps(Do(s, t, LockForFinal), t);
  }

  /** A cancel request for a run that has not ended raises the flag, withdraws a published result, takes a snapshot of the
      registered children, and moves the run to Cancelling and then to Cancelled. */
  lemma CancelSucceeds(s: State, t: nat)
    requires Free(s, t) && s.status !in StoreProgress.ENDS
    ensures var asked := Acts(s, t, [LockForCancel, OpenCancel, RaiseFlag] + [Withdraw, TakeSnapshot]);
            var after := Acts(asked, t, [BeginMove(Cancelling), Decide, Commit]);
            var ended := Acts(after, t, [BeginMove(Cancelled), Decide, Commit]);
            && asked == s.(flag := true, result := false, snapshots := s.snapshots + {s.registered},
                           threads := asked.threads)
            && after == asked.(status := Cancelling, threads := after.threads)
            && ended == after.(status := Cancelled, threads := ended.threads)
  {
    hide Acts, Do, Terminal;
    ActsBoth(s, t, [LockForCancel, OpenCancel, RaiseFlag], [Withdraw, TakeSnapshot]);
    ActsThree(s, t, LockForCancel, OpenCancel, RaiseFlag);
    StoreProgress.EndsAndStops(s.status);
    CancelSteps(s, t);
    CancelSteps(Do(s, t, LockForCancel), t);
    RaisedSteps(Do(Do(s, t, LockForCancel), t, OpenCancel), t);
    var raised := Acts(s, t, [LockForCancel, OpenCancel, RaiseFlag]);
    assert raised == s.(processLock := Some(t), flag := true, threads := raised.threads) && At(raised, t) == Flagged;
    ActsTwo(raised, t, Withdraw, TakeSnapshot);
    RaisedSteps(raised, t);
    RaisedSteps(Do(raised, t, Withdraw), t);
    var asked := Acts(raised, t, [Withdraw, TakeSnapshot]);
    assert asked == s.(flag := true, result := false, snapshots := s.snapshots + {s.registered}, threads := asked.threads);
    assert At(asked, t) == Accepted;
    MovesToCancelled(asked, t);
  }

  lemma MovesToCancelled(s: State, t: nat)
    requires s.manifestLock == None && At(s, t) == Accepted && s.flag && s.status !in StoreProgress.ENDS
    ensures var after := Acts(s, t, [BeginMove(Cancelling), Decide, Commit]);
            var ended := Acts(after, t, [BeginMove(Cancelled), Decide, Commit]);
            && after == s.(status := Cancelling, threads := after.threads)
            && ended == after.(status := Cancelled, threads := ended.threads)
  {
    StoreProgress.EndsAndStops(Cancelling);
    StoreProgress.EndsAndStops(Cancelled);
    assert Origins(At(s, t)) == Some(Canceller) && MayAsk(Canceller, Cancelling) && MayAsk(Canceller, Cancelled);
    assert After(Canceller) == Accepted && Outcome(s, Cancelling) == Cancelling;
    assert StoreProgress.Leads(s.status, Cancelling) && StoreProgress.Leads(Cancelling, Cancelled);
    hide Acts, StoreProgress.Leads;
    MoveHappens(s, t, Canceller, Cancelling);
    var after := Acts(s, t, [BeginMove(Cancelling), Decide, Commit]);
    MoveHappens(after, t, Canceller, Cancelled);
  }

  /** A cancel request for a run that has ended is refused, and changes nothing whatever it goes on to do. */
  lemma CancelIsRefused(s: State, t: nat)
    requires Free(s, t) && s.status in StoreProgress.ENDS
    ensures var after := Acts(s, t, [LockForCancel, OpenCancel, RaiseFlag]);
            after == s.(processLock := Some(t), threads := after.threads)
    ensures var after := Acts(s, t, [LockForCancel, RefuseCancel]);
            after == s.(threads := after.threads) && At(after, t) == Idle
  {
    hide Acts, Do, Terminal;
    StoreProgress.EndsAndStops(s.status);
    ActsThree(s, t, LockForCancel, OpenCancel, RaiseFlag);
    ActsTwo(s, t, LockForCancel, RefuseCancel);
    CancelSteps(s, t);
    CancelSteps(Do(s, t, LockForCancel), t);
    RaisedSteps(Do(s, t, LockForCancel), t);
  }

  /** A lane starts a new child exactly while no cancellation is requested; the child is registered before the lock is
      free again, and unregistered once it has exited. */
  lemma SpawnRegisters(s: State, t: nat, child: nat)
    requires Free(s, t) && child !in s.spawned
    ensures var begun := Acts(s, t, [LockForSpawn, ClearSpawn, Spawn(child)] + [Register, FinishSpawn]);
            if s.flag then begun == s.(processLock := Some(t), threads := begun.threads)
            else
              && begun == s.(live := s.live + {child}, spawned := s.spawned + {child},
                             registered := s.registered + {child}, threads := begun.threads)
              && At(begun, t) == Running(child)
              && var done := Acts(begun, t, [ChildExits(child), Unregister]);
                 && done == begun.(live := begun.live - {child}, registered := begun.registered - {child},
                                   threads := done.threads)
                 && At(done, t) == Idle
  {
    hide Acts, Do;
    ActsBoth(s, t, [LockForSpawn, ClearSpawn, Spawn(child)], [Register, FinishSpawn]);
    ActsThree(s, t, LockForSpawn, ClearSpawn, Spawn(child));
    SpawnSteps(s, t, child);
    SpawnSteps(Do(s, t, LockForSpawn), t, child);
    SpawnSteps(Do(Do(s, t, LockForSpawn), t, ClearSpawn), t, child);
    var started := Acts(s, t, [LockForSpawn, ClearSpawn, Spawn(child)]);
    ActsTwo(started, t, Register, FinishSpawn);
    SpawnSteps(started, t, child);
    SpawnSteps(Do(started, t, Register), t, child);
    var begun := Acts(started, t, [Register, FinishSpawn]);
    ActsTwo(begun, t, ChildExits(child), Unregister);
    SpawnSteps(begun, t, child);
    SpawnSteps(Do(begun, t, ChildExits(child)), t, child);
  }
}
