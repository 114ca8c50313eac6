/** The counting semaphore of the seat calls: a count under a mutex, and a condition variable. */
module CountingGate {
  /** Who holds a slot, who sleeps on the condition variable, who was woken and has yet to retake the mutex, and who
      has given its slot back and is about to notify. */
  datatype Gate = Gate(
    limit: nat, held: nat, holding: set<nat>, asleep: set<nat>, woken: set<nat>, notifying: set<nat>)

  function New(limit: nat): Gate
  {
    Gate(if limit >= 1 then limit else 1, 0, {}, {}, {}, {})
  }

  predicate Outside(g: Gate, t: nat)
  {
    t !in g.holding && t !in g.asleep && t !in g.woken && t !in g.notifying
  }

  /** Everything that can happen to the gate, each step under the mutex but for the notification itself. */
  datatype Step =
    | Arrive(t: nat)               // a newcomer takes the mutex, overtaking whoever was woken
    | Retry(t: nat)                // a woken thread retakes the mutex and looks again
    | Spurious(t: nat)             // a sleeper wakes for no reason
    | Release(t: nat)              // a holder lowers the count and lets go of the mutex
    | Notify(t: nat, wakes: nat)   // ... and then notifies one sleeper, if there is one

  function TakeOrSleep(g: Gate, t: nat): Gate
  {
    if g.held >= g.limit then g.(asleep := g.asleep + {t})
    else g.(held := g.held + 1, holding := g.holding + {t})
  }

  function Do(g: Gate, s: Step): Gate
  {
    match s
    case Arrive(t) => if Outside(g, t) then TakeOrSleep(g, t) else g
    case Retry(t) => if t in g.woken then TakeOrSleep(g.(woken := g.woken - {t}), t) else g
    case Spurious(t) => if t in g.asleep then g.(asleep := g.asleep - {t}, woken := g.woken + {t}) else g
    case Release(t) =>
      if t in g.holding then
        g.(held := if g.held > 0 then g.held - 1 else 0, holding := g.holding - {t}, notifying := g.notifying + {t})
      else g
    case Notify(t, u) =>
      if t !in g.notifying then g
      else if g.asleep == {} then g.(notifying := g.notifying - {t})
      else if u in g.asleep then
        g.(notifying := g.notifying - {t}, asleep := g.asleep - {u}, woken := g.woken + {u})
      else g
  }

  function Run(limit: nat, steps: seq<Step>): Gate
  {
    if steps == [] then New(limit) else Do(Run(limit, steps[..|steps| - 1]), steps[|steps| - 1])
  }

  // ---- the code, critical section by critical section -----------------------------------------

  class SharedGate {
    const limit: nat
    var held: nat
    ghost var holding: set<nat>
    ghost var asleep: set<nat>
    ghost var woken: set<nat>
    ghost var notifying: set<nat>

    ghost function State(): Gate
      reads this
    {
      Gate(limit, held, holding, asleep, woken, notifying)
    }

    constructor (limit: nat)
      ensures State() == New(limit)
    {
      this.limit := if limit >= 1 then limit else 1;
      held := 0;
      holding, asleep, woken, notifying := {}, {}, {}, {};
    }

    /** One pass of the acquiring loop, from taking the mutex to holding a slot or falling asleep. */
    method TryAcquire(ghost t: nat) returns (acquired: bool)
      requires Outside(State(), t) || t in woken
      modifies this
      ensures State() == Do(old(State()), if t in old(woken) then Retry(t) else Arrive(t))
      ensures acquired <==> old(held) < limit
    {
      woken := woken - {t};
      if held >= limit {
        asleep := asleep + {t};
        return false;
      }
      held := held + 1;
      holding := holding + {t};
      return true;
    }

    method Release(ghost t: nat)
      requires t in holding
      modifies this
      ensures State() == Do(old(State()), Step.Release(t))
    {
      held := if held > 0 then held - 1 else 0;
      holding := holding - {t};
      notifying := notifying + {t};
    }
  }

  // ---- every interleaving ------------------------------------------------------------------------

  ghost predicate Apart(g: Gate)
  {
    && g.holding !! g.asleep && g.holding !! g.woken && g.holding !! g.notifying
    && g.asleep !! g.woken && g.asleep !! g.notifying && g.woken !! g.notifying
  }

  /** The count is the number of holders and within the limit; nobody is in two places; and while anyone sleeps, slots
      taken, wakeups delivered and notifications under way together cover the limit. */
  ghost predicate Inv(g: Gate)
  {
    && g.limit >= 1
    && g.held == |g.holding| && g.held <= g.limit
    && Apart(g)
    && (g.asleep != {} ==> g.held + |g.woken| + |g.notifying| >= g.limit)
  }

  lemma Removed(s: set<nat>, t: nat)
    requires t in s
    ensures |s - {t}| == |s| - 1
  {
  }

  lemma Added(s: set<nat>, t: nat)
    requires t !in s
    ensures |s + {t}| == |s| + 1
  {
  }

  /** Looking at the count: with a slot free the thread takes it, otherwise the limit is covered and it may sleep. */
  lemma TakeOrSleepKeeps(g: Gate, t: nat)
    requires g.limit >= 1 && g.held == |g.holding| && g.held <= g.limit && Apart(g) && Outside(g, t)
    requires g.asleep != {} ==> g.held + 1 + |g.woken| + |g.notifying| >= g.limit
    ensures Inv(TakeOrSleep(g, t))
  {
    Added(g.holding, t);
  }

  lemma RetryKeeps(g: Gate, t: nat)
    requires Inv(g) && t in g.woken
    ensures Inv(Do(g, Retry(t)))
  {
    Removed(g.woken, t);
    TakeOrSleepKeeps(g.(woken := g.woken - {t}), t);
  }

  lemma SpuriousKeeps(g: Gate, t: nat)
    requires Inv(g) && t in g.asleep
    ensures Inv(Do(g, Spurious(t)))
  {
    Added(g.woken, t);
  }

  lemma ReleaseKeeps(g: Gate, t: nat)
    requires Inv(g) && t in g.holding
    ensures Inv(Do(g, Release(t)))
  {
    Removed(g.holding, t);
    Added(g.notifying, t);
  }

  lemma NotifyKeeps(g: Gate, t: nat, u: nat)
    requires Inv(g) && t in g.notifying
    ensures Inv(Do(g, Notify(t, u)))
  {
    Removed(g.notifying, t);
    if u in g.asleep {
      Added(g.woken, u);
    }
  }

  lemma StepKeeps(g: Gate, s: Step)
    requires Inv(g)
    ensures Inv(Do(g, s))
  {
    match s {
      case Arrive(t) => if Outside(g, t) { TakeOrSleepKeeps(g, t); }
      case Retry(t) => if t in g.woken { RetryKeeps(g, t); }
      case Spurious(t) => if t in g.asleep { SpuriousKeeps(g, t); }
      case Release(t) => if t in g.holding { ReleaseKeeps(g, t); }
      case Notify(t, u) => if t in g.notifying { NotifyKeeps(g, t, u); }
    }
  }

  lemma {:induction false} EveryInterleavingHolds(limit: nat, steps: seq<Step>)
    ensures Inv(Run(limit, steps))
    decreases |steps|
  {
    if steps != [] {
      EveryInterleavingHolds(limit, steps[..|steps| - 1]);
      StepKeeps(Run(limit, steps[..|steps| - 1]), steps[|steps| - 1]);
    }
  }

  lemma {:induction false} LimitStays(limit: nat, steps: seq<Step>)
    ensures Run(limit, steps).limit == if limit >= 1 then limit else 1
    decreases |steps|
  {
    if steps != [] {
      LimitStays(limit, steps[..|steps| - 1]);
    }
  }

  /** In every interleaving, spurious wakeups and overtaking newcomers included, at most the limit hold a slot. */
  lemma HoldersWithinLimit(limit: nat, steps: seq<Step>)
    ensures var g := Run(limit, steps);
            |g.holding| == g.held <= (if limit >= 1 then limit else 1)
  {
    EveryInterleavingHolds(limit, steps);
    LimitStays(limit, steps);
  }

  /** No wakeup is lost: while anyone sleeps, the slots held, the threads woken and the notifications to come make up
      the limit. So a sleeper beside a free slot means that some thread was woken or is about to notify, and when all is
      quiet either nobody sleeps or every slot is taken. */
  lemma NoLostWakeup(limit: nat, steps: seq<Step>)
    ensures var g := Run(limit, steps);
            && (g.asleep != {} ==> g.held + |g.woken| + |g.notifying| >= g.limit)
            && (g.asleep != {} && g.held < g.limit ==> g.woken != {} || g.notifying != {})
            && (g.woken == {} && g.notifying == {} ==> g.asleep == {} || g.held == g.limit)
  {
    EveryInterleavingHolds(limit, steps);
  }

  /** Corollary of the invariant: a woken thread that finds a slot free takes it; so a wakeup that is delivered is
      either used or answered by someone else's holding the slot. */
  lemma WakeupIsUsed(limit: nat, steps: seq<Step>, t: nat)
    requires t in Run(limit, steps).woken
    ensures var g := Run(limit, steps);
            var after := Do(g, Retry(t));
            if g.held < g.limit then t in after.holding else t in after.asleep && after.held == after.limit
  {
    EveryInterleavingHolds(limit, steps);
  }

  /** A slot given back while someone sleeps is handed over: the sleeper that is notified and looks again holds it, and
      the count is as before. */
  lemma SlotIsHandedOver(limit: nat, steps: seq<Step>, t: nat, u: nat)
    requires t in Run(limit, steps).holding && u in Run(limit, steps).asleep
    ensures var g := Run(limit, steps);
            var after := Do(Do(Do(g, Release(t)), Notify(t, u)), Retry(u));
            && after.holding == g.holding - {t} + {u} && after.held == g.held
            && after.asleep == g.asleep - {u} && after.woken == g.woken && after.notifying == g.notifying
  {
    EveryInterleavingHolds(limit, steps);
    var g := Run(limit, steps);
    assert g.held > 0;
    ReleaseKeeps(g, t);
    assert u in Do(g, Release(t)).asleep && u !in Do(g, Release(t)).woken;
  }
}
