/** Advancing a finance run: recover, check the manifest against its ledger, and journal the next transitions. */
module FinanceLifecycle {
  import opened Base
  import opened FinanceModel
  import opened FinanceLedger
  import opened FinanceReplay
  import opened FinanceJournal

  /** What advancing finds outside the journal: the artifact graph, the first round, the finaliser's manifest. */
  datatype Work = Work(
    graphOk: Manifest -> bool,
    r1: Option<FirstRound>,
    terminal: Option<Manifest>,
    bundleOk: bool)

  datatype FirstRound = FirstRound(outputs: seq<Binding>, packets: seq<Binding>)

  /** The manifest passes its own rules, and the ledger is the one it determines. */
  predicate GraphOk(env: Env, work: Work, m: Manifest, ledger: string)
  {
    && env.manifestSchema(m) && ValidTermination(m) && ValidCounts(m) && work.graphOk(m)
    && ExpectedSpec(env, m) == Ok(Replay(ledger, m.checkpoint))
  }

  function MergingFrom(m: Manifest, t: Manifest): Manifest
  {
    var p := Prefixed(t);
    m.(policy := p.policy, invocation := p.invocation, r1Packets := p.r1Packets, r2Packets := p.r2Packets,
       r1Outputs := p.r1Outputs, r2Outputs := p.r2Outputs, arbiterOutputs := p.arbiterOutputs,
       result := None, genesis := t.genesis, status := Merging)
  }

  /** The manifests to move to next; none of the other statuses can be advanced. */
  function NextTargets(m: Manifest, work: Work): Result<seq<Manifest>>
  {
    match m.status
    case R1Running =>
      if work.r1.None? then Err
      else Ok([m.(r1Outputs := work.r1.value.outputs, r2Packets := work.r1.value.packets, status := R2Running)])
    case R2Running =>
      if work.terminal.None? then Err
      else
        var merging := MergingFrom(m, work.terminal.value);
        Ok([merging, merging.(result := Prefixed(work.terminal.value).result, status := Completed)])
    case Completed => if work.bundleOk then Ok([]) else Err
    case Degraded => if work.bundleOk then Ok([]) else Err
    case _ => Err
  }

  /** The files, the outcome so far, and the durable writes that may still complete. */
  datatype After = After(disk: Disk, outcome: Outcome, left: nat)

  function RunPlan(d: Disk, plan: Result<seq<Write>>, budget: nat, cut: nat): After
  {
    match plan
    case Err => After(d, Refused, budget)
    case Ok(ws) =>
      After(Persist(d, ws, budget, cut), if budget < |ws| then Crashed else Done, if budget < |ws| then 0 else budget - |ws|)
  }

  function RunTargets(env: Env, d: Disk, targets: seq<Manifest>, budget: nat, cut: nat): After
    decreases |targets|
  {
    if targets == [] then After(d, Done, budget)
    else
      var first := RunPlan(d, TransitionPlan(env, d, targets[0]), budget, cut);
      if first.outcome.Done? then RunTargets(env, first.disk, targets[1..], first.left, cut) else first
  }

  function Checked(env: Env, d: Disk, work: Work): Result<seq<Manifest>>
  {
    if d.manifest.None? then Err
    else match env.parseManifest(d.manifest.value)
      case None => Err
      case Some(m) => if GraphOk(env, work, m, d.ledger) then NextTargets(m, work) else Err
  }

  function AdvanceSpec(env: Env, d: Disk, work: Work, budget: nat, cut: nat): After
  {
    GoOn(env, RunPlan(d, RecoveryPlan(env, d), budget, cut), work, cut)
  }

  function GoOn(env: Env, recovered: After, work: Work, cut: nat): After
  {
    if !recovered.outcome.Done? then recovered
    else match Checked(env, recovered.disk, work)
      case Err => After(recovered.disk, Refused, recovered.left)
      case Ok(targets) => RunTargets(env, recovered.disk, targets, recovered.left, cut)
  }

  method DormantAdvance(state: FinanceState, work: Work, budget: nat, cut: nat) returns (r: Outcome)
    modifies state
    ensures var after := AdvanceSpec(state.env, old(state.Files()), work, budget, cut);
            state.Files() == after.disk && r == after.outcome
  {
    var left: nat;
    r, left := Recover(state, budget, cut);
    if !r.Done? {
      return;
    }
    var targets := CheckManifest(state, work);
    if targets.Err? {
      return Refused;
    }
    r := TransitionAll(state, targets.value, left, cut);
  }

  method Recover(state: FinanceState, budget: nat, cut: nat) returns (r: Outcome, left: nat)
    modifies state
    ensures After(state.Files(), r, left) == RunPlan(old(state.Files()), RecoveryPlan(state.env, old(state.Files())), budget, cut)
  {
    var plan := RecoveryPlan(state.env, Disk(state.manifest, state.ledger, state.pending));
    r := state.ReconcilePending(budget, cut);
    left := if plan.Err? then budget else if budget < |plan.value| then 0 else budget - |plan.value|;
  }

  /** Load the manifest, check its graph and its ledger, and see where it may go. */
  method CheckManifest(state: FinanceState, work: Work) returns (targets: Result<seq<Manifest>>)
    ensures targets == Checked(state.env, state.Files(), work)
  {
    if state.manifest.None? {
      return Err;
    }
    var parsed := state.env.parseManifest(state.manifest.value);
    if parsed.None? {
      return Err;
    }
    var m := parsed.value;
    var expected := ExpectedEventLedger(state.env, m);
    if !state.env.manifestSchema(m) || !ValidTermination(m) || !ValidCounts(m) || !work.graphOk(m)
       || expected != Ok(Replay(state.ledger, m.checkpoint)) {
      return Err;
    }
    return NextTargets(m, work);
  }

  method TransitionAll(state: FinanceState, targets: seq<Manifest>, budget: nat, cut: nat) returns (r: Outcome)
    modifies state
    ensures var after := RunTargets(state.env, old(state.Files()), targets, budget, cut);
            state.Files() == after.disk && r == after.outcome
  {
    var rest, left := targets, budget;
    ghost var whole := RunTargets(state.env, state.Files(), targets, budget, cut);
    while rest != []
      invariant RunTargets(state.env, state.Files(), rest, left, cut) == whole
      decreases |rest|
    {
      TargetsStep(state.env, state.Files(), rest, left, cut);
      r, left := TransitionOnce(state, rest[0], left, cut);
      if !r.Done? {
        return;
      }
      rest := rest[1..];
    }
    return Done;
  }

  method TransitionOnce(state: FinanceState, target: Manifest, budget: nat, cut: nat) returns (r: Outcome, left: nat)
    modifies state
    ensures After(state.Files(), r, left) ==
            RunPlan(old(state.Files()), TransitionPlan(state.env, old(state.Files()), target), budget, cut)
  {
    FourWrites(state.env, state.Files(), target);
    r := state.TransitionWithPending(target, budget, cut);
    left := if r.Refused? then budget else if budget < 4 then 0 else budget - 4;
  }

  lemma TargetsStep(env: Env, d: Disk, targets: seq<Manifest>, budget: nat, cut: nat)
    requires targets != []
    ensures var first := RunPlan(d, TransitionPlan(env, d, targets[0]), budget, cut);
            RunTargets(env, d, targets, budget, cut) ==
            if first.outcome.Done? then RunTargets(env, first.disk, targets[1..], first.left, cut) else first
  {
  }

  lemma FourWrites(env: Env, d: Disk, target: Manifest)
    ensures TransitionPlan(env, d, target).Ok? ==> |TransitionPlan(env, d, target).value| == 4
  {
  }

  // ---- what advancing keeps ---------------------------------------------------------------

  lemma ConsistentSteps(env: Env, d: Disk, op: Op)
    requires env.Faithful() && Consistent(env, d)
    ensures Consistent(env, Perform(env, d, op))
  {
    if run :| Settled(env, d, run) {
      SettledSteps(env, d, run, op);
    } else {
      var run, target, s :| InFlight(env, d, run, target, s);
      InFlightSteps(env, d, run, target, s, op);
    }
  }

  lemma {:induction false} TargetsKeep(env: Env, d: Disk, targets: seq<Manifest>, budget: nat, cut: nat)
    requires env.Faithful() && Consistent(env, d)
    ensures Consistent(env, RunTargets(env, d, targets, budget, cut).disk)
    decreases |targets|
  {
    if targets != [] {
      ConsistentSteps(env, d, Begin(targets[0], budget, cut));
      var first := RunPlan(d, TransitionPlan(env, d, targets[0]), budget, cut);
      assert first.disk == Perform(env, d, Begin(targets[0], budget, cut));
      if first.outcome.Done? {
        TargetsKeep(env, first.disk, targets[1..], first.left, cut);
      }
    }
  }

  /** Advancing, wherever it loses power, leaves a committed run or one with a single interrupted transition. */
  lemma AdvanceKeeps(env: Env, d: Disk, work: Work, budget: nat, cut: nat)
    requires env.Faithful() && Consistent(env, d)
    ensures Consistent(env, AdvanceSpec(env, d, work, budget, cut).disk)
  {
    ConsistentSteps(env, d, Reconcile(budget, cut));
    var recovered := RunPlan(d, RecoveryPlan(env, d), budget, cut);
    assert recovered.disk == Perform(env, d, Reconcile(budget, cut));
    if recovered.outcome.Done? && Checked(env, recovered.disk, work).Ok? {
      TargetsKeep(env, recovered.disk, Checked(env, recovered.disk, work).value, recovered.left, cut);
    }
  }

  lemma NothingRecovered(env: Env, d: Disk, budget: nat, cut: nat)
    requires d.pending.None?
    ensures RunPlan(d, RecoveryPlan(env, d), budget, cut) == After(d, Done, budget)
  {
  }

  lemma NothingPending(env: Env, d: Disk, work: Work, budget: nat, cut: nat)
    requires d.pending.None?
    ensures AdvanceSpec(env, d, work, budget, cut) == GoOn(env, After(d, Done, budget), work, cut)
  {
    NothingRecovered(env, d, budget, cut);
  }

  lemma SettledChecks(env: Env, d: Disk, run: seq<Manifest>, work: Work)
    requires env.Faithful() && Settled(env, d, run)
    ensures d.pending.None?
    ensures Checked(env, d, work) ==
            match LastManifest(env, run)
            case None => Err
            case Some(m) => if GraphOk(env, work, m, d.ledger) then NextTargets(m, work) else Err
  {
    if LastManifest(env, run).Some? {
      assert env.parseManifest(env.manifestBytes(LastManifest(env, run).value)) == LastManifest(env, run);
    }
  }

  /** A settled run whose last manifest is neither running nor successfully finished is refused and not touched. */
  lemma NothingToAdvance(env: Env, d: Disk, run: seq<Manifest>, work: Work, budget: nat, cut: nat)
    requires env.Faithful() && Settled(env, d, run)
    requires LastManifest(env, run).None? || LastManifest(env, run).value.status in {Preflight, Merging, Failed, Cancelled}
    ensures AdvanceSpec(env, d, work, budget, cut).disk == d
    ensures AdvanceSpec(env, d, work, budget, cut).outcome == Refused
  {
    hide GraphOk, RecoveryPlan;
    SettledChecks(env, d, run, work);
    NothingPending(env, d, work, budget, cut);
  }

  // ---- power lost while a run is being finished --------------------------------------------------

  function CompletedFrom(m: Manifest, t: Manifest): Manifest
  {
    MergingFrom(m, t).(result := Prefixed(t).result, status := Completed)
  }

  /** The two manifests that finish a run in its second round. */
  function LastTwo(env: Env, run: seq<Manifest>, work: Work): (Manifest, Manifest)
    requires Execute(env, run).Ok? && LastManifest(env, run).Some? && work.terminal.Some?
  {
    (MergingFrom(LastManifest(env, run).value, work.terminal.value),
     CompletedFrom(LastManifest(env, run).value, work.terminal.value))
  }

  /** A settled run in its second round that advancing would finish, by two transitions. */
  ghost predicate Finishing(env: Env, d: Disk, run: seq<Manifest>, work: Work)
  {
    && env.Faithful() && Settled(env, d, run)
    && LastManifest(env, run).Some? && LastManifest(env, run).value.status == R2Running
    && work.terminal.Some? && GraphOk(env, work, LastManifest(env, run).value, d.ledger)
    && var (merging, completed) := LastTwo(env, run, work);
    && TransitionPlan(env, d, merging).Ok?
    && Committable(env, run + [merging])
    && TransitionPlan(env, DiskOf(env, run + [merging]), completed).Ok?
  }

  /** The bytes the interrupted append was writing. */
  function LineLength(env: Env, d: Disk, target: Manifest): nat
  {
    var plan := TransitionPlan(env, d, target);
    if plan.Ok? && |plan.value| == 4 && plan.value[1].Append? then |plan.value[1].text| else 0
  }

  /** What k completed writes leave of the next transition of a committed run. */
  ghost predicate CutLeaves(env: Env, run: seq<Manifest>, target: Manifest, k: nat, cut: nat, left: Disk)
    requires Execute(env, run).Ok?
  {
    if k == 0 then Settled(env, left, run)
    else if k >= 4 then Settled(env, left, run + [target])
    else InFlight(env, left, run, target, CrashStage(k, cut, LineLength(env, DiskOf(env, run), target)))
  }

  lemma PlanStops(d: Disk, ws: seq<Write>, k: nat, cut: nat)
    requires |ws| == 4
    ensures k < 4 ==> RunPlan(d, Ok(ws), k, cut) == After(Persist(d, ws, k, cut), Crashed, 0)
    ensures k >= 4 ==> RunPlan(d, Ok(ws), k, cut) == After(Persist(d, ws, 4, cut), Done, k - 4)
  {
    PersistFour(d, ws, k, cut);
    PersistFour(d, ws, 4, cut);
  }

  lemma OneTarget(env: Env, d: Disk, target: Manifest, ws: seq<Write>, budget: nat, cut: nat)
    requires TransitionPlan(env, d, target) == Ok(ws)
    ensures RunTargets(env, d, [target], budget, cut).disk == Persist(d, ws, budget, cut)
  {
    TargetsStep(env, d, [target], budget, cut);
    assert [target][1..] == [];
  }

  lemma FirstTarget(env: Env, d: Disk, targets: seq<Manifest>, ws: seq<Write>, k: nat, cut: nat)
    requires targets != [] && |ws| == 4 && TransitionPlan(env, d, targets[0]) == Ok(ws)
    ensures k < 4 ==> RunTargets(env, d, targets, k, cut).disk == Persist(d, ws, k, cut)
    ensures k >= 4 ==>
              RunTargets(env, d, targets, k, cut) == RunTargets(env, Persist(d, ws, 4, cut), targets[1..], k - 4, cut)
  {
    TargetsStep(env, d, targets, k, cut);
    PlanStops(d, ws, k, cut);
  }

  /** Two transitions spend their writes in order. */
  lemma TwoTargets(env: Env, d: Disk, first: Manifest, second: Manifest, ws: seq<Write>, ws2: seq<Write>,
                   k: nat, cut: nat)
    requires |ws| == 4 && TransitionPlan(env, d, first) == Ok(ws)
    requires TransitionPlan(env, Persist(d, ws, 4, cut), second) == Ok(ws2)
    ensures RunTargets(env, d, [first, second], k, cut).disk ==
            if k < 4 then Persist(d, ws, k, cut) else Persist(Persist(d, ws, 4, cut), ws2, k - 4, cut)
  {
    FirstTarget(env, d, [first, second], ws, k, cut);
    if k >= 4 {
      assert [first, second][1..] == [second];
      OneTarget(env, Persist(d, ws, 4, cut), second, ws2, k - 4, cut);
    }
  }

  lemma FirstCheck(env: Env, d: Disk, run: seq<Manifest>, work: Work, k: nat, cut: nat)
    requires Finishing(env, d, run, work)
    ensures var (merging, completed) := LastTwo(env, run, work);
            AdvanceSpec(env, d, work, k, cut) == RunTargets(env, d, [merging, completed], k, cut)
  {
    SettledChecks(env, d, run, work);
    NothingPending(env, d, work, k, cut);
  }

  lemma AdvanceWrites(env: Env, d: Disk, run: seq<Manifest>, work: Work, k: nat, cut: nat)
    requires Finishing(env, d, run, work)
    ensures var (merging, completed) := LastTwo(env, run, work);
            var second := DiskOf(env, run + [merging]);
            AdvanceSpec(env, d, work, k, cut).disk ==
            if k < 4 then Persist(d, TransitionPlan(env, d, merging).value, k, cut)
            else Persist(second, TransitionPlan(env, second, completed).value, k - 4, cut)
  {
    var (merging, completed) := LastTwo(env, run, work);
    var ws := TransitionPlan(env, d, merging).value;
    FirstCheck(env, d, run, work, k, cut);
    CrashLeaves(env, run, merging, ws, 4, cut);
    TwoTargets(env, d, merging, completed, ws, TransitionPlan(env, DiskOf(env, run + [merging]), completed).value, k, cut);
  }

  lemma FirstCut(env: Env, d: Disk, run: seq<Manifest>, work: Work, k: nat, cut: nat)
    requires Finishing(env, d, run, work) && k < 4
    ensures CutLeaves(env, run, LastTwo(env, run, work).0, k, cut, AdvanceSpec(env, d, work, k, cut).disk)
  {
    hide GraphOk, TransitionPlan, RecoveryPlan, AdvanceSpec, Execute, Persist, CutLeaves, DiskOf;
    AdvanceWrites(env, d, run, work, k, cut);
    var merging := LastTwo(env, run, work).0;
    CutShort(env, run, merging, TransitionPlan(env, d, merging).value, k, cut);
  }

  lemma SecondCut(env: Env, d: Disk, run: seq<Manifest>, work: Work, k: nat, cut: nat)
    requires Finishing(env, d, run, work) && k >= 4
    ensures CutLeaves(env, run + [LastTwo(env, run, work).0], LastTwo(env, run, work).1, k - 4, cut,
                      AdvanceSpec(env, d, work, k, cut).disk)
  {
    hide GraphOk, TransitionPlan, RecoveryPlan, AdvanceSpec, Execute, Persist, CutLeaves, DiskOf;
    AdvanceWrites(env, d, run, work, k, cut);
    var (merging, completed) := LastTwo(env, run, work);
    var ws := TransitionPlan(env, DiskOf(env, run + [merging]), completed).value;
    CutShort(env, run + [merging], completed, ws, k - 4, cut);
  }

  lemma AdvanceLeaves(env: Env, d: Disk, run: seq<Manifest>, work: Work, k: nat, cut: nat)
    requires Finishing(env, d, run, work)
    ensures var left := AdvanceSpec(env, d, work, k, cut).disk;
            var (merging, completed) := LastTwo(env, run, work);
            && (k < 4 ==> CutLeaves(env, run, merging, k, cut, left))
            && (k >= 4 ==> CutLeaves(env, run + [merging], completed, k - 4, cut, left))
  {
    hide GraphOk, TransitionPlan, RecoveryPlan, AdvanceSpec, CutLeaves;
    if k < 4 {
      FirstCut(env, d, run, work, k, cut);
    } else {
      SecondCut(env, d, run, work, k, cut);
    }
  }

  lemma CutShort(env: Env, run: seq<Manifest>, target: Manifest, ws: seq<Write>, k: nat, cut: nat)
    requires env.Faithful() && Committable(env, run) && TransitionPlan(env, DiskOf(env, run), target) == Ok(ws)
    ensures CutLeaves(env, run, target, k, cut, Persist(DiskOf(env, run), ws, k, cut))
  {
    CrashLeaves(env, run, target, ws, k, cut);
    FourWrites(env, DiskOf(env, run), target);
  }

  // ---- what advancing again makes of an interrupted transition ------------------------------------

  /** The manifest a transition is about to write has the digest of the different one it replaces. */
  ghost predicate Collides(env: Env, d: Disk, target: Manifest)
  {
    var plan := TransitionPlan(env, d, target);
    && plan.Ok? && |plan.value| == 4 && plan.value[2].PutManifest? && d.manifest.Some?
    && Collision(env.hash, d.manifest.value, plan.value[2].bytes)
  }

  ghost predicate Recoverable(env: Env, run: seq<Manifest>, target: Manifest, s: Stage)
    requires Execute(env, run).Ok?
  {
    && !s.Torn?
    && PhaseDeclared(LastManifest(env, run), target)
    && (Collides(env, DiskOf(env, run), target) ==> s == Appended)
  }

  lemma CollidesOnDisk(env: Env, run: seq<Manifest>, target: Manifest, p: Pending, e: Event, m: Manifest)
    requires env.Faithful() && Committable(env, run) && Record(env, run, target, p, e, m)
    ensures Collides(env, DiskOf(env, run), target) <==> DigestClash(env, run, m)
  {
    PlanReads(env, run, target);
  }

  lemma CannotRecover(env: Env, d: Disk, later: Work, budget: nat, cut: nat)
    requires RecoveryPlan(env, d).Err?
    ensures AdvanceSpec(env, d, later, budget, cut) == After(d, Refused, budget)
  {
  }

  /** Recovering an interrupted transition: refused, or committed, or interrupted once more. */
  lemma RecoversFlight(env: Env, d: Disk, run: seq<Manifest>, target: Manifest, p: Pending, e: Event, m: Manifest, s: Stage,
                       budget: nat, cut: nat)
    requires env.Faithful() && Committable(env, run) && Flight(env, d, run, target, p, e, m, s)
    ensures Recoverable(env, run, target, s) <==> RecoveryPlan(env, d).Ok?
    ensures Recoverable(env, run, target, s) ==>
              var recovered := RunPlan(d, RecoveryPlan(env, d), budget, cut);
              && (budget >= 3 ==> recovered.outcome.Done?)
              && (recovered.outcome.Done? ==> Settled(env, recovered.disk, run + [target]))
              && (!recovered.outcome.Done? ==>
                    InFlight(env, recovered.disk, run, target, StageAfter(s, budget, cut, |LineText(env, e)|)))
  {
    hide Execute, ValidatePending, RecoveryWrites, TransitionPlan;
    CollidesOnDisk(env, run, target, p, e, m);
    RecoveryIsExact(env, run, target, p, e, m, s);
    if Recoverable(env, run, target, s) {
      RecoveryLeaves(env, run, target, p, e, m, s, budget, cut);
    }
  }

  /** Advancing an interrupted transition again refuses it untouched, or first recovers it. */
  lemma RecoversFirst(env: Env, d: Disk, run: seq<Manifest>, target: Manifest, s: Stage, later: Work, budget: nat, cut: nat)
    requires env.Faithful() && InFlight(env, d, run, target, s)
    ensures Committable(env, run + [target])
    ensures LastManifest(env, run + [target]).Some? && LastManifest(env, run + [target]).value.status == target.status
    ensures !Recoverable(env, run, target, s) ==> AdvanceSpec(env, d, later, budget, cut) == After(d, Refused, budget)
    ensures Recoverable(env, run, target, s) ==>
              var recovered := RunPlan(d, RecoveryPlan(env, d), budget, cut);
              && (budget >= 3 ==> recovered.outcome.Done?)
              && (recovered.outcome.Done? ==> Settled(env, recovered.disk, run + [target]))
              && (!recovered.outcome.Done? ==> exists after :: InFlight(env, recovered.disk, run, target, after))
  {
    var p, e, m :| Flight(env, d, run, target, p, e, m, s);
    NextDisk(env, run, target, p, e, m);
    RecoversFlight(env, d, run, target, p, e, m, s, budget, cut);
    if !Recoverable(env, run, target, s) {
      CannotRecover(env, d, later, budget, cut);
    }
  }

  /** Once recovered, advancing goes on as if nothing had happened. */
  lemma OnceRecovered(env: Env, d: Disk, later: Work, budget: nat, cut: nat)
    ensures var recovered := RunPlan(d, RecoveryPlan(env, d), budget, cut);
            recovered.outcome.Done? && recovered.disk.pending.None? ==>
              AdvanceSpec(env, d, later, budget, cut) == AdvanceSpec(env, recovered.disk, later, recovered.left, cut)
  {
    var recovered := RunPlan(d, RecoveryPlan(env, d), budget, cut);
    if recovered.outcome.Done? && recovered.disk.pending.None? {
      NothingRecovered(env, recovered.disk, recovered.left, cut);
    }
  }

  /** What advancing makes of a settled run at Merging or Completed: only a completed one can pass its checks. */
  ghost function AtEnd(env: Env, work: Work, last: Option<Manifest>, d: Disk): Outcome
  {
    if && last.Some? && last.value.status == Completed
       && GraphOk(env, work, last.value, d.ledger) && work.bundleOk
    then Done else Refused
  }

  lemma EndStays(env: Env, d: Disk, run: seq<Manifest>, later: Work, budget: nat, cut: nat)
    requires env.Faithful() && Settled(env, d, run)
    requires LastManifest(env, run).Some? && LastManifest(env, run).value.status in {Merging, Completed}
    ensures AdvanceSpec(env, d, later, budget, cut) == After(d, AtEnd(env, later, LastManifest(env, run), d), budget)
  {
    hide RecoveryPlan, ExpectedSpec;
    SettledChecks(env, d, run, later);
    NothingPending(env, d, later, budget, cut);
  }

  /** Advancing again, with power to recover, after k writes of a transition to Merging or Completed: it is refused and
      untouched when it cannot be recovered, and otherwise committed. */
  ghost predicate AdvancedAgain(env: Env, run: seq<Manifest>, target: Manifest, k: nat, cut: nat,
                                later: Work, left: Disk, after: After)
    requires Execute(env, run).Ok?
  {
    if k < 4 && !Recoverable(env, run, target, CrashStage(k, cut, LineLength(env, DiskOf(env, run), target))) then
      after.disk == left && after.outcome == Refused
    else
      && Settled(env, after.disk, run + [target])
      && after.outcome == AtEnd(env, later, LastManifest(env, run + [target]), after.disk)
  }

  lemma AdvancesAgain(env: Env, run: seq<Manifest>, target: Manifest, k: nat, cut: nat,
                      later: Work, left: Disk, budget: nat, cut2: nat)
    requires env.Faithful() && Committable(env, run) && target.status in {Merging, Completed}
    requires k > 0 && budget >= 3 && CutLeaves(env, run, target, k, cut, left)
    ensures AdvancedAgain(env, run, target, k, cut, later, left, AdvanceSpec(env, left, later, budget, cut2))
  {
    if k < 4 {
      var s := CrashStage(k, cut, LineLength(env, DiskOf(env, run), target));
      RecoversFirst(env, left, run, target, s, later, budget, cut2);
      if Recoverable(env, run, target, s) {
        var recovered := RunPlan(left, RecoveryPlan(env, left), budget, cut2);
        OnceRecovered(env, left, later, budget, cut2);
        EndStays(env, recovered.disk, run + [target], later, recovered.left, cut2);
      }
    } else {
      LastStatus(env, run, target);
      EndStays(env, left, run + [target], later, budget, cut2);
    }
  }

  /** Power lost anywhere while a run is being finished, and what every later advance with power to recover then does.
      From the first durable record until the second one, it can only end at Merging, which no advance leaves. */
  lemma PowerLossStrands(env: Env, d: Disk, run: seq<Manifest>, work: Work, k: nat, cut: nat,
                         later: Work, budget: nat, cut2: nat)
    requires Finishing(env, d, run, work) && budget >= 3
    ensures var left := AdvanceSpec(env, d, work, k, cut).disk;
            var after := AdvanceSpec(env, left, later, budget, cut2);
            var (merging, completed) := LastTwo(env, run, work);
            && (k == 0 ==> left == d)
            && (0 < k < 4 ==> CutLeaves(env, run, merging, k, cut, left)
                              && AdvancedAgain(env, run, merging, k, cut, later, left, after))
            && (k == 4 ==> Settled(env, left, run + [merging]) && after.disk == left && after.outcome == Refused)
            && (k > 4 ==> CutLeaves(env, run + [merging], completed, k - 4, cut, left)
                          && AdvancedAgain(env, run + [merging], completed, k - 4, cut, later, left, after))
  {
    hide GraphOk, TransitionPlan, RecoveryPlan, AdvanceSpec;
    var (merging, completed) := LastTwo(env, run, work);
    var left := AdvanceSpec(env, d, work, k, cut).disk;
    AdvanceLeaves(env, d, run, work, k, cut);
    if 0 < k < 4 {
      AdvancesAgain(env, run, merging, k, cut, later, left, budget, cut2);
    } else if k == 4 {
      LastStatus(env, run, merging);
      EndStays(env, left, run + [merging], later, budget, cut2);
    } else if k > 4 {
      AdvancesAgain(env, run + [merging], completed, k - 4, cut, later, left, budget, cut2);
    }
  }

  // ---- when the interrupted advance can be resumed -------------------------------------------------

  datatype Retry = Retry(work: Work, budget: nat, cut: nat)

  function RetryAll(env: Env, d: Disk, rs: seq<Retry>): Disk
  {
    if rs == [] then d
    else
      var r := rs[|rs| - 1];
      AdvanceSpec(env, RetryAll(env, d, rs[..|rs| - 1]), r.work, r.budget, r.cut).disk
  }

  /** Power was lost before the first record or after the second one, and the second transition can be recovered. */
  ghost predicate Resumes(env: Env, d: Disk, run: seq<Manifest>, work: Work, k: nat, cut: nat)
    requires Finishing(env, d, run, work)
  {
    var (merging, completed) := LastTwo(env, run, work);
    var second := DiskOf(env, run + [merging]);
    || k == 0 || k == 6 || k >= 8
    || (k == 5 && !(0 < cut < LineLength(env, second, completed)) && !Collides(env, second, completed))
    || (k == 7 && !Collides(env, second, completed))
  }

  /** Interrupted inside the first transition, or between the two. */
  ghost predicate Stranded(env: Env, d: Disk, run: seq<Manifest>, merging: Manifest)
  {
    Settled(env, d, run + [merging]) || exists s :: InFlight(env, d, run, merging, s)
  }

  ghost predicate Blocked(env: Env, d: Disk, run: seq<Manifest>, completed: Manifest)
  {
    exists s :: InFlight(env, d, run, completed, s) && !Recoverable(env, run, completed, s)
  }

  lemma LastStatus(env: Env, run: seq<Manifest>, target: Manifest)
    requires Execute(env, run + [target]).Ok?
    ensures LastManifest(env, run + [target]).Some? && LastManifest(env, run + [target]).value.status == target.status
  {
    assert (run + [target])[..|run|] == run;
  }

  lemma StrandedStays(env: Env, d: Disk, run: seq<Manifest>, merging: Manifest, r: Retry)
    requires env.Faithful() && Stranded(env, d, run, merging) && merging.status == Merging
    ensures Stranded(env, AdvanceSpec(env, d, r.work, r.budget, r.cut).disk, run, merging)
  {
    if Settled(env, d, run + [merging]) {
      LastStatus(env, run, merging);
      NothingToAdvance(env, d, run + [merging], r.work, r.budget, r.cut);
    } else {
      var s :| InFlight(env, d, run, merging, s);
      RecoversFirst(env, d, run, merging, s, r.work, r.budget, r.cut);
      if Recoverable(env, run, merging, s) {
        var recovered := RunPlan(d, RecoveryPlan(env, d), r.budget, r.cut);
        if recovered.outcome.Done? {
          OnceRecovered(env, d, r.work, r.budget, r.cut);
          NothingToAdvance(env, recovered.disk, run + [merging], r.work, recovered.left, r.cut);
        }
      }
    }
  }

  lemma {:induction false} StrandedForGood(env: Env, d: Disk, run: seq<Manifest>, merging: Manifest, rs: seq<Retry>)
    requires env.Faithful() && Stranded(env, d, run, merging) && merging.status == Merging
    ensures Stranded(env, RetryAll(env, d, rs), run, merging)
    decreases |rs|
  {
    if rs != [] {
      StrandedForGood(env, d, run, merging, rs[..|rs| - 1]);
      StrandedStays(env, RetryAll(env, d, rs[..|rs| - 1]), run, merging, rs[|rs| - 1]);
    }
  }

  lemma {:induction false} BlockedForGood(env: Env, d: Disk, run: seq<Manifest>, completed: Manifest, rs: seq<Retry>)
    requires env.Faithful() && Blocked(env, d, run, completed)
    ensures RetryAll(env, d, rs) == d
    decreases |rs|
  {
    if rs != [] {
      BlockedForGood(env, d, run, completed, rs[..|rs| - 1]);
      var s :| InFlight(env, d, run, completed, s) && !Recoverable(env, run, completed, s);
      var r := rs[|rs| - 1];
      RecoversFirst(env, d, run, completed, s, r.work, r.budget, r.cut);
    }
  }

  lemma OneManifest(env: Env, d: Disk, a: seq<Manifest>, b: seq<Manifest>)
    requires env.Faithful() && Settled(env, d, a) && Settled(env, d, b)
    requires LastManifest(env, a).Some? && LastManifest(env, b).Some?
    ensures LastManifest(env, a) == LastManifest(env, b)
  {
    var m, n := LastManifest(env, a).value, LastManifest(env, b).value;
    assert env.parseManifest(env.manifestBytes(m)) == Some(m) && env.parseManifest(env.manifestBytes(n)) == Some(n);
  }

  lemma FlightIsPending(env: Env, d: Disk, run: seq<Manifest>, target: Manifest, s: Stage)
    requires InFlight(env, d, run, target, s)
    ensures d.pending.Some?
  {
  }

  /** The files are those of some completed run. */
  ghost predicate Finished(env: Env, d: Disk)
  {
    exists run :: IsCompleted(env, d, run)
  }

  ghost predicate IsCompleted(env: Env, d: Disk, run: seq<Manifest>)
  {
    && Settled(env, d, run) && LastManifest(env, run).Some? && LastManifest(env, run).value.status == Completed
  }

  lemma NotFinished(env: Env, d: Disk, run: seq<Manifest>, merging: Manifest)
    requires env.Faithful() && merging.status == Merging && Stranded(env, d, run, merging)
    ensures !Finished(env, d)
  {
    if other :| IsCompleted(env, d, other) {
      if Settled(env, d, run + [merging]) {
        LastStatus(env, run, merging);
        OneManifest(env, d, run + [merging], other);
      } else {
        var s :| InFlight(env, d, run, merging, s);
        FlightIsPending(env, d, run, merging, s);
      }
    }
  }

  lemma SecondDeclares(env: Env, d: Disk, run: seq<Manifest>, work: Work)
    requires Finishing(env, d, run, work)
    ensures var (merging, completed) := LastTwo(env, run, work);
            PhaseDeclared(LastManifest(env, run + [merging]), completed)
  {
  }

  lemma StagesOfCrash(k: nat, cut: nat, length: nat)
    requires 4 < k < 8
    ensures CrashStage(k - 4, cut, length).Torn? <==> k == 5 && 0 < cut < length
    ensures CrashStage(k - 4, cut, length) == Appended <==> k == 6
  {
  }

  /** The second transition declares no phase left, so only a torn append or a collision can block it. */
  lemma SecondRecovers(env: Env, d: Disk, run: seq<Manifest>, work: Work, k: nat, cut: nat)
    requires Finishing(env, d, run, work) && 4 < k < 8
    ensures var (merging, completed) := LastTwo(env, run, work);
            var second := DiskOf(env, run + [merging]);
            Recoverable(env, run + [merging], completed, CrashStage(k - 4, cut, LineLength(env, second, completed)))
            <==> Resumes(env, d, run, work, k, cut)
  {
    var (merging, completed) := LastTwo(env, run, work);
    SecondDeclares(env, d, run, work);
    StagesOfCrash(k, cut, LineLength(env, DiskOf(env, run + [merging]), completed));
  }

  /** Some sequence of advances leaves a completed run. */
  ghost predicate CanFinish(env: Env, d: Disk)
  {
    exists rs :: Finished(env, RetryAll(env, d, rs))
  }

  lemma OneRetry(env: Env, d: Disk, r: Retry, run: seq<Manifest>, target: Manifest)
    requires Settled(env, AdvanceSpec(env, d, r.work, r.budget, r.cut).disk, run + [target]) && target.status == Completed
    ensures CanFinish(env, d)
  {
    hide AdvanceSpec, Settled, LastManifest, Execute, Committable;
    var after := AdvanceSpec(env, d, r.work, r.budget, r.cut).disk;
    assert IsCompleted(env, after, run + [target]) by {
      SettledExecutes(env, after, run + [target]);
      LastStatus(env, run, target);
    }
    assert Finished(env, after);
    assert [r][..0] == [];
    assert RetryAll(env, d, [r]) == after;
  }

  lemma SettledExecutes(env: Env, d: Disk, run: seq<Manifest>)
    requires Settled(env, d, run)
    ensures Execute(env, run).Ok?
  {
  }

  /** An interrupted finishing can be resumed exactly when power was lost before its first write, or after the second
      record was durable with the second append whole and, unless it stopped between append and replacement, no
      collision; one advance with full power then completes it. Otherwise no sequence of later advances, whatever they
      find, leaves a completed run. */
  lemma FinishingResumesExactly(env: Env, d: Disk, run: seq<Manifest>, work: Work, k: nat, cut: nat)
    requires Finishing(env, d, run, work)
    ensures var left := AdvanceSpec(env, d, work, k, cut).disk;
            var (merging, completed) := LastTwo(env, run, work);
            && (CanFinish(env, left) <==> Resumes(env, d, run, work, k, cut))
            && (Resumes(env, d, run, work, k, cut) ==>
                  Settled(env, AdvanceSpec(env, left, work, 8, 0).disk, run + [merging] + [completed]))
  {
    hide AdvanceSpec, Finishing, Settled, Resumes, Finished;
    var left := AdvanceSpec(env, d, work, k, cut).disk;
    if Resumes(env, d, run, work, k, cut) {
      OneRetryFinishes(env, d, run, work, k, cut, 8, 0);
      ResumedFinishes(env, d, run, work, left);
    } else {
      forall rs ensures !Finished(env, RetryAll(env, left, rs)) {
        NeverFinishes(env, d, run, work, k, cut, rs);
      }
    }
  }

  lemma ResumedFinishes(env: Env, d: Disk, run: seq<Manifest>, work: Work, left: Disk)
    requires Finishing(env, d, run, work)
    requires var (merging, completed) := LastTwo(env, run, work);
             Settled(env, AdvanceSpec(env, left, work, 8, 0).disk, run + [merging] + [completed])
    ensures CanFinish(env, left)
  {
    hide AdvanceSpec, Settled, GraphOk, TransitionPlan;
    var (merging, completed) := LastTwo(env, run, work);
    OneRetry(env, left, Retry(work, 8, 0), run + [merging], completed);
  }

  lemma OneRetryFinishes(env: Env, d: Disk, run: seq<Manifest>, work: Work, k: nat, cut: nat, budget: nat, cut2: nat)
    requires Finishing(env, d, run, work) && Resumes(env, d, run, work, k, cut) && budget >= 8
    ensures var left := AdvanceSpec(env, d, work, k, cut).disk;
            var (merging, completed) := LastTwo(env, run, work);
            Settled(env, AdvanceSpec(env, left, work, budget, cut2).disk, run + [merging] + [completed])
  {
    if k == 0 {
      AdvanceLeaves(env, d, run, work, 0, cut);
      AdvanceLeaves(env, d, run, work, budget, cut2);
    } else {
      PowerLossStrands(env, d, run, work, k, cut, work, budget, cut2);
      if k < 8 {
        SecondRecovers(env, d, run, work, k, cut);
      }
    }
  }

  lemma NeverFinishes(env: Env, d: Disk, run: seq<Manifest>, work: Work, k: nat, cut: nat, rs: seq<Retry>)
    requires Finishing(env, d, run, work) && !Resumes(env, d, run, work, k, cut)
    ensures !Finished(env, RetryAll(env, AdvanceSpec(env, d, work, k, cut).disk, rs))
  {
    hide GraphOk, TransitionPlan, RecoveryPlan, AdvanceSpec, Finished;
    var left := AdvanceSpec(env, d, work, k, cut).disk;
    var (merging, completed) := LastTwo(env, run, work);
    AdvanceLeaves(env, d, run, work, k, cut);
    if k <= 4 {
      assert Stranded(env, left, run, merging);
      StrandedForGood(env, left, run, merging, rs);
      NotFinished(env, RetryAll(env, left, rs), run, merging);
    } else {
      SecondRecovers(env, d, run, work, k, cut);
      SecondNeverFinishes(env, run + [merging], completed, k - 4, cut, left, rs);
    }
  }

  lemma SecondNeverFinishes(env: Env, run: seq<Manifest>, target: Manifest, k: nat, cut: nat, left: Disk, rs: seq<Retry>)
    requires env.Faithful() && Committable(env, run) && 0 < k < 4 && CutLeaves(env, run, target, k, cut, left)
    requires !Recoverable(env, run, target, CrashStage(k, cut, LineLength(env, DiskOf(env, run), target)))
    ensures !Finished(env, RetryAll(env, left, rs))
  {
    var s := CrashStage(k, cut, LineLength(env, DiskOf(env, run), target));
    assert Blocked(env, left, run, target);
    BlockedForGood(env, left, run, target, rs);
    FlightIsPending(env, left, run, target, s);
  }
}
