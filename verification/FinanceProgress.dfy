/** Which transitions of a finance run are carried out, and what they leave: advancing from the first round to the end. */
module FinanceProgress {
  import opened Base
  import opened Canonical
  import opened FinanceModel
  import opened FinanceLedger
  import opened FinanceReplay
  import opened FinanceJournal
  import opened FinanceLifecycle
  import opened FinanceEvidence

  // ---- the table ----------------------------------------------------------------------------------

  const STEPS: set<(Option<Status>, Status)> := {
    (None, R1Running),
    (Some(R1Running), R2Running), (Some(R1Running), Failed), (Some(R1Running), Cancelled),
    (Some(R2Running), Merging), (Some(R2Running), Failed), (Some(R2Running), Cancelled),
    (Some(Merging), Completed), (Some(Merging), Degraded), (Some(Merging), Failed), (Some(Merging), Cancelled)
  }

  const ENDS: set<Status> := {Completed, Degraded, Failed, Cancelled}

  lemma TableIsSteps(prior: Option<Status>, next: Status)
    ensures LegalTransition(prior, next) <==> (prior, next) in STEPS
    ensures Terminal(next) <==> next in ENDS
  {
  }

  // ---- one transition -------------------------------------------------------------------------------

  /** Every artifact in the order an event lists them. */
  function Listed(m: Manifest): seq<Identity>
  {
    [m.policy.identity, m.invocation.identity] + Ids(m.r1Packets) + Ids(m.r2Packets) + Ids(m.r1Outputs)
    + Ids(m.r2Outputs) + Ids(m.arbiterOutputs) + (if m.result.Some? then [m.result.value.identity] else [])
  }

  /** The event that takes manifest m to its successor: next in sequence, chained to the last line. */
  function StepEvent(m: Manifest, target: Manifest): Event
  {
    Event(target.runId, target.genesis, m.checkpoint.sequence + 1, Some(m.checkpoint.eventSha256),
          if target.status in ENDS then
            RunTerminalized(m.status, target.status, Listed(target),
                            if target.result.Some? then Some(target.result.value.identity) else None, target.termination)
          else PhaseAdvanced(m.status, target.status, Listed(target)))
  }

  function StepLine(env: Env, m: Manifest, target: Manifest): string
  {
    CanonicalText(env.toValue(StepEvent(m, target))) + "\n"
  }

  function StepManifest(env: Env, m: Manifest, target: Manifest): Manifest
  {
    target.(checkpoint := Checkpoint(m.checkpoint.sequence + 1, env.hash(StepLine(env, m, target))))
  }

  /** The transition is in the table and within one run, the sequence number is a safe integer, and the schemas and
      artifact checks accept what it writes. */
  predicate Joins(env: Env, m: Manifest, target: Manifest)
  {
    && (Some(m.status), target.status) in STEPS
    && m.runId == target.runId && m.genesis == target.genesis
    && m.checkpoint.sequence < 9_007_199_254_740_991
    && env.eventSchema(env.toValue(StepEvent(m, target)))
    && env.manifestSchema(StepManifest(env, m, target)) && env.artifactsOk(StepManifest(env, m, target))
  }

  /** The files are those of a committed run whose last manifest is m. */
  ghost predicate At(env: Env, d: Disk, run: seq<Manifest>, m: Manifest)
  {
    Settled(env, d, run) && LastManifest(env, run) == Some(m)
  }

  /** The disk after a transition: the new manifest, one more line, no record. */
  function StepDisk(env: Env, d: Disk, m: Manifest, target: Manifest): Disk
  {
    Disk(Some(env.manifestBytes(StepManifest(env, m, target))), d.ledger + StepLine(env, m, target), None)
  }

  lemma ListedInOrder(m: Manifest)
    ensures ArtifactIds(m) == Listed(m)
  {
    ArtifactIdsSplit(m);
    assert [m.policy.identity] + [m.invocation.identity] == [m.policy.identity, m.invocation.identity];
  }

  lemma EventIsStep(m: Manifest, target: Manifest)
    ensures BuildTransitionEvent(Some(m), target) ==
            if && (Some(m.status), target.status) in STEPS && m.runId == target.runId && m.genesis == target.genesis
               && m.checkpoint.sequence < 9_007_199_254_740_991
            then Ok(StepEvent(m, target)) else Err
  {
    TableIsSteps(Some(m.status), target.status);
    ListedInOrder(target);
    hide LegalTransition, ArtifactIds, Listed, STEPS;
  }

  lemma WritesAreStep(env: Env, bytes: Option<string>, m: Manifest, target: Manifest)
    ensures WritesFor(env, bytes, Some(m), target).Ok? <==> Joins(env, m, target)
    ensures Joins(env, m, target) ==>
              WritesFor(env, bytes, Some(m), target) ==
              Ok([PutPending(MakePending(env, bytes, Some(m), StepEvent(m, target), StepManifest(env, m, target))),
                  Append(StepLine(env, m, target)), PutManifest(env.manifestBytes(StepManifest(env, m, target))),
                  DropPending])
  {
    EventIsStep(m, target);
    hide BuildTransitionEvent, Listed, MakePending, STEPS, CanonicalText;
  }

  /** A transition of a settled run is carried out exactly when it joins the run's last manifest; with power for its four
      writes it leaves the new manifest, one more line and no record. */
  lemma TransitionIsDecided(env: Env, d: Disk, run: seq<Manifest>, m: Manifest, target: Manifest, budget: nat, cut: nat)
    requires env.Faithful() && At(env, d, run, m)
    ensures TransitionPlan(env, d, target).Ok? <==> Joins(env, m, target)
    ensures Joins(env, m, target) && budget >= 4 ==>
              && RunPlan(d, TransitionPlan(env, d, target), budget, cut)
                 == After(StepDisk(env, d, m, target), Done, budget - 4)
              && At(env, StepDisk(env, d, m, target), run + [target], StepManifest(env, m, target))
  {
    PlanReads(env, run, target);
    WritesAreStep(env, d.manifest, m, target);
    if Joins(env, m, target) && budget >= 4 {
      StepIsTaken(env, d, run, m, target, budget, cut);
    }
  }

  lemma RecordIsStep(env: Env, run: seq<Manifest>, m: Manifest, target: Manifest, p: Pending, e: Event, n: Manifest)
    requires Committable(env, run) && LastManifest(env, run) == Some(m) && Record(env, run, target, p, e, n)
    requires Joins(env, m, target)
    ensures e == StepEvent(m, target) && n == StepManifest(env, m, target)
  {
    EventIsStep(m, target);
    hide BuildTransitionEvent, Listed, MakePending, CanonicalText;
  }

  lemma StepCommits(env: Env, d: Disk, run: seq<Manifest>, m: Manifest, target: Manifest) returns (p: Pending)
    requires env.Faithful() && At(env, d, run, m) && Joins(env, m, target)
    ensures TransitionPlan(env, d, target) ==
            Ok([PutPending(p), Append(StepLine(env, m, target)),
                PutManifest(env.manifestBytes(StepManifest(env, m, target))), DropPending])
    ensures At(env, StepDisk(env, d, m, target), run + [target], StepManifest(env, m, target))
  {
    hide CanonicalText, Env.Faithful, Joins, TransitionPlan, WritesFor, BuildTransitionEvent, StepEvent, MakePending;
    PlanReads(env, run, target);
    WritesAreStep(env, d.manifest, m, target);
    var e: Event, n: Manifest;
    p, e, n := WritesRecord(env, run, target, TransitionPlan(env, d, target).value);
    RecordIsStep(env, run, m, target, p, e, n);
    NextDisk(env, run, target, p, e, n);
  }

  lemma StepIsTaken(env: Env, d: Disk, run: seq<Manifest>, m: Manifest, target: Manifest, budget: nat, cut: nat)
    requires env.Faithful() && At(env, d, run, m) && Joins(env, m, target) && budget >= 4
    ensures RunPlan(d, TransitionPlan(env, d, target), budget, cut)
            == After(StepDisk(env, d, m, target), Done, budget - 4)
    ensures At(env, StepDisk(env, d, m, target), run + [target], StepManifest(env, m, target))
  {
    hide CanonicalText, Env.Faithful, TransitionPlan, At, Joins, StepLine, StepManifest;
    var p := StepCommits(env, d, run, m, target);
    CrashShapeEnds(d, p, StepLine(env, m, target), env.manifestBytes(StepManifest(env, m, target)), budget, cut);
  }

  // ---- the rules a manifest is checked against ---------------------------------------------------------

  /** How many artifacts of each kind a phase has, and whether it has a result. */
  const SIZES: map<Status, (nat, nat, nat, nat, nat, bool)> := map[
    R1Running := (5, 0, 0, 0, 0, false),
    R2Running := (5, 5, 5, 0, 0, false),
    Merging := (5, 5, 5, 5, 2, false),
    Completed := (5, 5, 5, 5, 2, true),
    Degraded := (5, 5, 5, 5, 2, true)
  ]

  function Sizes(m: Manifest): (nat, nat, nat, nat, nat, bool)
  {
    (|m.r1Packets|, |m.r2Packets|, |m.r1Outputs|, |m.r2Outputs|, |m.arbiterOutputs|, m.result.Some?)
  }

  /** A failed or cancelled run is counted as the phase its termination names. */
  predicate Counted(m: Manifest)
  {
    if m.status in {Failed, Cancelled} then
      m.termination.Some? && m.termination.value.phase in SIZES && Sizes(m) == SIZES[m.termination.value.phase]
    else m.status in SIZES && Sizes(m) == SIZES[m.status]
  }

  /** A failed or cancelled run names an active phase; only an operator cancels, nothing is retryable, and there is no
      result. No other run has a termination. */
  predicate TerminatedWell(m: Manifest)
  {
    if m.status in {Failed, Cancelled} then
      && m.termination.Some? && m.termination.value.phase in {R1Running, R2Running, Merging}
      && !m.termination.value.retryable && m.result == None
      && (m.termination.value.code == OperatorCancelled <==> m.status == Cancelled)
    else m.termination == None
  }

  lemma RulesOfManifest(m: Manifest)
    ensures ValidCounts(m) <==> Counted(m)
    ensures ValidTermination(m) <==> TerminatedWell(m)
  {
  }

  /** The manifest passes its schema, the artifact graph and the two rules, and its ledger is the one it determines. */
  predicate Passes(env: Env, work: Work, m: Manifest, ledger: string)
  {
    && env.manifestSchema(m) && work.graphOk(m) && Counted(m) && TerminatedWell(m)
    && ExpectedSpec(env, m) == Ok(Replay(ledger, m.checkpoint))
  }

  lemma PassesIsGraph(env: Env, work: Work, m: Manifest, ledger: string)
    ensures GraphOk(env, work, m, ledger) <==> Passes(env, work, m, ledger)
  {
    RulesOfManifest(m);
    hide Counted, TerminatedWell, ValidCounts, ValidTermination, ExpectedSpec;
  }

  /** A finished run answers by its checks and its bundle, and is never touched. */
  lemma FinishedRunAnswers(env: Env, d: Disk, run: seq<Manifest>, m: Manifest, work: Work, budget: nat, cut: nat)
    requires env.Faithful() && At(env, d, run, m) && m.status in {Completed, Degraded}
    ensures AdvanceSpec(env, d, work, budget, cut) ==
            After(d, if Passes(env, work, m, d.ledger) && work.bundleOk then Done else Refused, budget)
  {
    PassesIsGraph(env, work, m, d.ledger);
    hide GraphOk, Passes, RecoveryPlan;
    SettledChecks(env, d, run, work);
    NothingPending(env, d, work, budget, cut);
  }

  // ---- advancing the first round -------------------------------------------------------------------------

  lemma AdvanceOnce(env: Env, d: Disk, target: Manifest, budget: nat, cut: nat)
    ensures RunTargets(env, d, [target], budget, cut) == RunPlan(d, TransitionPlan(env, d, target), budget, cut)
  {
    TargetsStep(env, d, [target], budget, cut);
    assert [target][1..] == [];
  }

  /** The first round's manifest with its outputs and the packets of the second round. */
  function SecondRound(m: Manifest, outputs: seq<Binding>, packets: seq<Binding>): Manifest
  {
    Manifest(m.runId, m.genesis, m.checkpoint, R2Running, m.termination, m.policy, m.invocation,
             m.r1Packets, packets, outputs, m.r2Outputs, m.arbiterOutputs, m.result)
  }

  lemma FirstRoundChecks(env: Env, d: Disk, run: seq<Manifest>, m: Manifest, work: Work, budget: nat, cut: nat)
    requires env.Faithful() && At(env, d, run, m) && m.status == R1Running
    ensures AdvanceSpec(env, d, work, budget, cut) ==
            if !GraphOk(env, work, m, d.ledger) || work.r1.None? then After(d, Refused, budget)
            else
              RunPlan(d, TransitionPlan(env, d, SecondRound(m, work.r1.value.outputs, work.r1.value.packets)), budget, cut)
  {
    SettledChecks(env, d, run, work);
    NothingPending(env, d, work, budget, cut);
    hide GraphOk, TransitionPlan, RecoveryPlan, AdvanceSpec, Settled, Execute;
    if GraphOk(env, work, m, d.ledger) && work.r1.Some? {
      AdvanceOnce(env, d, SecondRound(m, work.r1.value.outputs, work.r1.value.packets), budget, cut);
    }
  }

  lemma SecondRoundIsListed(m: Manifest, outputs: seq<Binding>, packets: seq<Binding>)
    requires ValidCounts(m) && m.status == R1Running
    ensures StepEvent(m, SecondRound(m, outputs, packets)) ==
            Event(m.runId, m.genesis, m.checkpoint.sequence + 1, Some(m.checkpoint.eventSha256),
                  PhaseAdvanced(R1Running, R2Running, [m.policy.identity, m.invocation.identity]
                                                      + Ids(m.r1Packets) + Ids(packets) + Ids(outputs)))
  {
    var t := SecondRound(m, outputs, packets);
    assert Ids(t.r2Outputs) == [] && Ids(t.arbiterOutputs) == [];
    assert Listed(t) == [m.policy.identity, m.invocation.identity] + Ids(m.r1Packets) + Ids(packets) + Ids(outputs);
  }

  lemma SecondRoundIsReached(env: Env, d: Disk, run: seq<Manifest>, m: Manifest, outputs: seq<Binding>,
                             packets: seq<Binding>, budget: nat, cut: nat)
    returns (e: Event, n: Manifest)
    requires env.Faithful() && At(env, d, run, m) && m.status == R1Running
    requires budget >= 4 && ValidCounts(m) && Joins(env, m, SecondRound(m, outputs, packets))
    ensures var target := SecondRound(m, outputs, packets);
            var after := RunPlan(d, TransitionPlan(env, d, target), budget, cut);
            && after == After(Disk(Some(env.manifestBytes(n)), d.ledger + (CanonicalText(env.toValue(e)) + "\n"), None),
                              Done, budget - 4)
            && n == target.(checkpoint := Checkpoint(e.sequence, env.hash(CanonicalText(env.toValue(e)) + "\n")))
            && env.parseManifest(env.manifestBytes(n)) == Some(n)
            && At(env, after.disk, run + [target], n)
    ensures e == Event(m.runId, m.genesis, m.checkpoint.sequence + 1, Some(m.checkpoint.eventSha256),
                       PhaseAdvanced(R1Running, R2Running, [m.policy.identity, m.invocation.identity]
                                                           + Ids(m.r1Packets) + Ids(packets) + Ids(outputs)))
  {
    var target := SecondRound(m, outputs, packets);
    SecondRoundIsListed(m, outputs, packets);
    hide TransitionPlan, Joins, STEPS, StepEvent, ValidCounts;
    TransitionIsDecided(env, d, run, m, target, budget, cut);
    e, n := StepEvent(m, target), StepManifest(env, m, target);
    assert env.parseManifest(env.manifestBytes(n)) == Some(n);
  }

  /** Advancing a settled run in its first round is refused, and nothing touched, without a first round, or when its
      graph check fails, or when the move to the second round does not join it. */
  lemma FirstRoundIsRefused(env: Env, d: Disk, run: seq<Manifest>, m: Manifest, work: Work, budget: nat, cut: nat)
    requires env.Faithful() && At(env, d, run, m) && m.status == R1Running
    requires || work.r1 == None || !Passes(env, work, m, d.ledger)
             || !Joins(env, m, m.(r1Outputs := work.r1.value.outputs, r2Packets := work.r1.value.packets,
                                  status := R2Running))
    ensures AdvanceSpec(env, d, work, budget, cut) == After(d, Refused, budget)
  {
    PassesIsGraph(env, work, m, d.ledger);
    FirstRoundChecks(env, d, run, m, work, budget, cut);
    if work.r1.Some? {
      TransitionIsDecided(env, d, run, m, SecondRound(m, work.r1.value.outputs, work.r1.value.packets), budget, cut);
    }
  }

  /** Otherwise, with power, the manifest on disk is in its second round, with the round's outputs as R1 outputs, its
      packets as R2 packets and nothing else changed but the checkpoint; and the ledger has one more line, whose event
      lists the artifacts held before, the packets and the outputs. */
  lemma FirstRoundAdvances(env: Env, d: Disk, run: seq<Manifest>, m: Manifest, work: Work, outputs: seq<Binding>,
                           packets: seq<Binding>, budget: nat, cut: nat)
    returns (e: Event, n: Manifest)
    requires env.Faithful() && At(env, d, run, m) && m.status == R1Running
    requires Passes(env, work, m, d.ledger) && work.r1 == Some(FirstRound(outputs, packets)) && budget >= 4
    requires Joins(env, m, m.(r1Outputs := outputs, r2Packets := packets, status := R2Running))
    ensures var after, line := AdvanceSpec(env, d, work, budget, cut), CanonicalText(env.toValue(e)) + "\n";
            && after.outcome == Done && after.left == budget - 4 && after.disk.pending == None
            && after.disk.ledger == d.ledger + line
            && after.disk.manifest.Some? && env.parseManifest(after.disk.manifest.value) == Some(n)
            && n.checkpoint == Checkpoint(m.checkpoint.sequence + 1, env.hash(line))
            && At(env, after.disk, run + [m.(r1Outputs := outputs, r2Packets := packets, status := R2Running)], n)
    ensures n.status == R2Running && n.r1Outputs == outputs && n.r2Packets == packets
    ensures n.policy == m.policy && n.invocation == m.invocation && n.r1Packets == m.r1Packets
    ensures n.r2Outputs == m.r2Outputs && n.arbiterOutputs == m.arbiterOutputs && n.result == m.result
    ensures n.runId == m.runId && n.genesis == m.genesis && n.termination == m.termination
    ensures e == Event(m.runId, m.genesis, m.checkpoint.sequence + 1, Some(m.checkpoint.eventSha256),
                       PhaseAdvanced(R1Running, R2Running, [m.policy.identity, m.invocation.identity]
                                                           + Ids(m.r1Packets) + Ids(packets) + Ids(outputs)))
  {
    PassesIsGraph(env, work, m, d.ledger);
    FirstRoundChecks(env, d, run, m, work, budget, cut);
    assert ValidCounts(m);
    hide GraphOk, Passes, TransitionPlan, AdvanceSpec, At, Joins;
    e, n := SecondRoundIsReached(env, d, run, m, outputs, packets, budget, cut);
  }

  // ---- advancing the second round ------------------------------------------------------------------------

  function Under(b: Binding): Binding
  {
    Binding("terminal/" + b.artifactRef, b.identity)
  }

  function AllUnder(bs: seq<Binding>): seq<Binding>
  {
    seq(|bs|, i requires 0 <= i < |bs| => Under(bs[i]))
  }

  /** The run at Merging: every artifact is the finaliser's, below the terminal directory. */
  function Merged(m: Manifest, t: Manifest): Manifest
  {
    Manifest(m.runId, t.genesis, m.checkpoint, Merging, m.termination, Under(t.policy), Under(t.invocation),
             AllUnder(t.r1Packets), AllUnder(t.r2Packets), AllUnder(t.r1Outputs), AllUnder(t.r2Outputs),
             AllUnder(t.arbiterOutputs), None)
  }

  /** The run at Completed: the same, with the finaliser's result. */
  function Concluded(m: Manifest, t: Manifest): Manifest
  {
    Merged(m, t).(status := Completed, result := if t.result.Some? then Some(Under(t.result.value)) else None)
  }

  lemma LastTwoTargets(m: Manifest, work: Work, t: Manifest)
    requires m.status == R2Running && work.terminal == Some(t)
    ensures NextTargets(m, work) == Ok([Merged(m, t), Concluded(m, t)])
    ensures MergingFrom(m, t) == Merged(m, t) && CompletedFrom(m, t) == Concluded(m, t)
  {
    assert forall bs: seq<Binding> :: TerminalRefs(bs) == AllUnder(bs);
  }

  lemma SecondRoundChecks(env: Env, d: Disk, run: seq<Manifest>, m: Manifest, work: Work, budget: nat, cut: nat)
    requires env.Faithful() && At(env, d, run, m) && m.status == R2Running
    ensures AdvanceSpec(env, d, work, budget, cut) ==
            if work.terminal == None || !GraphOk(env, work, m, d.ledger) then After(d, Refused, budget)
            else RunTargets(env, d, [Merged(m, work.terminal.value), Concluded(m, work.terminal.value)], budget, cut)
  {
    SettledChecks(env, d, run, work);
    NothingPending(env, d, work, budget, cut);
    if work.terminal.Some? {
      LastTwoTargets(m, work, work.terminal.value);
    }
    hide GraphOk, RecoveryPlan, AdvanceSpec, Settled, Execute, RunTargets, Merged, Concluded;
  }

  lemma AdvanceTwice(env: Env, d: Disk, first: Manifest, second: Manifest, budget: nat, cut: nat)
    ensures var once := RunPlan(d, TransitionPlan(env, d, first), budget, cut);
            RunTargets(env, d, [first, second], budget, cut) ==
            if once.outcome.Done? then RunPlan(once.disk, TransitionPlan(env, once.disk, second), once.left, cut) else once
  {
    TargetsStep(env, d, [first, second], budget, cut);
    assert [first, second][1..] == [second];
    var once := RunPlan(d, TransitionPlan(env, d, first), budget, cut);
    AdvanceOnce(env, once.disk, second, once.left, cut);
  }

  /** Advancing a settled run in its second round, with power: it is refused and untouched without a finaliser's manifest,
      or when its graph check fails, or when Merging does not join it. Otherwise it goes to Merging, and on to Completed
      exactly when that joins; if it does not, it is refused and the run is left at Merging. */
  lemma SecondRoundAdvances(env: Env, d: Disk, run: seq<Manifest>, m: Manifest, work: Work, budget: nat, cut: nat)
    requires env.Faithful() && At(env, d, run, m) && m.status == R2Running
    requires budget >= 8
    ensures var after := AdvanceSpec(env, d, work, budget, cut);
            if work.terminal == None || !Passes(env, work, m, d.ledger) then after == After(d, Refused, budget)
            else
              var (merging, completed) := (Merged(m, work.terminal.value), Concluded(m, work.terminal.value));
              var mid, last := StepDisk(env, d, m, merging), StepManifest(env, m, merging);
              if !Joins(env, m, merging) then after == After(d, Refused, budget)
              else
                && At(env, mid, run + [merging], last)
                && if !Joins(env, last, completed) then after == After(mid, Refused, budget - 4)
                   else
                     && after == After(StepDisk(env, mid, last, completed), Done, budget - 8)
                     && At(env, after.disk, run + [merging] + [completed], StepManifest(env, last, completed))
  {
    hide GraphOk, Passes, AdvanceSpec, At, RunTargets, RunPlan, TransitionPlan, Merged, Concluded, Joins, StepDisk,
         StepManifest, Env.Faithful;
    PassesIsGraph(env, work, m, d.ledger);
    SecondRoundChecks(env, d, run, m, work, budget, cut);
    if work.terminal.Some? && GraphOk(env, work, m, d.ledger) {
      var merging, completed := Merged(m, work.terminal.value), Concluded(m, work.terminal.value);
      AdvanceTwice(env, d, merging, completed, budget, cut);
      MovesTwice(env, d, run, m, merging, completed, budget, cut);
    }
  }

  lemma MovesTwice(env: Env, d: Disk, run: seq<Manifest>, m: Manifest, first: Manifest, second: Manifest,
                   budget: nat, cut: nat)
    requires env.Faithful() && At(env, d, run, m) && budget >= 8
    ensures var once := RunPlan(d, TransitionPlan(env, d, first), budget, cut);
            var mid, last := StepDisk(env, d, m, first), StepManifest(env, m, first);
            if !Joins(env, m, first) then once == After(d, Refused, budget)
            else
              && once == After(mid, Done, budget - 4) && At(env, mid, run + [first], last)
              && var twice := RunPlan(mid, TransitionPlan(env, mid, second), budget - 4, cut);
                 if !Joins(env, last, second) then twice == After(mid, Refused, budget - 4)
                 else
                   && twice == After(StepDisk(env, mid, last, second), Done, budget - 8)
                   && At(env, twice.disk, run + [first] + [second], StepManifest(env, last, second))
  {
    hide At, TransitionPlan, Joins, StepDisk, StepManifest, Env.Faithful;
    TransitionIsDecided(env, d, run, m, first, budget, cut);
    if Joins(env, m, first) {
      var mid, last := StepDisk(env, d, m, first), StepManifest(env, m, first);
      TransitionIsDecided(env, mid, run + [first], last, second, budget - 4, cut);
    }
  }

  /** A run can be finished by advancing exactly when it has a finaliser's manifest, passes its graph check, and Merging
      and then Completed join it. */
  lemma FinishingIsExact(env: Env, d: Disk, run: seq<Manifest>, m: Manifest, work: Work)
    requires env.Faithful() && At(env, d, run, m) && m.status == R2Running
    ensures Finishing(env, d, run, work) <==>
            && work.terminal.Some? && Passes(env, work, m, d.ledger)
            && Joins(env, m, Merged(m, work.terminal.value))
            && Joins(env, StepManifest(env, m, Merged(m, work.terminal.value)), Concluded(m, work.terminal.value))
  {
    PassesIsGraph(env, work, m, d.ledger);
    if work.terminal.Some? {
      var merging, completed := Merged(m, work.terminal.value), Concluded(m, work.terminal.value);
      LastTwoTargets(m, work, work.terminal.value);
      TransitionIsDecided(env, d, run, m, merging, 4, 0);
      hide GraphOk, Passes, TransitionPlan, Execute, Joins, StepDisk, StepManifest, Merged, Concluded, MergingFrom,
           CompletedFrom;
      if Joins(env, m, merging) {
        var mid, last := StepDisk(env, d, m, merging), StepManifest(env, m, merging);
        TransitionIsDecided(env, mid, run + [merging], last, completed, 4, 0);
      }
    }
  }

  // ---- from creation to completion -----------------------------------------------------------------------

  function StartEvent(first: Manifest): Event
  {
    Event(first.runId, first.genesis, 0, None, RunCreated(first.status, Listed(first)))
  }

  function StartManifest(env: Env, first: Manifest): Manifest
  {
    first.(checkpoint := Checkpoint(0, env.hash(CanonicalText(env.toValue(StartEvent(first))) + "\n")))
  }

  /** Creation goes to the first round only, and writes what its schemas and artifact checks accept. */
  predicate Starts(env: Env, first: Manifest)
  {
    && (None, first.status) in STEPS
    && env.eventSchema(env.toValue(StartEvent(first)))
    && env.manifestSchema(StartManifest(env, first)) && env.artifactsOk(StartManifest(env, first))
  }

  function StartDisk(env: Env, first: Manifest): Disk
  {
    Disk(Some(env.manifestBytes(StartManifest(env, first))), CanonicalText(env.toValue(StartEvent(first))) + "\n", None)
  }

  lemma StartWrites(env: Env, first: Manifest)
    ensures TransitionPlan(env, EmptyDisk, first) == WritesFor(env, None, None, first)
    ensures WritesFor(env, None, None, first).Ok? <==> Starts(env, first)
    ensures Starts(env, first) ==>
              WritesFor(env, None, None, first) ==
              Ok([PutPending(MakePending(env, None, None, StartEvent(first), StartManifest(env, first))),
                  Append(LineText(env, StartEvent(first))), PutManifest(env.manifestBytes(StartManifest(env, first))),
                  DropPending])
  {
    TableIsSteps(None, first.status);
    ListedInOrder(first);
    hide LegalTransition, ArtifactIds, Listed, STEPS, CanonicalText, MakePending;
  }

  /** A run is created exactly when it starts; with power for the four writes it holds one manifest and one line. */
  lemma CreationIsDecided(env: Env, first: Manifest, budget: nat, cut: nat)
    requires env.Faithful()
    ensures TransitionPlan(env, EmptyDisk, first).Ok? <==> Starts(env, first)
    ensures Starts(env, first) && budget >= 4 ==>
              && Perform(env, EmptyDisk, Begin(first, budget, cut)) == StartDisk(env, first)
              && At(env, StartDisk(env, first), [first], StartManifest(env, first))
  {
    StartWrites(env, first);
    if Starts(env, first) && budget >= 4 {
      var ws := TransitionPlan(env, EmptyDisk, first).value;
      assert Settled(env, EmptyDisk, []);
      var p, e, n := WritesRecord(env, [], first, ws);
      NextDisk(env, [], first, p, e, n);
      assert [] + [first] == [first];
      hide TransitionPlan, Execute, Starts, StartManifest, CanonicalText;
      CrashShapeEnds(EmptyDisk, p, LineText(env, e), env.manifestBytes(n), budget, cut);
    }
  }

  lemma SameRules(m: Manifest, n: Manifest)
    requires n == m.(checkpoint := n.checkpoint) && ValidCounts(m) && ValidTermination(m)
    ensures ValidCounts(n) && ValidTermination(n)
  {
  }

  /** A run that obeys the rules and has lost nothing passes its graph check. */
  lemma GrowthPassesGraph(env: Env, d: Disk, run: seq<Manifest>, m: Manifest, work: Work)
    requires env.Faithful() && At(env, d, run, m) && CheckedRun(run) && GrowingRun(run)
    requires env.manifestSchema(m) && work.graphOk(m)
    ensures Passes(env, work, m, d.ledger) && GraphOk(env, work, m, d.ledger)
  {
    PassesIsGraph(env, work, m, d.ledger);
    assert run != [];
    hide Passes, ExpectedSpec, Summary, GrowingRun, CheckedRun, ValidCounts, ValidTermination, Env.Faithful;
    LastIsTarget(env, run);
    CountsAt(run, |run| - 1);
    SettledLedger(env, d, run);
    assert ValidCounts(m) && ValidTermination(m) by {
      SameRules(run[|run| - 1], m);
    }
    RelocationKeepsLedger(env, run[|run| - 1], m);
    ReplayAcceptsExactlyGrowth(env, run);
  }

  /** The first two manifests of a run. */
  lemma FirstTwoObey(first: Manifest, m: Manifest, outputs: seq<Binding>, packets: seq<Binding>)
    requires first.status == R1Running && first.termination == None && Sizes(first) == (5, 0, 0, 0, 0, false)
    requires m == first.(checkpoint := m.checkpoint) && |outputs| == 5 && |packets| == 5
    ensures CheckedRun([first]) && GrowingRun([first])
    ensures CheckedRun([first] + [SecondRound(m, outputs, packets)])
    ensures GrowingRun([first] + [SecondRound(m, outputs, packets)])
  {
    var second := SecondRound(m, outputs, packets);
    assert GrowingRun([first]);
    CheckedGrows([first], second);
    GrowthGrows([first], second);
  }

  lemma PermissiveJoins(env: Env, m: Manifest, target: Manifest)
    requires Permissive(env) && (Some(m.status), target.status) in STEPS
    requires m.runId == target.runId && m.genesis == target.genesis && m.checkpoint.sequence < 3
    ensures Joins(env, m, target)
  {
  }

  /** A new run, once its first round is in, is in its second round. */
  lemma FirstHalf(env: Env, first: Manifest, work: Work, outputs: seq<Binding>, packets: seq<Binding>, cut: nat)
    returns (m: Manifest, n: Manifest)
    requires env.Faithful() && Permissive(env) && (forall x :: work.graphOk(x))
    requires first.status == R1Running && first.termination == None && Sizes(first) == (5, 0, 0, 0, 0, false)
    requires work.r1 == Some(FirstRound(outputs, packets)) && |outputs| == 5 && |packets| == 5
    ensures m == StartManifest(env, first)
    ensures n == SecondRound(first, outputs, packets).(checkpoint := n.checkpoint) && n.checkpoint.sequence == 1
    ensures var d := Perform(env, EmptyDisk, Begin(first, 4, cut));
            var after := AdvanceSpec(env, d, work, 4, cut);
            && d == StartDisk(env, first) && after.outcome == Done
            && n == StepManifest(env, m, SecondRound(m, outputs, packets))
            && after.disk == StepDisk(env, d, m, SecondRound(m, outputs, packets))
            && At(env, after.disk, [first] + [SecondRound(m, outputs, packets)], n)
  {
    hide AdvanceSpec, Perform, TransitionPlan, GraphOk, Passes, ValidCounts, At, CheckedRun, GrowingRun, CanonicalText,
         Listed;
    CreationIsDecided(env, first, 4, cut);
    m := StartManifest(env, first);
    var target := SecondRound(m, outputs, packets);
    n := StepManifest(env, m, target);
    var d := StartDisk(env, first);
    FirstTwoObey(first, m, outputs, packets);
    GrowthPassesGraph(env, d, [first], m, work);
    PermissiveJoins(env, m, target);
    FirstRoundChecks(env, d, [first], m, work, 4, cut);
    TransitionIsDecided(env, d, [first], m, target, 4, cut);
  }

  lemma SecondHalf(env: Env, d: Disk, run: seq<Manifest>, n: Manifest, work: Work, t: Manifest, cut: nat)
    returns (mid: Manifest, last: Manifest)
    requires env.Faithful() && Permissive(env) && At(env, d, run, n) && Passes(env, work, n, d.ledger)
    requires n.status == R2Running && n.checkpoint.sequence == 1 && work.terminal == Some(t) && t.genesis == n.genesis
    ensures mid == StepManifest(env, n, Merged(n, t)) && last == StepManifest(env, mid, Concluded(n, t))
    ensures AdvanceSpec(env, d, work, 8, cut) ==
            After(StepDisk(env, StepDisk(env, d, n, Merged(n, t)), mid, Concluded(n, t)), Done, 0)
    ensures env.parseManifest(env.manifestBytes(last)) == Some(last)
  {
    mid := StepManifest(env, n, Merged(n, t));
    last := StepManifest(env, mid, Concluded(n, t));
    PermissiveJoins(env, n, Merged(n, t));
    PermissiveJoins(env, mid, Concluded(n, t));
    assert env.parseManifest(env.manifestBytes(last)) == Some(last);
    hide AdvanceSpec, Passes, At, Joins, Permissive, StepManifest, StepDisk, Merged, Concluded, Env.Faithful;
    SecondRoundAdvances(env, d, run, n, work, 8, cut);
  }

  /** The four events of a whole lifecycle. */
  lemma EventsOfLifecycle(env: Env, first: Manifest, m: Manifest, n: Manifest, mid: Manifest, last: Manifest,
                          outputs: seq<Binding>, packets: seq<Binding>, t: Manifest)
    returns (es: seq<Event>)
    requires first.status == R1Running && first.termination == None && Sizes(first) == (5, 0, 0, 0, 0, false)
    requires m == StartManifest(env, first) && n == StepManifest(env, m, SecondRound(m, outputs, packets))
    requires mid == StepManifest(env, n, Merged(n, t)) && last == StepManifest(env, mid, Concluded(n, t))
    requires t.genesis == first.genesis
    ensures |es| == 4 && IsLifecycle(env, es, first, outputs, packets, t)
    ensures last == Concluded(first, t).(checkpoint := Checkpoint(3, env.hash(LineText(env, es[3]))))
    ensures var d0 := StartDisk(env, first);
            var d1 := StepDisk(env, d0, m, SecondRound(m, outputs, packets));
            var d2 := StepDisk(env, StepDisk(env, d1, n, Merged(n, t)), mid, Concluded(n, t));
            && d2.ledger == LineText(env, es[0]) + LineText(env, es[1]) + LineText(env, es[2]) + LineText(env, es[3])
            && d2.pending == None && d2.manifest == Some(env.manifestBytes(last))
  {
    es := [StartEvent(first), StepEvent(m, SecondRound(m, outputs, packets)), StepEvent(n, Merged(n, t)),
           StepEvent(mid, Concluded(n, t))];
    hide CanonicalText, Listed;
    SameLists(first, m, n, outputs, packets, t);
  }

  lemma SameLists(first: Manifest, m: Manifest, n: Manifest, outputs: seq<Binding>, packets: seq<Binding>, t: Manifest)
    requires m == first.(checkpoint := m.checkpoint)
    ensures Listed(SecondRound(m, outputs, packets)) == Listed(SecondRound(first, outputs, packets))
    ensures Listed(Merged(n, t)) == Listed(Merged(first, t)) && Listed(Concluded(n, t)) == Listed(Concluded(first, t))
  {
  }

  /** Creation, second round, merging, completion: numbered, chained, and each listing what its manifest binds. */
  ghost predicate IsLifecycle(env: Env, es: seq<Event>, first: Manifest, outputs: seq<Binding>, packets: seq<Binding>,
                              t: Manifest)
    requires |es| == 4
  {
    && es[0].body == RunCreated(R1Running, Listed(first))
    && es[1].body == PhaseAdvanced(R1Running, R2Running, Listed(SecondRound(first, outputs, packets)))
    && es[2].body == PhaseAdvanced(R2Running, Merging, Listed(Merged(first, t)))
    && es[3].body == RunTerminalized(Merging, Completed, Listed(Concluded(first, t)),
                                     if t.result.Some? then Some(t.result.value.identity) else None, None)
    && (forall i :: 0 <= i < 4 ==> es[i].runId == first.runId && es[i].genesis == first.genesis && es[i].sequence == i)
    && es[0].previousSha256 == None
    && (forall i :: 0 < i < 4 ==> es[i].previousSha256 == Some(env.hash(LineText(env, es[i - 1]))))
  }

  /** Where every schema and check accepts, a run of five packets is created, advanced once its five outputs and the five
      packets of the second round are in, and advanced again once the finaliser's manifest is in: it ends at Completed,
      with every artifact the finaliser's, below the terminal directory, and the ledger has exactly four lines, each
      chained to the one before. */
  lemma LifecycleCompletes(env: Env, first: Manifest, w1: Work, w2: Work, outputs: seq<Binding>, packets: seq<Binding>,
                           t: Manifest, cut: nat)
    returns (es: seq<Event>, last: Manifest)
    requires env.Faithful() && Permissive(env) && (forall x :: w1.graphOk(x) && w2.graphOk(x))
    requires first.status == R1Running && first.termination == None && Sizes(first) == (5, 0, 0, 0, 0, false)
    requires w1.r1 == Some(FirstRound(outputs, packets)) && |outputs| == 5 && |packets| == 5
    requires w2.terminal == Some(t) && t.genesis == first.genesis
    ensures var created := Perform(env, EmptyDisk, Begin(first, 4, cut));
            var half := AdvanceSpec(env, created, w1, 4, cut);
            var done := AdvanceSpec(env, half.disk, w2, 8, cut);
            && half.outcome == Done && done.outcome == Done && done.disk.pending == None
            && done.disk.manifest.Some? && env.parseManifest(done.disk.manifest.value) == Some(last)
            && |es| == 4
            && done.disk.ledger == LineText(env, es[0]) + LineText(env, es[1]) + LineText(env, es[2]) + LineText(env, es[3])
    ensures last == Concluded(first, t).(checkpoint := Checkpoint(3, env.hash(LineText(env, es[3]))))
    ensures IsLifecycle(env, es, first, outputs, packets, t)
  {
    var m, n := FirstHalf(env, first, w1, outputs, packets, cut);
    var second := SecondRound(m, outputs, packets);
    var run, d := [first] + [second], StepDisk(env, StartDisk(env, first), m, second);
    hide AdvanceSpec, Perform, TransitionPlan, GraphOk, Passes, ValidCounts, At, CheckedRun, GrowingRun, CanonicalText,
         STEPS, ENDS, StepManifest, StartManifest, StepDisk, Merged, Concluded, IsLifecycle, StartDisk, LineText;
    FirstTwoObey(first, m, outputs, packets);
    GrowthPassesGraph(env, d, run, n, w2);
    var mid: Manifest;
    mid, last := SecondHalf(env, d, run, n, w2, t, cut);
    es := EventsOfLifecycle(env, first, m, n, mid, last, outputs, packets, t);
  }
}
