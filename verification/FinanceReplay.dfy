/** Deterministic replay: the ledger of a run rebuilt from its final manifest alone. */
module FinanceReplay {
  import opened Base
  import opened FinanceModel
  import opened FinanceLedger

  // ---- step-by-step execution ----------------------------------------------------

  /** What has been committed: the events so far and the manifest with its checkpoint. */
  datatype Progress = Progress(events: seq<Event>, last: Option<Manifest>)

  const Start := Progress([], None)

  function CheckpointFor(env: Env, e: Event): Checkpoint
  {
    Checkpoint(e.sequence, env.hash(LineText(env, e)))
  }

  function Advance(env: Env, p: Progress, target: Manifest): Result<Progress>
  {
    match BuildTransitionEvent(p.last, target)
    case Err => Err
    case Ok(e) =>
      if EventLine(env, e).Err? then Err
      else Ok(Progress(p.events + [e], Some(target.(checkpoint := CheckpointFor(env, e)))))
  }

  /** The transitions of a run committed one after the other. */
  function Execute(env: Env, run: seq<Manifest>): Result<Progress>
  {
    if run == [] then Ok(Start)
    else match Execute(env, run[..|run| - 1])
      case Err => Err
      case Ok(p) => Advance(env, p, run[|run| - 1])
  }

  datatype Replay = Replay(ledger: string, checkpoint: Checkpoint)

  function Summary(env: Env, p: Result<Progress>): Result<Replay>
  {
    match p
    case Ok(Progress(events, Some(m))) => Ok(Replay(ChainText(env, events), m.checkpoint))
    case _ => Err
  }

  /** Committed events always form a hash chain whose tail is the manifest's checkpoint. */
  lemma {:induction false} ExecutionIsChained(env: Env, run: seq<Manifest>)
    requires Execute(env, run).Ok?
    ensures var p := Execute(env, run).value;
            && |p.events| == |run|
            && IsChain(env, p.events)
            && (run == [] ==> p == Start)
            && (run != [] ==>
                  var e := p.events[|run| - 1];
                  && p.last == Some(run[|run| - 1].(checkpoint := CheckpointFor(env, e)))
                  && e.runId == run[|run| - 1].runId && e.genesis == run[|run| - 1].genesis)
    decreases |run|
  {
    if run != [] {
      var prefix, target := run[..|run| - 1], run[|run| - 1];
      ExecutionIsChained(env, prefix);
      var p := Execute(env, prefix).value;
      var e := BuildTransitionEvent(p.last, target).value;
      if prefix != [] {
        assert Linked(env, p.events, |prefix| - 1);
      }
      assert Linked(env, p.events + [e], |p.events|);
      ChainExtend(env, p.events, e);
    }
  }

  // ---- reconstruction from the final manifest ------------------------------------------

  function Placeholder(env: Env): Checkpoint
  {
    Checkpoint(0, env.hash("uncommitted finance transition"))
  }

  function AtR1(env: Env, m: Manifest): Manifest
  {
    m.(status := R1Running, termination := None, r2Packets := [], r1Outputs := [], r2Outputs := [],
       arbiterOutputs := [], result := None, checkpoint := Placeholder(env))
  }

  function AtR2(env: Env, m: Manifest): Manifest
  {
    m.(status := R2Running, termination := None, r2Outputs := [], arbiterOutputs := [], result := None,
       checkpoint := Placeholder(env))
  }

  function AtMerging(env: Env, m: Manifest): Manifest
  {
    m.(status := Merging, termination := None, result := None, checkpoint := Placeholder(env))
  }

  function TerminalPhase(m: Manifest): Option<Status>
  {
    if m.termination.Some? then Some(m.termination.value.phase) else None
  }

  /** The manifests a run must have passed through to end in this one. */
  function Stages(env: Env, target: Manifest): seq<Manifest>
  {
    var final := target.(checkpoint := Placeholder(env));
    if target.status == R1Running then [AtR1(env, target)]
    else if TerminalPhase(target) == Some(R1Running) then [AtR1(env, target), final]
    else if target.status == R2Running then [AtR1(env, target), AtR2(env, target)]
    else if TerminalPhase(target) == Some(R2Running) then [AtR1(env, target), AtR2(env, target), final]
    else if target.status == Merging then [AtR1(env, target), AtR2(env, target), AtMerging(env, target)]
    else [AtR1(env, target), AtR2(env, target), AtMerging(env, target), final]
  }

  /** The simple form of reconstruction: execute the stages. */
  function ExpectedSpec(env: Env, target: Manifest): Result<Replay>
  {
    if target.status == Preflight then Err else Summary(env, Execute(env, Stages(env, target)))
  }

  lemma ExecuteNext(env: Env, run: seq<Manifest>, k: nat)
    requires k < |run|
    ensures Execute(env, run[..k + 1]) ==
            match Execute(env, run[..k]) case Err => Err case Ok(p) => Advance(env, p, run[k])
  {
    assert run[..k + 1][..k] == run[..k];
  }

  lemma FailedPrefix(env: Env, run: seq<Manifest>, k: nat)
    requires k <= |run| && Execute(env, run[..k]).Err?
    ensures Execute(env, run).Err?
    decreases |run| - k
  {
    if k == |run| {
      assert run[..k] == run;
    } else {
      ExecuteNext(env, run, k);
      FailedPrefix(env, run, k + 1);
    }
  }

  /** What the first k stages have left behind. */
  ghost predicate Reached(env: Env, stages: seq<Manifest>, k: nat, prior: Option<Manifest>, ledger: string)
    requires k <= |stages|
  {
    match Execute(env, stages[..k])
    case Ok(p) => p.last == prior && ChainText(env, p.events) == ledger
    case Err => false
  }

  /** Reconstruction as the program runs it: one line at a time, the checkpoint numbers written out. */
  method ExpectedEventLedger(env: Env, target: Manifest) returns (r: Result<Replay>)
    ensures r == ExpectedSpec(env, target)
  {
    if target.status == Preflight {
      return Err;
    }
    ghost var stages := Stages(env, target);
    FirstReached(env, stages);
    var r1 := AtR1(env, target);
    var line := TransitionLine(env, None, r1, "", stages, 0);
    if line.Err? {
      return Err;
    }
    r1 := r1.(checkpoint := Checkpoint(0, env.hash(line.value)));
    var ledger := "" + line.value;
    if target.status == R1Running {
      return Ok(Replay(ledger, r1.checkpoint));
    }
    if TerminalPhase(target) == Some(R1Running) {
      r := Finish(env, r1, target, ledger, 1, stages);
    } else {
      r := AfterR1(env, target, r1, ledger, stages);
    }
  }

  /** The second transition and what follows it. */
  method AfterR1(env: Env, target: Manifest, r1: Manifest, ledger: string, ghost stages: seq<Manifest>)
    returns (r: Result<Replay>)
    requires stages == Stages(env, target) && target.status != R1Running
    requires TerminalPhase(target) != Some(R1Running)
    requires Reached(env, stages, 1, Some(r1), ledger)
    ensures r == Summary(env, Execute(env, stages))
  {
    var r2 := AtR2(env, target);
    var line := TransitionLine(env, Some(r1), r2, ledger, stages, 1);
    if line.Err? {
      return Err;
    }
    r2 := r2.(checkpoint := Checkpoint(1, env.hash(line.value)));
    var ledger' := ledger + line.value;
    if target.status == R2Running {
      return Ok(Replay(ledger', r2.checkpoint));
    }
    if TerminalPhase(target) == Some(R2Running) {
      r := Finish(env, r2, target, ledger', 2, stages);
    } else {
      r := AfterR2(env, target, r2, ledger', stages);
    }
  }

  /** The merging transition and the closing one. */
  method AfterR2(env: Env, target: Manifest, r2: Manifest, ledger: string, ghost stages: seq<Manifest>)
    returns (r: Result<Replay>)
    requires stages == Stages(env, target) && |stages| > 2 && stages[2] == AtMerging(env, target)
    requires target.status != Merging ==> |stages| == 4
    requires target.status == Merging ==> |stages| == 3
    requires Reached(env, stages, 2, Some(r2), ledger)
    ensures r == Summary(env, Execute(env, stages))
  {
    var merging := AtMerging(env, target);
    var line := TransitionLine(env, Some(r2), merging, ledger, stages, 2);
    if line.Err? {
      return Err;
    }
    merging := merging.(checkpoint := Checkpoint(2, env.hash(line.value)));
    var ledger' := ledger + line.value;
    if target.status == Merging {
      return Ok(Replay(ledger', merging.checkpoint));
    }
    r := Finish(env, merging, target, ledger', 3, stages);
  }

  /** The line of one transition. */
  method TransitionLine(env: Env, prior: Option<Manifest>, target: Manifest, ledger: string,
                        ghost stages: seq<Manifest>, ghost k: nat)
    returns (line: Result<string>)
    requires k < |stages| && stages[k] == target
    requires Reached(env, stages, k, prior, ledger)
    ensures line.Err? ==> Execute(env, stages).Err?
    ensures line.Ok? ==>
              var next := target.(checkpoint := Checkpoint(k, env.hash(line.value)));
              && Reached(env, stages, k + 1, Some(next), ledger + line.value)
              && (k + 1 == |stages| ==>
                    Summary(env, Execute(env, stages)) == Ok(Replay(ledger + line.value, next.checkpoint)))
  {
    var event := BuildTransitionEvent(prior, target);
    if event.Err? {
      StepFails(env, stages, k, prior, ledger);
      return Err;
    }
    line := EventLine(env, event.value);
    if line.Err? {
      StepFails(env, stages, k, prior, ledger);
      return;
    }
    StepReaches(env, stages, k, prior, ledger, event.value);
  }

  /** The closing transition to the target itself. */
  method Finish(env: Env, prior: Manifest, target: Manifest, ledger: string, sequence: nat,
                ghost stages: seq<Manifest>)
    returns (r: Result<Replay>)
    requires |stages| == sequence + 1
    requires stages[sequence] == target.(checkpoint := Placeholder(env))
    requires Reached(env, stages, sequence, Some(prior), ledger)
    ensures r == Summary(env, Execute(env, stages))
  {
    var final := target.(checkpoint := Placeholder(env));
    var line := TransitionLine(env, Some(prior), final, ledger, stages, sequence);
    if line.Err? {
      return Err;
    }
    return Ok(Replay(ledger + line.value, Checkpoint(sequence, env.hash(line.value))));
  }

  lemma FirstReached(env: Env, stages: seq<Manifest>)
    ensures Reached(env, stages, 0, None, "")
  {
    assert stages[..0] == [];
  }

  lemma StepFails(env: Env, stages: seq<Manifest>, k: nat, prior: Option<Manifest>, ledger: string)
    requires k < |stages| && Reached(env, stages, k, prior, ledger)
    requires BuildTransitionEvent(prior, stages[k]).Err? || EventLine(env, BuildTransitionEvent(prior, stages[k]).value).Err?
    ensures Execute(env, stages).Err?
  {
    ExecuteNext(env, stages, k);
    FailedPrefix(env, stages, k + 1);
  }

  lemma StepReaches(env: Env, stages: seq<Manifest>, k: nat, prior: Option<Manifest>, ledger: string, e: Event)
    requires k < |stages| && Reached(env, stages, k, prior, ledger)
    requires BuildTransitionEvent(prior, stages[k]) == Ok(e) && EventLine(env, e).Ok?
    ensures var next := stages[k].(checkpoint := Checkpoint(k, env.hash(LineText(env, e))));
            && Reached(env, stages, k + 1, Some(next), ledger + LineText(env, e))
            && (k + 1 == |stages| ==>
                  Summary(env, Execute(env, stages)) == Ok(Replay(ledger + LineText(env, e), next.checkpoint)))
  {
    ExecuteNext(env, stages, k);
    var p := Execute(env, stages[..k]).value;
    ExtendText(env, p.events, e);
    ExecutionIsChained(env, stages[..k + 1]);
    assert Linked(env, p.events + [e], k);
    if k + 1 == |stages| {
      assert stages[..k + 1] == stages;
    }
  }

  // ---- legal runs ------------------------------------------------------------------

  /** The manifest a run ends with, its checkpoint filled in. */
  function LastManifest(env: Env, run: seq<Manifest>): Option<Manifest>
    requires Execute(env, run).Ok?
  {
    Execute(env, run).value.last
  }

  ghost predicate LegalRun(run: seq<Manifest>)
  {
    && run != []
    && LegalTransition(None, run[0].status)
    && (forall i :: 0 < i < |run| ==> LegalTransition(Some(run[i - 1].status), run[i].status))
  }

  /** The declared last phase of a failed or cancelled run is the phase it left: the caller's obligation. */
  predicate PhaseMatches(prior: Manifest, next: Manifest)
  {
    next.termination.Some? ==> next.termination.value.phase == prior.status
  }

  predicate Kept(a: seq<Binding>, b: seq<Binding>)
  {
    a == [] || Ids(a) == Ids(b)
  }

  /** Accepted artifacts stay: the next manifest names the same ones, possibly under other paths, and more. */
  predicate Grows(prior: Manifest, next: Manifest)
  {
    && prior.runId == next.runId
    && prior.genesis == next.genesis
    && prior.policy.identity == next.policy.identity
    && prior.invocation.identity == next.invocation.identity
    && Ids(prior.r1Packets) == Ids(next.r1Packets)
    && Kept(prior.r2Packets, next.r2Packets)
    && Kept(prior.r1Outputs, next.r1Outputs)
    && Kept(prior.r2Outputs, next.r2Outputs)
    && Kept(prior.arbiterOutputs, next.arbiterOutputs)
  }

  ghost predicate GrowingRun(run: seq<Manifest>)
  {
    forall i :: 0 < i < |run| ==> Grows(run[i - 1], run[i])
  }

  /** A legal run whose manifests all pass the count and termination rules and declare the phase they left. */
  ghost predicate CheckedRun(run: seq<Manifest>)
  {
    && LegalRun(run)
    && (forall i :: 0 <= i < |run| ==> ValidCounts(run[i]) && ValidTermination(run[i]))
    && (forall i :: 0 < i < |run| ==> PhaseMatches(run[i - 1], run[i]))
  }

  function Rank(s: Status): nat
  {
    match s
    case Preflight => 4
    case R1Running => 3
    case R2Running => 2
    case Merging => 1
    case _ => 0
  }

  /** A phase rank falls with every event, so no phase is revisited and a run has at most four events. */
  lemma {:induction false} RankFalls(run: seq<Manifest>, i: nat, j: nat)
    requires LegalRun(run) && i < j < |run|
    ensures Rank(run[j].status) < Rank(run[i].status) <= 3
    ensures run[i].status != run[j].status
    ensures |run| <= 4
    decreases |run| - i, j
  {
    RankAt(run, i);
    RankAt(run, |run| - 1);
    var k := j;
    while k > i + 1
      invariant i < k <= j
      invariant Rank(run[j].status) <= Rank(run[k].status) - (j - k)
    {
      assert LegalTransition(Some(run[k - 1].status), run[k].status);
      k := k - 1;
    }
    assert LegalTransition(Some(run[k - 1].status), run[k].status);
  }

  lemma {:induction false} RankAt(run: seq<Manifest>, i: nat)
    requires LegalRun(run) && i < |run|
    ensures Rank(run[i].status) + i <= 3
  {
    if i > 0 {
      RankAt(run, i - 1);
      assert LegalTransition(Some(run[i - 1].status), run[i].status);
    }
  }

  // ---- evidence only grows -----------------------------------------------------------

  lemma GrowsIsTransitive(a: Manifest, b: Manifest, c: Manifest)
    requires Grows(a, b) && Grows(b, c)
    ensures Grows(a, c)
  {
    assert |b.r2Packets| == |Ids(b.r2Packets)| && |b.r1Outputs| == |Ids(b.r1Outputs)|;
    assert |b.r2Outputs| == |Ids(b.r2Outputs)| && |b.arbiterOutputs| == |Ids(b.arbiterOutputs)|;
    assert |Ids(a.r2Packets)| == |a.r2Packets| && |Ids(a.r1Outputs)| == |a.r1Outputs|;
    assert |Ids(a.r2Outputs)| == |a.r2Outputs| && |Ids(a.arbiterOutputs)| == |a.arbiterOutputs|;
  }

  lemma GrowsToLast(run: seq<Manifest>, i: nat)
    requires GrowingRun(run) && i < |run|
    ensures Grows(run[i], run[|run| - 1])
    decreases |run| - i
  {
    if i + 1 < |run| {
      assert Grows(run[i + 1 - 1], run[i + 1]);
      GrowsToLast(run, i + 1);
      GrowsIsTransitive(run[i], run[i + 1], run[|run| - 1]);
    }
  }

  lemma IdsConcat(a: seq<Binding>, b: seq<Binding>)
    ensures Ids(a + b) == Ids(a) + Ids(b)
  {
  }

  /** The identity list, field by field. */
  lemma ArtifactIdsSplit(m: Manifest)
    ensures ArtifactIds(m) ==
            [m.policy.identity] + [m.invocation.identity] + Ids(m.r1Packets) + Ids(m.r2Packets)
            + Ids(m.r1Outputs) + Ids(m.r2Outputs) + Ids(m.arbiterOutputs) + ResultIds(m.result)
  {
    var s1 := [m.policy] + [m.invocation];
    var s2 := s1 + m.r1Packets;
    var s3 := s2 + m.r2Packets;
    var s4 := s3 + m.r1Outputs;
    var s5 := s4 + m.r2Outputs;
    var s6 := s5 + m.arbiterOutputs;
    IdsConcat([m.policy], [m.invocation]);
    IdsConcat(s1, m.r1Packets);
    IdsConcat(s2, m.r2Packets);
    IdsConcat(s3, m.r1Outputs);
    IdsConcat(s4, m.r2Outputs);
    IdsConcat(s5, m.arbiterOutputs);
    IdsConcat(s6, if m.result.Some? then [m.result.value] else []);
    assert Ids([m.policy]) == [m.policy.identity] && Ids([m.invocation]) == [m.invocation.identity];
    assert Ids(if m.result.Some? then [m.result.value] else []) == ResultIds(m.result);
  }

  lemma GrowthExtends(run: seq<Manifest>, i: nat)
    requires CheckedRun(run) && 0 < i < |run| && Grows(run[i - 1], run[i])
    ensures ArtifactIds(run[i - 1]) <= ArtifactIds(run[i])
  {
    var a, b := run[i - 1], run[i];
    assert LegalTransition(Some(run[i - 1].status), run[i].status);
    assert PhaseMatches(run[i - 1], run[i]);
    assert ValidCounts(a) && ValidCounts(b) && ValidTermination(a) && ValidTermination(b);
    ArtifactIdsSplit(a);
    ArtifactIdsSplit(b);
    var base := [a.policy.identity] + [a.invocation.identity] + Ids(a.r1Packets);
    assert base == [b.policy.identity] + [b.invocation.identity] + Ids(b.r1Packets);
    if a.status == R1Running {
      assert ArtifactIds(a) == base;
    } else {
      assert Ids(a.r2Packets) == Ids(b.r2Packets) && Ids(a.r1Outputs) == Ids(b.r1Outputs);
    }
  }

  lemma PrefixCut(a: seq<Identity>, x: seq<Identity>, b: seq<Identity>, y: seq<Identity>)
    requires a + x <= b + y && |a| == |b|
    ensures a == b && x <= y
  {
    assert a == (a + x)[..|a|] && b == (b + y)[..|a|];
    assert x == (a + x)[|a|..] && y == (b + y)[|a|..];
  }

  /** The identity list behind the first k fields. */
  function Fields(m: Manifest, k: nat): seq<Identity>
  {
    if k == 0 then
      Ids(m.r1Packets)
      + (Ids(m.r2Packets) + (Ids(m.r1Outputs) + (Ids(m.r2Outputs) + (Ids(m.arbiterOutputs) + ResultIds(m.result)))))
    else if k == 1 then
      Ids(m.r2Packets) + (Ids(m.r1Outputs) + (Ids(m.r2Outputs) + (Ids(m.arbiterOutputs) + ResultIds(m.result))))
    else if k == 2 then Ids(m.r1Outputs) + (Ids(m.r2Outputs) + (Ids(m.arbiterOutputs) + ResultIds(m.result)))
    else if k == 3 then Ids(m.r2Outputs) + (Ids(m.arbiterOutputs) + ResultIds(m.result))
    else Ids(m.arbiterOutputs) + ResultIds(m.result)
  }

  lemma ListsFields(m: Manifest)
    ensures ArtifactIds(m) == [m.policy.identity] + [m.invocation.identity] + Fields(m, 0)
  {
    ArtifactIdsSplit(m);
  }

  /** Under the count rule a list that extends its predecessor's keeps every accepted artifact. */
  lemma ExtensionGrows(run: seq<Manifest>, i: nat)
    requires CheckedRun(run) && 0 < i < |run|
    requires run[i - 1].runId == run[i].runId && run[i - 1].genesis == run[i].genesis
    requires ArtifactIds(run[i - 1]) <= ArtifactIds(run[i])
    ensures Grows(run[i - 1], run[i])
  {
    var a, b := run[i - 1], run[i];
    assert LegalTransition(Some(run[i - 1].status), run[i].status);
    assert PhaseMatches(run[i - 1], run[i]);
    assert ValidCounts(a) && ValidCounts(b) && ValidTermination(a) && ValidTermination(b);
    ListsFields(a);
    ListsFields(b);
    var heada, headb := [a.policy.identity] + [a.invocation.identity], [b.policy.identity] + [b.invocation.identity];
    PrefixCut(heada, Fields(a, 0), headb, Fields(b, 0));
    assert heada[0] == headb[0] && heada[1] == headb[1];
    PrefixCut(Ids(a.r1Packets), Fields(a, 1), Ids(b.r1Packets), Fields(b, 1));
    if a.status != R1Running {
      PrefixCut(Ids(a.r2Packets), Fields(a, 2), Ids(b.r2Packets), Fields(b, 2));
      PrefixCut(Ids(a.r1Outputs), Fields(a, 3), Ids(b.r1Outputs), Fields(b, 3));
      if a.status != R2Running {
        PrefixCut(Ids(a.r2Outputs), Fields(a, 4), Ids(b.r2Outputs), Fields(b, 4));
        PrefixCut(Ids(a.arbiterOutputs), ResultIds(a.result), Ids(b.arbiterOutputs), ResultIds(b.result));
      }
    }
  }

  // ---- the ledger depends on identities only -------------------------------------------

  /** What the event for a manifest depends on. */
  ghost predicate SameRecord(m: Manifest, n: Manifest)
  {
    && m.runId == n.runId
    && m.genesis == n.genesis
    && m.status == n.status
    && m.termination == n.termination
    && ArtifactIds(m) == ArtifactIds(n)
    && ResultId(m.result) == ResultId(n.result)
  }

  ghost predicate SameRecords(a: seq<Manifest>, b: seq<Manifest>)
  {
    |a| == |b| && forall i :: 0 <= i < |a| ==> SameRecord(a[i], b[i])
  }

  /** Runs with the same records leave the same ledger and checkpoint. */
  lemma {:induction false} ExecutionSeesRecords(env: Env, a: seq<Manifest>, b: seq<Manifest>)
    requires SameRecords(a, b)
    ensures Execute(env, a).Ok? <==> Execute(env, b).Ok?
    ensures Execute(env, a).Ok? ==>
              && Execute(env, a).value.events == Execute(env, b).value.events
              && (a != [] ==> Execute(env, a).value.last.Some? && Execute(env, b).value.last.Some?)
              && (a != [] ==> Execute(env, a).value.last.value.checkpoint == Execute(env, b).value.last.value.checkpoint)
              && (a != [] ==> SameRecord(Execute(env, a).value.last.value, Execute(env, b).value.last.value))
    decreases |a|
  {
    if a != [] {
      var n := |a| - 1;
      ExecutionSeesRecords(env, a[..n], b[..n]);
      assert SameRecord(a[n], b[n]);
      if Execute(env, a[..n]).Ok? {
        AdvanceSeesRecords(env, Execute(env, a[..n]).value, Execute(env, b[..n]).value, a[n], b[n]);
      }
    }
  }

  lemma SameCheckpointKeepsRecord(m: Manifest, n: Manifest, c: Checkpoint, d: Checkpoint)
    requires SameRecord(m, n)
    ensures SameRecord(m.(checkpoint := c), n.(checkpoint := d))
  {
    assert Bindings(m.(checkpoint := c)) == Bindings(m) && Bindings(n.(checkpoint := d)) == Bindings(n);
  }

  lemma AdvanceSeesRecords(env: Env, p: Progress, q: Progress, m: Manifest, n: Manifest)
    requires SameRecord(m, n) && p.events == q.events
    requires p.last.Some? <==> q.last.Some?
    requires p.last.Some? ==>
               SameRecord(p.last.value, q.last.value) && p.last.value.checkpoint == q.last.value.checkpoint
    ensures BuildTransitionEvent(p.last, m) == BuildTransitionEvent(q.last, n)
    ensures Advance(env, p, m).Ok? <==> Advance(env, q, n).Ok?
    ensures Advance(env, p, m).Ok? ==>
              var p', q' := Advance(env, p, m).value, Advance(env, q, n).value;
              && p'.events == q'.events
              && p'.last.Some? && q'.last.Some?
              && p'.last.value.checkpoint == q'.last.value.checkpoint
              && SameRecord(p'.last.value, q'.last.value)
  {
    if Advance(env, p, m).Ok? {
      var c := Advance(env, p, m).value.last.value.checkpoint;
      SameCheckpointKeepsRecord(m, n, c, c);
    }
  }

  // ---- replay refines execution ----------------------------------------------------------

  lemma SameIds(m: Manifest, n: Manifest)
    requires m.policy.identity == n.policy.identity && m.invocation.identity == n.invocation.identity
    requires Ids(m.r1Packets) == Ids(n.r1Packets) && Ids(m.r2Packets) == Ids(n.r2Packets)
    requires Ids(m.r1Outputs) == Ids(n.r1Outputs) && Ids(m.r2Outputs) == Ids(n.r2Outputs)
    requires Ids(m.arbiterOutputs) == Ids(n.arbiterOutputs) && ResultId(m.result) == ResultId(n.result)
    ensures ArtifactIds(m) == ArtifactIds(n)
  {
    ArtifactIdsSplit(m);
    ArtifactIdsSplit(n);
    assert ResultIds(m.result) == ResultIds(n.result);
  }

  /** The statuses a checked run ending in this manifest has gone through. */
  lemma StageCount(env: Env, run: seq<Manifest>)
    requires CheckedRun(run)
    ensures var m := run[|run| - 1];
            && m.status != Preflight
            && |Stages(env, m)| == |run|
            && forall i :: 0 <= i < |run| ==>
                 Stages(env, m)[i].status == run[i].status && Stages(env, m)[i].termination == run[i].termination
  {
    forall i | 0 <= i < |run| ensures Rank(run[i].status) + i <= 3 {
      RankAt(run, i);
    }
    assert ValidTermination(run[0]);
    if |run| > 1 {
      assert LegalTransition(Some(run[1 - 1].status), run[1].status);
      assert PhaseMatches(run[1 - 1], run[1]);
      assert ValidTermination(run[1]) && ValidCounts(run[1]);
    }
    if |run| > 2 {
      assert LegalTransition(Some(run[2 - 1].status), run[2].status);
      assert PhaseMatches(run[2 - 1], run[2]);
      assert ValidTermination(run[2]) && ValidCounts(run[2]);
    }
    if |run| > 3 {
      assert LegalTransition(Some(run[3 - 1].status), run[3].status);
      assert PhaseMatches(run[3 - 1], run[3]);
      assert ValidTermination(run[3]) && ValidCounts(run[3]);
    }
  }

  /** Stage number i records exactly what the run recorded at step i. */
  lemma StageRecord(env: Env, run: seq<Manifest>, i: nat)
    requires CheckedRun(run) && GrowingRun(run) && i < |run|
    requires |Stages(env, run[|run| - 1])| == |run|
    requires Stages(env, run[|run| - 1])[i].status == run[i].status
    requires Stages(env, run[|run| - 1])[i].termination == run[i].termination
    ensures SameRecord(run[i], Stages(env, run[|run| - 1])[i])
  {
    var m, s := run[|run| - 1], Stages(env, run[|run| - 1])[i];
    GrowsToLast(run, i);
    assert ValidCounts(run[i]) && ValidTermination(run[i]);
    if i == |run| - 1 {
      LastStageRecord(env, run);
    } else {
      assert run[i].status == R1Running || run[i].status == R2Running || run[i].status == Merging by {
        assert LegalTransition(Some(run[i + 1 - 1].status), run[i + 1].status);
      }
      SameIds(run[i], s);
    }
  }

  lemma LastStageRecord(env: Env, run: seq<Manifest>)
    requires CheckedRun(run) && |Stages(env, run[|run| - 1])| == |run|
    ensures SameRecord(run[|run| - 1], Stages(env, run[|run| - 1])[|run| - 1])
  {
    var m, s := run[|run| - 1], Stages(env, run[|run| - 1])[|run| - 1];
    assert ValidCounts(m) && ValidTermination(m);
    SameIds(m, s);
  }

  /** Incremental execution refines reconstruction: the ledger and checkpoint a checked run leaves
      are the ones rebuilt from its last manifest, and one is refused exactly when the other is. */
  lemma ReplayRefinesExecution(env: Env, run: seq<Manifest>)
    requires CheckedRun(run) && GrowingRun(run)
    ensures ExpectedSpec(env, run[|run| - 1]) == Summary(env, Execute(env, run))
  {
    var m := run[|run| - 1];
    StageCount(env, run);
    forall i | 0 <= i < |run| ensures SameRecord(run[i], Stages(env, m)[i]) {
      StageRecord(env, run, i);
    }
    ExecutionSeesRecords(env, run, Stages(env, m));
    if Execute(env, run).Ok? {
      ExecutionIsChained(env, run);
      ExecutionIsChained(env, Stages(env, m));
    }
  }

  // ---- paths do not matter ------------------------------------------------------------------

  /** Two manifests that bind the same artifacts, whatever the paths and the stored checkpoint. */
  ghost predicate SameArtifacts(m: Manifest, n: Manifest)
  {
    && m.runId == n.runId && m.genesis == n.genesis
    && m.status == n.status && m.termination == n.termination
    && m.policy.identity == n.policy.identity && m.invocation.identity == n.invocation.identity
    && Ids(m.r1Packets) == Ids(n.r1Packets) && Ids(m.r2Packets) == Ids(n.r2Packets)
    && Ids(m.r1Outputs) == Ids(n.r1Outputs) && Ids(m.r2Outputs) == Ids(n.r2Outputs)
    && Ids(m.arbiterOutputs) == Ids(n.arbiterOutputs) && ResultId(m.result) == ResultId(n.result)
  }

  lemma SameArtifactsSameRecord(m: Manifest, n: Manifest)
    requires SameArtifacts(m, n)
    ensures SameRecord(m, n)
  {
    SameIds(m, n);
  }

  lemma RelocatedProjections(env: Env, m: Manifest, n: Manifest)
    requires SameArtifacts(m, n)
    ensures SameArtifacts(AtR1(env, m), AtR1(env, n))
    ensures SameArtifacts(AtR2(env, m), AtR2(env, n))
    ensures SameArtifacts(AtMerging(env, m), AtMerging(env, n))
    ensures SameArtifacts(m.(checkpoint := Placeholder(env)), n.(checkpoint := Placeholder(env)))
  {
  }

  lemma RelocatedStage(env: Env, m: Manifest, n: Manifest, i: nat)
    requires SameArtifacts(m, n) && i < |Stages(env, m)|
    ensures |Stages(env, n)| == |Stages(env, m)|
    ensures SameRecord(Stages(env, m)[i], Stages(env, n)[i])
  {
    RelocatedProjections(env, m, n);
    assert SameArtifacts(Stages(env, m)[i], Stages(env, n)[i]);
    SameArtifactsSameRecord(Stages(env, m)[i], Stages(env, n)[i]);
  }

  /** Reconstruction is blind to artifact paths. */
  lemma RelocationKeepsLedger(env: Env, m: Manifest, n: Manifest)
    requires SameArtifacts(m, n)
    ensures ExpectedSpec(env, m) == ExpectedSpec(env, n)
  {
    var a, b := Stages(env, m), Stages(env, n);
    forall i | 0 <= i < |a| ensures |a| == |b| && SameRecord(a[i], b[i]) {
      RelocatedStage(env, m, n, i);
    }
    ExecutionSeesRecords(env, a, b);
    if Execute(env, a).Ok? {
      ExecutionIsChained(env, a);
      ExecutionIsChained(env, b);
    }
  }

  function TerminalRef(b: Binding): Binding
  {
    b.(artifactRef := "terminal/" + b.artifactRef)
  }

  function TerminalRefs(bs: seq<Binding>): (r: seq<Binding>)
    ensures |r| == |bs| && Ids(r) == Ids(bs)
  {
    seq(|bs|, i requires 0 <= i < |bs| => TerminalRef(bs[i]))
  }

  /** The manifest with every reference moved below the terminal directory. */
  function Prefixed(m: Manifest): Manifest
  {
    m.(policy := TerminalRef(m.policy), invocation := TerminalRef(m.invocation),
       r1Packets := TerminalRefs(m.r1Packets), r2Packets := TerminalRefs(m.r2Packets),
       r1Outputs := TerminalRefs(m.r1Outputs), r2Outputs := TerminalRefs(m.r2Outputs),
       arbiterOutputs := TerminalRefs(m.arbiterOutputs),
       result := if m.result.Some? then Some(TerminalRef(m.result.value)) else None)
  }

  /** The staged lifecycle, which ends in the terminal-prefixed graph, and the one-shot finaliser,
      which rebuilds from its own unprefixed manifest, leave the same ledger and checkpoint. */
  lemma StagedEqualsOneShot(env: Env, run: seq<Manifest>, oneShot: Manifest, stored: Checkpoint)
    requires CheckedRun(run) && GrowingRun(run)
    requires run[|run| - 1] == Prefixed(oneShot).(checkpoint := stored)
    ensures ExpectedSpec(env, oneShot) == Summary(env, Execute(env, run))
  {
    ReplayRefinesExecution(env, run);
    RelocationKeepsLedger(env, run[|run| - 1], oneShot);
  }

  // ---- the replay check accepts exactly the runs that lost nothing ------------------------------

  lemma EventsRecordArtifacts(env: Env, run: seq<Manifest>, i: nat)
    requires Execute(env, run).Ok? && i < |run|
    ensures |Execute(env, run).value.events| == |run|
    ensures Execute(env, run).value.events[i].body.artifacts == ArtifactIds(run[i])
    ensures Execute(env, run).value.events[i].runId == run[i].runId
    ensures Execute(env, run).value.events[i].genesis == run[i].genesis
    decreases |run|
  {
    var n := |run| - 1;
    ExecutionIsChained(env, run);
    ExecutionIsChained(env, run[..n]);
    if i < n {
      EventsRecordArtifacts(env, run[..n], i);
    }
  }

  lemma SameTextSameEvents(env: Env, es: seq<Event>, fs: seq<Event>)
    requires env.Faithful() && IsChain(env, es) && IsChain(env, fs)
    requires ChainText(env, es) == ChainText(env, fs)
    ensures es == fs
  {
    ReaderAcceptsChains(env, es);
    ReaderAcceptsChains(env, fs);
  }

  lemma CutEqual(a: seq<Identity>, b: seq<Identity>, c: seq<Identity>, d: seq<Identity>)
    requires a + b == c + d && |a| == |c|
    ensures a == c && b == d
  {
    assert a == (a + b)[..|a|] && b == (a + b)[|a|..];
    assert c == (c + d)[..|a|] && d == (c + d)[|a|..];
  }

  /** With equal counts, equal identity lists agree field by field. */
  lemma FieldsAgree(m: Manifest, n: Manifest)
    requires CountsOf(m) == CountsOf(n) && ArtifactIds(m) == ArtifactIds(n)
    ensures m.policy.identity == n.policy.identity && m.invocation.identity == n.invocation.identity
    ensures Ids(m.r1Packets) == Ids(n.r1Packets) && Ids(m.r2Packets) == Ids(n.r2Packets)
    ensures Ids(m.r1Outputs) == Ids(n.r1Outputs) && Ids(m.r2Outputs) == Ids(n.r2Outputs)
    ensures Ids(m.arbiterOutputs) == Ids(n.arbiterOutputs)
  {
    ArtifactIdsSplit(m);
    ArtifactIdsSplit(n);
    var m1 := [m.policy.identity] + [m.invocation.identity];
    var n1 := [n.policy.identity] + [n.invocation.identity];
    var m2, n2 := m1 + Ids(m.r1Packets), n1 + Ids(n.r1Packets);
    var m3, n3 := m2 + Ids(m.r2Packets), n2 + Ids(n.r2Packets);
    var m4, n4 := m3 + Ids(m.r1Outputs), n3 + Ids(n.r1Outputs);
    var m5, n5 := m4 + Ids(m.r2Outputs), n4 + Ids(n.r2Outputs);
    var m6, n6 := m5 + Ids(m.arbiterOutputs), n5 + Ids(n.arbiterOutputs);
    CutEqual(m6, ResultIds(m.result), n6, ResultIds(n.result));
    CutEqual(m5, Ids(m.arbiterOutputs), n5, Ids(n.arbiterOutputs));
    CutEqual(m4, Ids(m.r2Outputs), n4, Ids(n.r2Outputs));
    CutEqual(m3, Ids(m.r1Outputs), n3, Ids(n.r1Outputs));
    CutEqual(m2, Ids(m.r2Packets), n2, Ids(n.r2Packets));
    CutEqual(m1, Ids(m.r1Packets), n1, Ids(n.r1Packets));
    assert m1[0] == n1[0] && m1[1] == n1[1];
  }

  /** A manifest of the run agrees with the last one on everything it had accepted. */
  ghost predicate Retained(m: Manifest, last: Manifest)
  {
    && m.policy.identity == last.policy.identity && m.invocation.identity == last.invocation.identity
    && Ids(m.r1Packets) == Ids(last.r1Packets)
    && (m.r2Packets != [] ==> Ids(m.r2Packets) == Ids(last.r2Packets))
    && (m.r1Outputs != [] ==> Ids(m.r1Outputs) == Ids(last.r1Outputs))
    && (m.r2Outputs != [] ==> Ids(m.r2Outputs) == Ids(last.r2Outputs))
    && (m.arbiterOutputs != [] ==> Ids(m.arbiterOutputs) == Ids(last.arbiterOutputs))
  }

  lemma StageRetains(env: Env, run: seq<Manifest>, i: nat)
    requires CheckedRun(run) && i < |run|
    requires |Stages(env, run[|run| - 1])| == |run|
    requires Stages(env, run[|run| - 1])[i].status == run[i].status
    requires ArtifactIds(run[i]) == ArtifactIds(Stages(env, run[|run| - 1])[i])
    ensures Retained(run[i], run[|run| - 1])
  {
    hide ArtifactIds;
    var m, s := run[|run| - 1], Stages(env, run[|run| - 1])[i];
    assert ValidCounts(run[i]) && ValidTermination(run[i]);
    assert ValidCounts(m) && ValidTermination(m);
    if i < |run| - 1 {
      assert LegalTransition(Some(run[i + 1 - 1].status), run[i + 1].status);
      FieldsAgree(run[i], s);
    }
  }

  lemma RetainedGrows(run: seq<Manifest>, i: nat)
    requires CheckedRun(run) && 0 < i < |run|
    requires Retained(run[i - 1], run[|run| - 1]) && Retained(run[i], run[|run| - 1])
    requires run[i - 1].runId == run[i].runId && run[i - 1].genesis == run[i].genesis
    ensures Grows(run[i - 1], run[i])
  {
    assert LegalTransition(Some(run[i - 1].status), run[i].status);
    assert PhaseMatches(run[i - 1], run[i]);
    assert ValidCounts(run[i - 1]) && ValidTermination(run[i - 1]);
    assert ValidCounts(run[i]) && ValidTermination(run[i]);
  }

  lemma ReplayRetains(env: Env, run: seq<Manifest>, i: nat)
    requires env.Faithful() && CheckedRun(run) && Execute(env, run).Ok? && i < |run|
    requires Execute(env, Stages(env, run[|run| - 1])).Ok?
    requires Execute(env, Stages(env, run[|run| - 1])).value.events == Execute(env, run).value.events
    ensures Retained(run[i], run[|run| - 1])
  {
    StageCount(env, run);
    EventsRecordArtifacts(env, run, i);
    EventsRecordArtifacts(env, Stages(env, run[|run| - 1]), i);
    StageRetains(env, run, i);
  }

  lemma NeighboursShareRun(env: Env, run: seq<Manifest>, i: nat)
    requires Execute(env, run).Ok? && 0 < i < |run|
    ensures run[i - 1].runId == run[i].runId && run[i - 1].genesis == run[i].genesis
  {
    EventsRecordArtifacts(env, run, i - 1);
    EventsRecordArtifacts(env, run, i);
    ExecutionIsChained(env, run);
    var es := Execute(env, run).value.events;
    assert Linked(env, es, i - 1) && Linked(env, es, i);
  }

  lemma EqualReplaySameEvents(env: Env, run: seq<Manifest>)
    requires env.Faithful() && CheckedRun(run) && Execute(env, run).Ok?
    requires ExpectedSpec(env, run[|run| - 1]) == Summary(env, Execute(env, run))
    ensures Execute(env, Stages(env, run[|run| - 1])).Ok?
    ensures Execute(env, Stages(env, run[|run| - 1])).value.events == Execute(env, run).value.events
  {
    ExecutionIsChained(env, run);
    StageCount(env, run);
    var stages := Stages(env, run[|run| - 1]);
    assert Summary(env, Execute(env, run)).Ok?;
    ExecutionIsChained(env, stages);
    SameTextSameEvents(env, Execute(env, run).value.events, Execute(env, stages).value.events);
  }

  /** For an executed run that passes the rules, the stored ledger is the one rebuilt from the last
      manifest exactly when no accepted artifact was exchanged or dropped along the way. */
  lemma ReplayAcceptsExactlyGrowth(env: Env, run: seq<Manifest>)
    requires env.Faithful() && CheckedRun(run) && Execute(env, run).Ok?
    ensures ExpectedSpec(env, run[|run| - 1]) == Summary(env, Execute(env, run)) <==> GrowingRun(run)
  {
    assert run != [];
    hide Execute, ExpectedSpec, Summary, Grows, CheckedRun, Retained;
    if GrowingRun(run) {
      ReplayRefinesExecution(env, run);
    }
    if ExpectedSpec(env, run[|run| - 1]) == Summary(env, Execute(env, run)) {
      EqualReplaySameEvents(env, run);
      forall i | 0 < i < |run| ensures Grows(run[i - 1], run[i]) {
        ReplayRetains(env, run, i - 1);
        ReplayRetains(env, run, i);
        NeighboursShareRun(env, run, i);
        RetainedGrows(run, i);
      }
    }
  }

  /** Each event's artifact list is a prefix of the next one's. */
  ghost predicate EvidenceGrows(env: Env, run: seq<Manifest>)
    requires Execute(env, run).Ok?
  {
    var es := Execute(env, run).value.events;
    forall i :: 0 < i < |es| ==> es[i - 1].body.artifacts <= es[i].body.artifacts
  }

  lemma EventsExtend(env: Env, run: seq<Manifest>, i: nat)
    requires CheckedRun(run) && Execute(env, run).Ok? && 0 < i < |run|
    ensures |Execute(env, run).value.events| == |run|
    ensures Execute(env, run).value.events[i - 1].body.artifacts <= Execute(env, run).value.events[i].body.artifacts
            <==> Grows(run[i - 1], run[i])
  {
    EventsRecordArtifacts(env, run, i - 1);
    EventsRecordArtifacts(env, run, i);
    NeighboursShareRun(env, run, i);
    if ArtifactIds(run[i - 1]) <= ArtifactIds(run[i]) {
      ExtensionGrows(run, i);
    }
    if Grows(run[i - 1], run[i]) {
      GrowthExtends(run, i);
    }
  }

  lemma ExtensionIsGrowth(env: Env, run: seq<Manifest>)
    requires CheckedRun(run) && Execute(env, run).Ok?
    ensures EvidenceGrows(env, run) <==> GrowingRun(run)
  {
    ExecutionIsChained(env, run);
    hide Execute, CheckedRun, Grows;
    var es := Execute(env, run).value.events;
    forall i | 0 < i < |run| ensures es[i - 1].body.artifacts <= es[i].body.artifacts <==> Grows(run[i - 1], run[i]) {
      EventsExtend(env, run, i);
    }
  }

  /** When evidence only grows: for an executed run that obeys every rule, each event's artifact list is a prefix of the
      next one's exactly when no transition dropped or exchanged an accepted artifact, and exactly when the replay check
      accepts the ledger. The rules alone do not give it. */
  lemma EvidenceOnlyGrows(env: Env, run: seq<Manifest>)
    requires env.Faithful() && CheckedRun(run) && Execute(env, run).Ok?
    ensures EvidenceGrows(env, run) <==> GrowingRun(run)
    ensures EvidenceGrows(env, run) <==> ExpectedSpec(env, run[|run| - 1]) == Summary(env, Execute(env, run))
  {
    hide EvidenceGrows, GrowingRun, CheckedRun, Execute, ExpectedSpec, Summary;
    ExtensionIsGrowth(env, run);
    ReplayAcceptsExactlyGrowth(env, run);
  }

  // ---- a run the replay check refuses -----------------------------------------------------------

  function Sample(name: string): Binding
  {
    Binding(name, Identity("artifact", None, "1.0", name, "domain", name))
  }

  function Five(name: string): seq<Binding>
  {
    [Sample(name), Sample(name), Sample(name), Sample(name), Sample(name)]
  }

  /** A run in its first round. */
  function FirstSample(): Manifest
  {
    Manifest("run", "genesis", Checkpoint(0, ""), R1Running, None, Sample("policy"), Sample("invocation"),
             Five("packet"), [], [], [], [], None)
  }

  function SecondSample(packets: seq<Binding>): Manifest
  {
    FirstSample().(status := R2Running, r1Packets := packets, r2Packets := Five("second"), r1Outputs := Five("output"))
  }

  /** Environments whose schemas and artifact checks accept everything. */
  ghost predicate Permissive(env: Env)
  {
    (forall j :: env.eventSchema(j)) && (forall m :: env.manifestSchema(m) && env.artifactsOk(m))
  }

  lemma TwoStepsExecute(env: Env, a: Manifest, b: Manifest)
    requires Permissive(env) && a.status == R1Running && b.status in {R2Running, Failed}
    requires a.runId == b.runId && a.genesis == b.genesis
    ensures Execute(env, [a]).Ok? && LastManifest(env, [a]).Some? && LastManifest(env, [a]).value.status == R1Running
    ensures Execute(env, [a, b]).Ok?
  {
    assert [a][..0] == [] && [a, b][..1] == [a];
    assert Execute(env, [a]) == Advance(env, Start, a);
  }

  /** A run that obeys every rule but exchanges its packets: it executes, its artifact lists do not grow, and the replay
      check refuses its ledger. */
  lemma ExchangedArtifactIsRefused(env: Env)
    requires env.Faithful() && Permissive(env)
    ensures var run := [FirstSample(), SecondSample(Five("other"))];
            && CheckedRun(run) && Execute(env, run).Ok?
            && !EvidenceGrows(env, run)
            && ExpectedSpec(env, run[1]) != Summary(env, Execute(env, run))
  {
    var run := [FirstSample(), SecondSample(Five("other"))];
    TwoStepsExecute(env, run[0], run[1]);
    assert !Grows(run[1 - 1], run[1]) by {
      assert Ids(run[0].r1Packets)[0].exactSha256 == "packet" && Ids(run[1].r1Packets)[0].exactSha256 == "other";
      assert "packet"[0] != "other"[0];
    }
    EvidenceOnlyGrows(env, run);
  }
}
