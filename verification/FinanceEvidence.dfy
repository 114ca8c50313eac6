/** What advancing does to the evidence of a run: its artifact lists, and the ledger the finaliser rebuilds. */
module FinanceEvidence {
  import opened Base
  import opened FinanceModel
  import opened FinanceLedger
  import opened FinanceReplay
  import opened FinanceJournal
  import opened FinanceLifecycle

  /** The finaliser's manifest binds the artifacts that the run in its second round already holds. */
  predicate Binds(t: Manifest, m: Manifest)
  {
    && t.policy.identity == m.policy.identity && t.invocation.identity == m.invocation.identity
    && Ids(t.r1Packets) == Ids(m.r1Packets)
    && Ids(t.r2Packets) == Ids(m.r2Packets) && Ids(t.r1Outputs) == Ids(m.r1Outputs)
  }

  // ---- runs driven by advancing --------------------------------------------------------------------

  ghost predicate FirstAdvance(a: Manifest, b: Manifest, work: Work)
  {
    exists c :: NextTargets(a.(checkpoint := c), work) == Ok([b])
  }

  ghost predicate SecondAdvance(a: Manifest, targets: seq<Manifest>, work: Work)
  {
    exists c :: NextTargets(a.(checkpoint := c), work).Ok? && targets <= NextTargets(a.(checkpoint := c), work).value
  }

  /** Every manifest after the first is the one that advancing its predecessor moves to, whatever its checkpoint. */
  ghost predicate Driven(run: seq<Manifest>, first: Work, second: Work)
  {
    && run != [] && run[0].status == R1Running
    && (|run| > 1 ==> FirstAdvance(run[0], run[1], first))
    && (|run| > 2 ==> SecondAdvance(run[1], run[2..], second))
  }

  lemma FirstAdvanceGrows(a: Manifest, b: Manifest, work: Work)
    requires a.status == R1Running && ValidCounts(a) && FirstAdvance(a, b, work)
    ensures b.status == R2Running && Grows(a, b)
  {
  }

  /** Moving to Merging keeps the evidence exactly when the finaliser's manifest binds it. */
  lemma MergingGrows(a: Manifest, t: Manifest, c: Checkpoint)
    requires a.status == R2Running && ValidCounts(a) && a.genesis == t.genesis
    ensures Grows(a, MergingFrom(a.(checkpoint := c), t)) <==> Binds(t, a)
  {
    assert |Ids(a.r2Packets)| == 5 && |Ids(a.r1Outputs)| == 5;
    assert a.r2Outputs == [] && a.arbiterOutputs == [];
  }

  lemma CompletedGrows(m: Manifest, t: Manifest)
    ensures Grows(MergingFrom(m, t), CompletedFrom(m, t))
  {
  }

  /** Along a run driven by advancing, each event's artifact list is a prefix of the next one's exactly when the
      finaliser's manifest, if it came to that, binds the artifacts the run already held. */
  lemma DrivenEvidenceGrows(env: Env, run: seq<Manifest>, first: Work, second: Work)
    requires CheckedRun(run) && Execute(env, run).Ok? && Driven(run, first, second)
    ensures |run| > 2 ==> second.terminal.Some?
    ensures EvidenceGrows(env, run) <==> (|run| > 2 ==> Binds(second.terminal.value, run[1]))
  {
    ExtensionIsGrowth(env, run);
    hide EvidenceGrows, Execute, ArtifactIds;
    if |run| > 1 {
      FirstAdvanceGrows(run[0], run[1], first);
    }
    if |run| > 2 {
      SecondAdvanceGrows(env, run, second);
      forall i | 0 < i < |run| && i != 2 ensures Grows(run[i - 1], run[i]) {
        if i > 2 {
          FourAtMost(run);
        }
      }
      assert GrowingRun(run) <==> Grows(run[2 - 1], run[2]);
    }
  }

  lemma FourAtMost(run: seq<Manifest>)
    requires LegalRun(run)
    ensures |run| <= 4
  {
    if |run| > 1 {
      RankFalls(run, 0, 1);
    }
  }

  lemma SecondAdvanceGrows(env: Env, run: seq<Manifest>, work: Work)
    requires CheckedRun(run) && Execute(env, run).Ok? && |run| > 2 && run[1].status == R2Running
    requires SecondAdvance(run[1], run[2..], work)
    ensures work.terminal.Some?
    ensures Grows(run[1], run[2]) <==> Binds(work.terminal.value, run[1])
    ensures |run| > 3 ==> Grows(run[2], run[3])
  {
    NeighboursShareRun(env, run, 2);
    var c :| NextTargets(run[1].(checkpoint := c), work).Ok?
             && run[2..] <= NextTargets(run[1].(checkpoint := c), work).value;
    var m := run[1].(checkpoint := c);
    hide Execute, Grows, CheckedRun;
    var t := work.terminal.value;
    assert NextTargets(m, work).value == [MergingFrom(m, t), CompletedFrom(m, t)];
    assert run[2] == run[2..][0] == MergingFrom(m, t);
    if |run| > 3 {
      assert run[3] == run[2..][1] == CompletedFrom(m, t);
      CompletedGrows(m, t);
    }
    assert ValidCounts(run[1]) by {
      CountsAt(run, 1);
    }
    MergingGrows(run[1], t, c);
  }

  lemma CountsAt(run: seq<Manifest>, i: nat)
    requires CheckedRun(run) && i < |run|
    ensures ValidCounts(run[i]) && ValidTermination(run[i])
  {
  }

  // ---- the staged lifecycle and the one-shot finaliser ----------------------------------------------

  /** What the finaliser writes for this run: completed, not terminated, with every artifact counted. */
  predicate IsFinal(t: Manifest, m: Manifest)
  {
    t.runId == m.runId && t.status == Completed && t.termination.None? && ValidCounts(t)
  }

  lemma LastIsTarget(env: Env, run: seq<Manifest>)
    requires Execute(env, run).Ok? && run != []
    ensures LastManifest(env, run).Some?
    ensures LastManifest(env, run).value == run[|run| - 1].(checkpoint := LastManifest(env, run).value.checkpoint)
  {
    ExecutionIsChained(env, run);
  }

  lemma FinalTargets(m: Manifest, t: Manifest)
    requires m.status == R2Running && ValidTermination(m) && IsFinal(t, m)
    ensures ValidCounts(MergingFrom(m, t)) && ValidTermination(MergingFrom(m, t)) && MergingFrom(m, t).termination.None?
    ensures ValidCounts(CompletedFrom(m, t)) && ValidTermination(CompletedFrom(m, t))
    ensures CompletedFrom(m, t).termination.None? && SameArtifacts(CompletedFrom(m, t), t)
  {
  }

  lemma CheckedGrows(run: seq<Manifest>, next: Manifest)
    requires CheckedRun(run) && LegalTransition(Some(run[|run| - 1].status), next.status)
    requires ValidCounts(next) && ValidTermination(next) && next.termination.None?
    ensures CheckedRun(run + [next])
  {
    var more := run + [next];
    forall i | 0 < i < |more|
      ensures LegalTransition(Some(more[i - 1].status), more[i].status) && PhaseMatches(more[i - 1], more[i])
    {
      if i < |run| {
        assert more[i - 1] == run[i - 1] && more[i] == run[i];
        assert LegalTransition(Some(run[i - 1].status), run[i].status) && PhaseMatches(run[i - 1], run[i]);
      }
    }
  }

  lemma GrowthGrows(run: seq<Manifest>, next: Manifest)
    requires run != [] && GrowingRun(run)
    ensures GrowingRun(run + [next]) <==> Grows(run[|run| - 1], next)
  {
    var more := run + [next];
    assert more[|run| - 1] == run[|run| - 1] && more[|run|] == next;
    if Grows(run[|run| - 1], next) {
      forall i | 0 < i < |more| ensures Grows(more[i - 1], more[i]) {
        if i < |run| {
          assert Grows(run[i - 1], run[i]);
        }
      }
    }
    if GrowingRun(more) {
      assert Grows(more[|run| - 1], more[|run|]);
    }
  }

  /** A run whose graph check passed has lost nothing so far. */
  lemma GraphMeansGrowth(env: Env, d: Disk, run: seq<Manifest>, work: Work)
    requires env.Faithful() && Settled(env, d, run) && CheckedRun(run)
    requires LastManifest(env, run).Some? && GraphOk(env, work, LastManifest(env, run).value, d.ledger)
    ensures GrowingRun(run)
  {
    var m := LastManifest(env, run).value;
    assert ExpectedSpec(env, m) == Ok(Replay(d.ledger, m.checkpoint)) == Summary(env, Execute(env, run));
    assert run != [];
    hide GraphOk, ExpectedSpec, Summary, Execute, GrowingRun;
    LastIsTarget(env, run);
    RelocationKeepsLedger(env, run[|run| - 1], m);
    ReplayAcceptsExactlyGrowth(env, run);
  }

  lemma FinishedIsChecked(env: Env, d: Disk, run: seq<Manifest>, work: Work)
    requires Finishing(env, d, run, work) && CheckedRun(run)
    requires IsFinal(work.terminal.value, LastManifest(env, run).value)
    ensures var (merging, completed) := LastTwo(env, run, work);
            CheckedRun(run + [merging]) && CheckedRun(run + [merging] + [completed])
  {
    var (merging, completed) := LastTwo(env, run, work);
    var m, t := LastManifest(env, run).value, work.terminal.value;
    LastIsTarget(env, run);
    assert ValidTermination(m);
    hide Finishing, Execute, GraphOk, ValidCounts, ValidTermination, CheckedRun;
    FinalTargets(m, t);
    CheckedGrows(run, merging);
    CheckedGrows(run + [merging], completed);
  }

  lemma FinishedGrows(env: Env, d: Disk, run: seq<Manifest>, work: Work)
    requires Finishing(env, d, run, work) && CheckedRun(run)
    ensures var (merging, completed) := LastTwo(env, run, work);
            GrowingRun(run + [merging] + [completed]) <==> Binds(work.terminal.value, LastManifest(env, run).value)
  {
    var (merging, completed) := LastTwo(env, run, work);
    var m, t := LastManifest(env, run).value, work.terminal.value;
    GraphMeansGrowth(env, d, run, work);
    LastIsTarget(env, run);
    NeighboursShareRun(env, run + [merging], |run|);
    CountsAt(run, |run| - 1);
    var last := run[|run| - 1];
    assert last.genesis == merging.genesis == t.genesis;
    hide Finishing, Execute, GraphOk, ValidCounts, Grows, GrowingRun, CheckedRun;
    MergingGrows(last, t, m.checkpoint);
    assert last.(checkpoint := m.checkpoint) == m;
    CompletedGrows(m, t);
    GrowthGrows(run, merging);
    if GrowingRun(run + [merging]) {
      GrowthGrows(run + [merging], completed);
    } else {
      GrowthFails(run + [merging], completed);
    }
  }

  lemma GrowthFails(run: seq<Manifest>, next: Manifest)
    requires !GrowingRun(run)
    ensures !GrowingRun(run + [next])
  {
    var i :| 0 < i < |run| && !Grows(run[i - 1], run[i]);
    assert (run + [next])[i - 1] == run[i - 1] && (run + [next])[i] == run[i];
  }

  /** The lifecycle and the one-shot finaliser: when advancing finishes a run that obeys the rules with the finaliser's
      manifest t, the stored ledger and checkpoint are the ones the finaliser rebuilds from t exactly when t binds the
      artifacts that the run already held. */
  lemma DormantEqualsOneShot(env: Env, d: Disk, run: seq<Manifest>, work: Work, k: nat, cut: nat)
    requires Finishing(env, d, run, work) && CheckedRun(run) && k >= 8
    requires IsFinal(work.terminal.value, LastManifest(env, run).value)
    ensures var done, t := AdvanceSpec(env, d, work, k, cut).disk, work.terminal.value;
            var (merging, completed) := LastTwo(env, run, work);
            var whole := run + [merging] + [completed];
            && Settled(env, done, whole) && LastManifest(env, whole).Some?
            && (ExpectedSpec(env, t) == Ok(Replay(done.ledger, LastManifest(env, whole).value.checkpoint))
                <==> Binds(t, LastManifest(env, run).value))
  {
    var done := AdvanceSpec(env, d, work, k, cut).disk;
    var (merging, completed) := LastTwo(env, run, work);
    var whole := run + [merging] + [completed];
    FinishedLeaves(env, d, run, work, k, cut);
    FinishedIsChecked(env, d, run, work);
    FinishedGrows(env, d, run, work);
    FinishedRelocates(env, d, run, work);
    SettledLedger(env, done, whole);
    hide AdvanceSpec, Finishing, Settled, Execute, ExpectedSpec, Summary, CheckedRun, GrowingRun, LastTwo;
    ReplayAcceptsExactlyGrowth(env, whole);
  }

  lemma FinishedLeaves(env: Env, d: Disk, run: seq<Manifest>, work: Work, k: nat, cut: nat)
    requires Finishing(env, d, run, work) && k >= 8
    ensures var (merging, completed) := LastTwo(env, run, work);
            Settled(env, AdvanceSpec(env, d, work, k, cut).disk, run + [merging] + [completed])
  {
    hide AdvanceSpec, GraphOk, TransitionPlan, Settled;
    AdvanceLeaves(env, d, run, work, k, cut);
  }

  lemma FinishedRelocates(env: Env, d: Disk, run: seq<Manifest>, work: Work)
    requires Finishing(env, d, run, work) && IsFinal(work.terminal.value, LastManifest(env, run).value)
    ensures ExpectedSpec(env, LastTwo(env, run, work).1) == ExpectedSpec(env, work.terminal.value)
  {
    var m, t := LastManifest(env, run).value, work.terminal.value;
    assert ValidTermination(m);
    hide Finishing, GraphOk, Execute, ExpectedSpec, ValidCounts, ValidTermination;
    FinalTargets(m, t);
    RelocationKeepsLedger(env, CompletedFrom(m, t), t);
  }

  lemma SettledLedger(env: Env, d: Disk, run: seq<Manifest>)
    requires Settled(env, d, run) && run != []
    ensures LastManifest(env, run).Some?
    ensures Summary(env, Execute(env, run)) == Ok(Replay(d.ledger, LastManifest(env, run).value.checkpoint))
  {
    ExecutionIsChained(env, run);
  }
}
