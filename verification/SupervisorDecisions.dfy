/** What earns an acceptance, a launch and an active run, stated on the host's replies. */
module SupervisorDecisions {
  import opened Base
  import opened StoreModel
  import opened Supervisor
  import opened SupervisorTheorems
  import StoreProgress

  // ---- identifiers ---------------------------------------------------------------------------------

  /** The places of the hyphens in a canonical UUID. */
  const HYPHENS: set<nat> := {8, 13, 18, 23}

  lemma DigitsOf(s: string, low: nat, high: nat)
    requires low <= high <= |s|
    ensures AllHex(s[low..high]) <==> forall i :: low <= i < high ==> '0' <= s[i] <= '9' || 'a' <= s[i] <= 'f'
  {
    var t := s[low..high];
    forall i | low <= i < high ensures s[i] == t[i - low] {
    }
  }

  lemma IdentifiersAreExact(s: string)
    ensures IsDigest(s) <==>
            && |s| == 71 && s[..7] == "sha256:"
            && forall i :: 7 <= i < 71 ==> '0' <= s[i] <= '9' || 'a' <= s[i] <= 'f'
    ensures IsRunId(s) <==>
            && |s| == 36 && s[14] == '7' && s[19] in "89ab"
            && forall i :: 0 <= i < 36 ==>
                 if i in HYPHENS then s[i] == '-' else '0' <= s[i] <= '9' || 'a' <= s[i] <= 'f'
  {
    if |s| == 71 {
      DigitsOf(s, 7, 71);
      assert s[7..] == s[7..71];
    }
    if |s| == 36 {
      DigitsOf(s, 0, 8);
      DigitsOf(s, 9, 13);
      DigitsOf(s, 15, 18);
      DigitsOf(s, 20, 23);
      DigitsOf(s, 24, 36);
      assert s[..8] == s[0..8] && s[24..] == s[24..36];
    }
    hide AllHex;
  }

  // ---- what a reply says ------------------------------------------------------------------------------

  /** The reply to a status call shows this run, with this brief, at this status, alone when it runs and gone when it has
      ended. */
  predicate Shows(x: Input, runId: string, briefSha: string, status: Status)
  {
    && x.status.genuine && x.status.zeroExit && x.status.runId == runId
    && x.status.manifest.Some? && x.status.manifest.value.status == Some(status)
    && x.status.manifest.value.briefSha == briefSha
    && x.status.activeIds == Some(if status in StoreProgress.ENDS then [] else [runId])
  }

  /** The reply to an inspect call proves that this run completed this brief with a verified result of this digest. */
  predicate Proves(x: Input, runId: string, briefSha: string, resultSha: string)
  {
    && x.inspect.genuine && x.inspect.zeroExit && x.inspect.runId == runId
    && x.inspect.manifest.Some? && x.inspect.manifest.value.status == Some(Completed)
    && x.inspect.manifest.value.briefSha == briefSha && x.inspect.manifest.value.resultSha == resultSha
    && x.inspect.result.Some? && x.inspect.result.value.verified && x.inspect.result.value.actionable
    && x.inspect.result.value.versioned && x.inspect.result.value.fileMatches
    && x.inspect.result.value.sha == resultSha && IsDigest(resultSha)
  }

  /** The replies met by one invocation earn this acceptance. */
  predicate Earns(x: Input, a: Acceptance)
  {
    && x.entries.Some? && 1 <= a.sequence <= |x.entries.value|
    && var briefSha := x.entries.value[a.sequence - 1].briefSha;
       Shows(x, a.runId, briefSha, Completed) && Proves(x, a.runId, briefSha, a.resultSha)
  }

  /** The host was asked and is idle and ready. */
  predicate Ready(x: Input)
  {
    && x.preflight.genuine && x.preflight.zeroExit && x.preflight.preflightOk
    && x.preflight.code == "ready" && x.preflight.activeIds == Some([])
  }

  /** The reply to the start call names a new run of this brief, the only active one. */
  predicate Begins(x: Input, briefSha: string, before: seq<Acceptance>)
  {
    && x.start.genuine && x.start.zeroExit && x.start.code == "started" && IsRunId(x.start.runId)
    && (forall i :: 0 <= i < |before| ==> before[i].runId != x.start.runId)
    && x.start.activeIds == Some([x.start.runId])
    && x.start.manifest.Some? && x.start.manifest.value.status.Some? && x.start.manifest.value.briefSha == briefSha
  }

  lemma ReadyIsSafe(x: Input)
    ensures PreflightSafe(x.preflight) <==> Ready(x)
  {
  }

  lemma BeginningIsSafe(x: Input, s: Saved, e: Entry)
    ensures StartSafe(x.start, s, e) <==> Begins(x, e.briefSha, s.acceptances)
  {
    hide IsRunId;
  }

  lemma ShowingIsSafe(x: Input, runId: string, e: Entry)
    requires IsRunId(runId)
    ensures StatusSafe(x.status, runId, e) <==>
            && x.status.manifest.Some? && x.status.manifest.value.status.Some?
            && Shows(x, runId, e.briefSha, x.status.manifest.value.status.value)
  {
    if x.status.manifest.Some? && x.status.manifest.value.status.Some? {
      StoreProgress.EndsAndStops(x.status.manifest.value.status.value);
    }
    hide IsRunId;
  }

  lemma ProofIsVerified(x: Input, runId: string, e: Entry)
    ensures InspectSafe(x.inspect, runId, e, Completed) && ResultVerified(x.inspect, e) <==>
            x.inspect.result.Some? && Proves(x, runId, e.briefSha, x.inspect.result.value.sha)
  {
  }

  // ---- nothing unearned is ever on file ------------------------------------------------------------------

  function OnFile(d: Disk): seq<Acceptance>
  {
    if d.saved.Some? then d.saved.value.acceptances else []
  }

  /** The acceptances are the earlier ones, with at most one more, which these replies earn. */
  ghost predicate Adds(x: Input, before: seq<Acceptance>, after: seq<Acceptance>)
  {
    after == before || (|after| == |before| + 1 && after[..|before|] == before && Earns(x, after[|before|]))
  }

  /** The run on file is the earlier one, no acceptance later, or one these replies began. */
  ghost predicate Resumes(d: Disk, x: Input, s: Saved)
  {
    s.active.Some? && s.active.value.runId.Some? ==>
      || (d.saved.Some? && s.active == d.saved.value.active && s.acceptances == d.saved.value.acceptances)
      || (Ready(x) && x.execute && Begins(x, s.active.value.briefSha, s.acceptances)
          && s.active.value.runId == Some(x.start.runId))
  }

  ghost predicate Fair(d: Disk, x: Input, e: Effect)
  {
    match e
    case Save(s) => Adds(x, OnFile(d), s.acceptances) && Resumes(d, x, s)
    case Start(n) => Ready(x) && x.execute
    case Halt => true
  }

  ghost predicate AllFair(d: Disk, x: Input, es: seq<Effect>)
  {
    forall i :: 0 <= i < |es| ==> Fair(d, x, es[i])
  }

  lemma AdmitIsFair(d: Disk, s: Saved, entries: seq<Entry>, x: Input)
    requires s.next >= 1 && s.active.None? && Adds(x, OnFile(d), s.acceptances)
    ensures AllFair(d, x, Admit(s, entries, x).effects)
  {
    ReadyIsSafe(x);
    if s.next <= |entries| {
      BeginningIsSafe(x, Intending(s, entries[s.next - 1]), entries[s.next - 1]);
    }
    hide PreflightSafe, StartSafe, Ready, Begins, Adds;
  }

  lemma ObserveIsFair(d: Disk, s: Saved, runId: string, entries: seq<Entry>, x: Input)
    requires s.next >= 1 && s.active.Some? && s.active.value.runId == Some(runId) && IsRunId(runId)
    requires x.entries == Some(entries) && d.saved == Some(s)
    ensures var (plan, accepted) := Observe(s, runId, entries, x);
            && AllFair(d, x, plan.effects)
            && (accepted.Some? ==> Adds(x, OnFile(d), accepted.value.acceptances) && accepted.value.active.None?
                                   && accepted.value.next >= 1)
  {
    if s.next <= |entries| {
      var e := entries[s.next - 1];
      ShowingIsSafe(x, runId, e);
      ProofIsVerified(x, runId, e);
      hide StatusSafe, InspectSafe, ResultVerified, IsRunId, IsDigest, Shows, Proves;
    }
  }

  lemma BothFair(d: Disk, x: Input, a: seq<Effect>, b: seq<Effect>)
    requires AllFair(d, x, a) && AllFair(d, x, b)
    ensures AllFair(d, x, a + b)
  {
  }

  lemma CycleIsFair(d: Disk, s: Saved, entries: seq<Entry>, x: Input)
    requires s.next >= 1 && !Unresolved(s) && ActiveOk(s) && x.entries == Some(entries)
    requires d.saved == Some(s) || (d.saved.None? && s.acceptances == [] && s.active.None?)
    ensures AllFair(d, x, Cycle(s, entries, x).effects)
  {
    if s.active.None? {
      AdmitIsFair(d, s, entries, x);
    } else {
      var runId := s.active.value.runId.value;
      ObserveIsFair(d, s, runId, entries, x);
      var (observe, accepted) := Observe(s, runId, entries, x);
      hide Observe, Admit, AllFair, Adds;
      if accepted.Some? {
        AdmitIsFair(d, accepted.value, entries, x);
        BothFair(d, x, observe.effects, Admit(accepted.value, entries, x).effects);
      }
    }
  }

  lemma InvocationIsFair(d: Disk, x: Input)
    ensures AllFair(d, x, Invocation(d, x).effects)
  {
    if !d.halted && x.binaryOk && x.entries.Some? {
      if d.saved.None? {
        var initial := InitialState(x.binding);
        CycleIsFair(d, initial, x.entries.value, x);
        hide Cycle;
        assert Fair(d, x, Save(initial));
        BothFair(d, x, [Save(initial)], Cycle(initial, x.entries.value, x).effects);
      } else if Validates(d.saved.value, x.binding, |x.entries.value|) {
        CycleIsFair(d, d.saved.value, x.entries.value, x);
      }
    }
  }

  /** Whatever part of fair effects is carried out, nothing unearned is added. */
  ghost predicate Leaves(before: Disk, x: Input, after: Disk)
  {
    && Adds(x, OnFile(before), OnFile(after))
    && (after.saved.Some? ==> Resumes(before, x, after.saved.value))
    && before.launches <= after.launches
    && (before.launches != after.launches ==> Ready(x) && x.execute)
  }

  lemma {:induction false} CarryIsFair(before: Disk, d: Disk, x: Input, es: seq<Effect>, fuse: nat)
    requires AllFair(before, x, es) && Leaves(before, x, d)
    ensures Leaves(before, x, Carry(d, es, fuse))
    decreases |es|
  {
    if es != [] && fuse > 0 {
      assert Fair(before, x, es[0]);
      assert AllFair(before, x, es[1..]) by {
        forall i | 0 <= i < |es[1..]| ensures Fair(before, x, es[1..][i]) {
          assert es[1..][i] == es[i + 1];
        }
      }
      CarryIsFair(before, Apply(d, es[0]), x, es[1..], fuse - 1);
    }
  }

  lemma TurnIsFair(d: Disk, x: Input, fuse: nat)
    ensures Leaves(d, x, Carry(d, Invocation(d, x).effects, fuse))
  {
    InvocationIsFair(d, x);
    hide Invocation, Earns;
    CarryIsFair(d, d, x, Invocation(d, x).effects, fuse);
  }

  lemma LastTurn(turns: seq<Turn>)
    requires turns != []
    ensures var n := |turns| - 1;
            && Leaves(RunAll(turns[..n]), turns[n].input, RunAll(turns)) && turns[..n + 1] == turns
            && forall k :: 0 <= k <= n ==> turns[..n][..k] == turns[..k]
  {
    hide Invocation, Carry, Leaves;
    TurnIsFair(RunAll(turns[..|turns| - 1]), turns[|turns| - 1].input, turns[|turns| - 1].fuse);
  }

  lemma NumberedOnFile(turns: seq<Turn>, i: nat)
    requires i < |OnFile(RunAll(turns))|
    ensures turns != [] && OnFile(RunAll(turns))[i].sequence == i + 1
  {
    EveryRunHolds(turns);
  }

  /** Over every sequence of invocations, each allowed to die anywhere: acceptance number i, of sequence i + 1, was put on
      file by an invocation that met genuine replies to its status and inspect calls, both of that run, of the brief the
      plan has for that sequence and completed, and a verified, actionable, versioned result that matches its file, the
      manifest's digest and the one on file. */
  lemma {:induction false} AcceptanceIsEarned(turns: seq<Turn>, i: nat) returns (k: nat)
    requires i < |OnFile(RunAll(turns))|
    ensures k < |turns| && Earns(turns[k].input, OnFile(RunAll(turns))[i])
    ensures OnFile(RunAll(turns))[i].sequence == i + 1
    ensures |OnFile(RunAll(turns[..k]))| == i && |OnFile(RunAll(turns[..k + 1]))| == i + 1
    decreases |turns|
  {
    var n := |turns| - 1;
    NumberedOnFile(turns, i);
    LastTurn(turns);
    hide Earns, RunAll, Resumes, OnFile;
    if i < |OnFile(RunAll(turns[..n]))| {
      k := AcceptanceIsEarned(turns[..n], i);
      assert turns[..n][..k + 1] == turns[..k + 1];
    } else {
      k := n;
    }
  }

  /** Launch number i was issued by an invocation asked to execute, whose preflight reply was genuine, ready and idle. */
  lemma {:induction false} LaunchIsEarned(turns: seq<Turn>, i: nat) returns (k: nat)
    requires i < |RunAll(turns).launches|
    ensures k < |turns| && Ready(turns[k].input) && turns[k].input.execute
    ensures |RunAll(turns[..k]).launches| <= i < |RunAll(turns[..k + 1]).launches|
    decreases |turns|
  {
    var n := |turns| - 1;
    LastTurn(turns);
    hide Earns, RunAll, Resumes, OnFile, Ready;
    if i < |RunAll(turns[..n]).launches| {
      k := LaunchIsEarned(turns[..n], i);
      assert turns[..n][..k + 1] == turns[..k + 1];
    } else {
      k := n;
    }
  }

  /** The active run on file is the one a genuine start reply named: new, of this brief, and alone. */
  lemma {:induction false} ActiveIsBegun(turns: seq<Turn>) returns (k: nat)
    requires RunAll(turns).saved.Some? && RunAll(turns).saved.value.active.Some?
    requires RunAll(turns).saved.value.active.value.runId.Some?
    ensures k < |turns| && Ready(turns[k].input) && turns[k].input.execute
    ensures var s := RunAll(turns).saved.value;
            && Begins(turns[k].input, s.active.value.briefSha, s.acceptances)
            && s.active.value.runId == Some(turns[k].input.start.runId)
    decreases |turns|
  {
    var n := |turns| - 1;
    LastTurn(turns);
    hide Begins, Ready, Earns, RunAll, OnFile, Adds;
    var before, s := RunAll(turns[..n]).saved, RunAll(turns).saved.value;
    if before.Some? && s.active == before.value.active && s.acceptances == before.value.acceptances {
      k := ActiveIsBegun(turns[..n]);
    } else {
      k := n;
    }
  }

  // ---- what becomes of an active run ---------------------------------------------------------------------

  lemma {:induction false} CarryOnly(d: Disk, es: seq<Effect>, fuse: nat, s: Saved)
    requires d.saved.Some? && d.saved.value.acceptances == s.acceptances
    requires forall i :: 0 <= i < |es| && es[i].Save? ==> es[i].state.acceptances == s.acceptances
    ensures OnFile(Carry(d, es, fuse)) == s.acceptances
    decreases |es|
  {
    if es != [] && fuse > 0 {
      forall i | 0 <= i < |es[1..]| && es[1..][i].Save? ensures es[1..][i].state.acceptances == s.acceptances {
        assert es[1..][i] == es[i + 1];
      }
      CarryOnly(Apply(d, es[0]), es[1..], fuse - 1, s);
    }
  }

  lemma AdmittingKeepsFile(d: Disk, s: Saved, entries: seq<Entry>, x: Input, fuse: nat)
    requires s.next >= 1 && d.saved == Some(s)
    ensures OnFile(Carry(d, Admit(s, entries, x).effects, fuse)) == s.acceptances
  {
    hide PreflightSafe, StartSafe;
    CarryOnly(d, Admit(s, entries, x).effects, fuse, s);
  }

  lemma CarryUpToThree(d: Disk, a: Effect, b: Effect, c: Effect, rest: seq<Effect>, fuse: nat)
    requires fuse >= 3
    ensures Carry(d, [a], fuse) == Apply(d, a)
    ensures Carry(d, [a, b], fuse) == Apply(Apply(d, a), b)
    ensures Carry(d, [a, b, c], fuse) == Apply(Apply(Apply(d, a), b), c)
    ensures Carry(d, [a, b, c] + rest, fuse) == Carry(Apply(Apply(Apply(d, a), b), c), rest, fuse - 3)
  {
    assert [a][1..] == [] && [a, b][1..] == [b] && [a, b, c][1..] == [b, c] && [b, c][1..] == [c] && [b][1..] == [];
    assert [c][1..] == [];
    CarrySplit(d, [a, b, c], rest, fuse);
    CarryThree(d, a, b, c, fuse);
  }

  /** This invocation halts the campaign and says so: nothing is accepted and nothing is started. */
  predicate Halts(before: Disk, after: Disk, answer: Answer)
  {
    answer == Stopped && after.halted && OnFile(after) == OnFile(before) && after.launches == before.launches
  }

  /** What one invocation makes of the active run: no proper status reply halts, a running one is left alone, an ended one
      that is not completed halts, and a completed one is accepted if its inspect reply proves it and halts otherwise. */
  ghost predicate Decided(before: Disk, after: Disk, answer: Answer, s: Saved, runId: string, briefSha: string, x: Input)
  {
    && ((forall at :: !Shows(x, runId, briefSha, at)) ==> Halts(before, after, answer))
    && (forall at :: Shows(x, runId, briefSha, at) && at !in StoreProgress.ENDS ==>
          answer == InProgress && !after.halted && OnFile(after) == OnFile(before) && after.launches == before.launches
          && after.saved.Some? && after.saved.value.active == s.active)
    && (forall at :: Shows(x, runId, briefSha, at) && at in StoreProgress.ENDS - {Completed} ==>
          Halts(before, after, answer))
    && (Shows(x, runId, briefSha, Completed) ==>
          if x.inspect.result.Some? && Proves(x, runId, briefSha, x.inspect.result.value.sha) then
            OnFile(after) == OnFile(before) + [Acceptance(s.next, runId, x.inspect.result.value.sha)]
          else Halts(before, after, answer))
  }

  /** The effects of an observation, by what the replies show and prove. */
  lemma ObservationShape(s: Saved, runId: string, entries: seq<Entry>, x: Input)
    requires 1 <= s.next <= |entries| && IsRunId(runId)
    requires s.active == Some(Active(s.next, entries[s.next - 1].brief, entries[s.next - 1].briefSha, Some(runId)))
    ensures var (plan, accepted) := Observe(s, runId, entries, x);
            var briefSha := entries[s.next - 1].briefSha;
            var seen, inspected := Save(Noting(s, "status", Some(runId))), Save(Inspected(s, runId));
            && ((forall at :: !Shows(x, runId, briefSha, at)) ==> plan == Plan([Halt], Stopped) && accepted == None)
            && (forall at :: Shows(x, runId, briefSha, at) ==>
                  && (at !in StoreProgress.ENDS ==> plan == Plan([seen], InProgress) && accepted == None)
                  && (at in StoreProgress.ENDS ==>
                        if at == Completed && x.inspect.result.Some?
                           && Proves(x, runId, briefSha, x.inspect.result.value.sha)
                        then
                          var last := Accepting(s, runId, x);
                          plan.effects == [seen, inspected, Save(last)] && accepted == Some(last)
                        else
                          accepted == None && plan.answer == Stopped
                          && (plan.effects == [seen, Halt] || plan.effects == [seen, inspected, Halt])))
  {
    var e := entries[s.next - 1];
    ShowingIsSafe(x, runId, e);
    ProofIsVerified(x, runId, e);
    if x.status.manifest.Some? && x.status.manifest.value.status.Some? {
      StoreProgress.EndsAndStops(x.status.manifest.value.status.value);
    }
    hide StatusSafe, InspectSafe, ResultVerified, IsRunId, IsDigest, Proves, Noting, Inspected, Accepting, Terminal;
  }

  lemma ObservationIsDecided(d: Disk, s: Saved, runId: string, entries: seq<Entry>, x: Input, fuse: nat)
    requires d.saved == Some(s) && !d.halted && 1 <= s.next <= |entries| && fuse >= 3 && IsRunId(runId)
    requires s.active == Some(Active(s.next, entries[s.next - 1].brief, entries[s.next - 1].briefSha, Some(runId)))
    ensures var plan := Cycle(s, entries, x);
            Decided(d, Carry(d, plan.effects, fuse), plan.answer, s, runId, entries[s.next - 1].briefSha, x)
  {
    hide Observe, Shows, Proves, IsRunId, Carry, Admit;
    ObservationShape(s, runId, entries, x);
    var seen, inspected := Save(Noting(s, "status", Some(runId))), Save(Inspected(s, runId));
    var (observe, accepted) := Observe(s, runId, entries, x);
    CarryUpToThree(d, seen, inspected, Halt, [], fuse);
    CarryUpToThree(d, seen, Halt, Halt, [], fuse);
    CarryUpToThree(d, Halt, Halt, Halt, [], fuse);
    if accepted.Some? {
      var admit := Admit(accepted.value, entries, x).effects;
      CarryUpToThree(d, seen, inspected, Save(accepted.value), admit, fuse);
      var last := Apply(Apply(Apply(d, seen), inspected), Save(accepted.value));
      AdmittingKeepsFile(last, accepted.value, entries, x, fuse - 3);
    }
  }

  /** Over every sequence of invocations of one campaign: an invocation that finds a run active and lives for three
      effects decides it by the host's replies alone. */
  lemma ActiveRunIsDecided(turns: seq<Turn>, x: Input, fuse: nat, binding: Binding, entries: seq<Entry>)
    requires SameCampaign(turns, binding, entries) && x.binding == binding
    requires x.binaryOk && x.entries == Some(entries) && !RunAll(turns).halted && fuse >= 3
    requires RunAll(turns).saved.Some? && RunAll(turns).saved.value.active.Some?
    requires RunAll(turns).saved.value.active.value.runId.Some?
    ensures var s := RunAll(turns).saved.value;
            && 1 <= s.next <= |entries|
            && Decided(RunAll(turns), RunAll(turns + [Turn(x, fuse)]), Invocation(RunAll(turns), x).answer,
                       s, s.active.value.runId.value, entries[s.next - 1].briefSha, x)
  {
    var s := RunAll(turns).saved.value;
    EveryRunHolds(turns);
    NoSpuriousHalt(turns, x, binding, entries);
    assert (turns + [Turn(x, fuse)])[..|turns|] == turns;
    hide Cycle, Decided, Invocation, SameCampaign;
    ObservationIsDecided(RunAll(turns), s, s.active.value.runId.value, entries, x, fuse);
  }

  // ---- what becomes of the next entry ----------------------------------------------------------------------

  /** No ready host halts; a dry run starts nothing; otherwise exactly one start is issued, and a proper start reply makes
      its run the active one, while any other halts with the intent unresolved. */
  ghost predicate Admitted(before: Disk, after: Disk, answer: Answer, s: Saved, e: Entry, x: Input)
  {
    && OnFile(after) == s.acceptances
    && (!Ready(x) ==> answer == Stopped && after.halted && after.launches == before.launches)
    && (Ready(x) && !x.execute ==> answer == DryRun(s.next) && !after.halted && after.launches == before.launches)
    && (Ready(x) && x.execute ==>
          && answer == (if Begins(x, e.briefSha, s.acceptances) then Launched(x.start.runId) else Stopped)
          && after.launches == before.launches + [Launch(s.next, s.acceptances)]
          && (after.halted <==> !Begins(x, e.briefSha, s.acceptances))
          && after.saved.Some?
          && after.saved.value.active ==
             Some(Active(s.next, e.brief, e.briefSha,
                         if Begins(x, e.briefSha, s.acceptances) then Some(x.start.runId) else None)))
  }

  lemma CarryUpToFive(d: Disk, a: Effect, b: Effect, c: Effect, e: Effect, f: Effect, fuse: nat)
    requires fuse >= 5
    ensures Carry(d, [a, b, c, e] + [f], fuse) == Apply(Apply(Apply(Apply(Apply(d, a), b), c), e), f)
  {
    assert [a, b, c, e] + [f] == [a, b, c] + [e, f];
    CarryUpToThree(d, a, b, c, [e, f], fuse);
    var d3 := Apply(Apply(Apply(d, a), b), c);
    assert [e, f][1..] == [f] && [f][1..] == [];
    assert Carry(d3, [e, f], fuse - 3) == Carry(Apply(d3, e), [f], fuse - 4);
    assert Carry(Apply(d3, e), [f], fuse - 4) == Apply(Apply(d3, e), f);
  }

  lemma AdmissionIsDecided(d: Disk, s: Saved, entries: seq<Entry>, x: Input, fuse: nat)
    requires d.saved == Some(s) && !d.halted && 1 <= s.next <= |entries| && s.active.None? && fuse >= 5
    ensures var plan := Admit(s, entries, x);
            Admitted(d, Carry(d, plan.effects, fuse), plan.answer, s, entries[s.next - 1], x)
  {
    var e := entries[s.next - 1];
    var noted, intent := Save(Noting(s, "preflight", None)), Intending(s, e);
    var observed := Save(Noting(intent, "start", None));
    var safe := StartSafe(x.start, intent, e);
    ReadyIsSafe(x);
    BeginningIsSafe(x, intent, e);
    CarryUpToThree(d, Halt, Halt, Halt, [], fuse);
    CarryUpToThree(d, noted, Halt, Halt, [], fuse);
    CarryUpToFive(d, noted, Save(intent), Start(s.next), observed,
                  if safe then Save(Resolved(s, e, x.start.runId)) else Halt, fuse);
    hide PreflightSafe, StartSafe, Ready, Begins, Carry;
  }

  /** Over every sequence of invocations of one campaign: one that finds no run active and entries left, and lives for five
      effects, decides the next entry by the host's replies and its settings alone. */
  lemma NextEntryIsDecided(turns: seq<Turn>, x: Input, fuse: nat, binding: Binding, entries: seq<Entry>)
    requires SameCampaign(turns, binding, entries) && x.binding == binding
    requires x.binaryOk && x.entries == Some(entries) && !RunAll(turns).halted && fuse >= 5
    requires RunAll(turns).saved.Some? && RunAll(turns).saved.value.active == None
    requires RunAll(turns).saved.value.next <= |entries|
    ensures var s := RunAll(turns).saved.value;
            && s.next >= 1
            && Admitted(RunAll(turns), RunAll(turns + [Turn(x, fuse)]), Invocation(RunAll(turns), x).answer,
                        s, entries[s.next - 1], x)
  {
    NoSpuriousHalt(turns, x, binding, entries);
    assert (turns + [Turn(x, fuse)])[..|turns|] == turns;
    hide Invocation, SameCampaign, Admitted;
    AdmissionIsDecided(RunAll(turns), RunAll(turns).saved.value, entries, x, fuse);
  }

  /** The first invocation to get as far as the state file: it creates the file and decides the first entry. */
  lemma FirstEntryIsDecided(turns: seq<Turn>, x: Input, fuse: nat)
    requires x.binaryOk && x.entries.Some? && x.entries.value != [] && !RunAll(turns).halted && fuse >= 6
    requires RunAll(turns).saved == None
    ensures Admitted(RunAll(turns), RunAll(turns + [Turn(x, fuse)]), Invocation(RunAll(turns), x).answer,
                     InitialState(x.binding), x.entries.value[0], x)
  {
    var d, initial := RunAll(turns), InitialState(x.binding);
    assert (turns + [Turn(x, fuse)])[..|turns|] == turns;
    CarrySplit(d, [Save(initial)], Admit(initial, x.entries.value, x).effects, fuse);
    assert [Save(initial)][1..] == [];
    assert Carry(d, [Save(initial)], fuse) == Apply(d, Save(initial));
    hide Admit, Admitted, Carry;
    AdmissionIsDecided(Apply(d, Save(initial)), initial, x.entries.value, x, fuse - 1);
    var plan, created := Admit(initial, x.entries.value, x), Apply(d, Save(initial));
    AdmittedFrom(d, created, Carry(created, plan.effects, fuse - 1), plan.answer, initial, x.entries.value[0], x);
  }

  lemma AdmittedFrom(d: Disk, created: Disk, after: Disk, answer: Answer, s: Saved, e: Entry, x: Input)
    requires created.launches == d.launches && Admitted(created, after, answer, s, e, x)
    ensures Admitted(d, after, answer, s, e, x)
  {
  }

  // ---- what is trusted at all --------------------------------------------------------------------------------

  /** The state on file is of this campaign, with one acceptance for each entry before the cursor, each of a run of its
      own, and at most one active run, resolved, not yet accepted, and quoting the plan. */
  predicate Trusted(s: Saved, binding: Binding, entries: seq<Entry>)
  {
    && s.binding == binding && 0 <= s.last <= |entries| && s.next == s.last + 1 && |s.acceptances| == s.last
    && (forall i :: 0 <= i < |s.acceptances| ==>
          && s.acceptances[i].sequence == i + 1
          && IsRunId(s.acceptances[i].runId) && IsDigest(s.acceptances[i].resultSha))
    && (forall i, j :: 0 <= i < j < |s.acceptances| ==> s.acceptances[i].runId != s.acceptances[j].runId)
    && (s.active.Some? ==>
          var a := s.active.value;
          && a.sequence == s.next && a.runId.Some? && IsRunId(a.runId.value)
          && (forall i :: 0 <= i < |s.acceptances| ==> s.acceptances[i].runId != a.runId.value)
          && (s.next <= |entries| ==> a.brief == entries[s.next - 1].brief && a.briefSha == entries[s.next - 1].briefSha))
  }

  /** An invocation that cannot trust the binary, the plan or the state on file halts the campaign; a halted one does
      nothing; any other goes on with its cycle. */
  lemma UntrustedHalts(d: Disk, x: Input, fuse: nat)
    requires fuse >= 1
    ensures var after := Carry(d, Invocation(d, x).effects, fuse);
            var answer := Invocation(d, x).answer;
            && (d.halted ==> answer == Stopped && after == d)
            && (!d.halted && (!x.binaryOk || x.entries == None) ==> Halts(d, after, answer))
            && (!d.halted && x.binaryOk && x.entries.Some? && d.saved.Some? ==>
                  if Trusted(d.saved.value, x.binding, x.entries.value) then
                    && d.saved.value.next >= 1 && !Unresolved(d.saved.value)
                    && Invocation(d, x) == Cycle(d.saved.value, x.entries.value, x)
                  else Halts(d, after, answer))
  {
    assert [Halt][1..] == [];
    hide IsRunId, IsDigest, Admit, StatusSafe, InspectSafe, ResultVerified;
    if d.saved.Some? && x.entries.Some? && Validates(d.saved.value, x.binding, |x.entries.value|) {
      var s := d.saved.value;
      assert s.active.Some? && s.next <= |x.entries.value| && !Trusted(s, x.binding, x.entries.value) ==>
        Cycle(s, x.entries.value, x) == Plan([Halt], Stopped);
    }
  }
}
