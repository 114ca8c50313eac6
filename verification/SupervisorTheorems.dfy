/** What the campaign supervisor guarantees over any sequence of invocations, each allowed to die anywhere. */
module SupervisorTheorems {
  import opened Base
  import opened StoreModel
  import opened Supervisor

  /** Cursor, acceptances and active binding agree. */
  ghost predicate Sound(s: Saved)
  {
    && s.last >= 0 && s.next == s.last + 1 && |s.acceptances| == s.last
    && HistoryOk(s) && ActiveOk(s)
  }

  /** Start number i was for sequence i + 1, issued with exactly its predecessors' acceptances on file. */
  ghost predicate InOrder(launches: seq<Launch>, acceptances: seq<Acceptance>)
  {
    && |launches| <= |acceptances| + 1
    && forall i :: 0 <= i < |launches| ==>
         launches[i].sequence == i + 1 && launches[i].accepted == acceptances[..i]
  }

  /** How many starts the state on file stands for; an unresolved intent leaves two possibilities. */
  ghost predicate CountAgrees(n: nat, s: Saved)
  {
    n == s.last || (n == s.next && s.active.Some?)
  }

  ghost predicate Inv(d: Disk)
  {
    match d.saved
    case None => d.launches == []
    case Some(s) =>
      && Sound(s) && InOrder(d.launches, s.acceptances) && CountAgrees(|d.launches|, s)
      && (s.active.Some? && s.active.value.runId.Some? ==> |d.launches| == s.next)
  }

  /** Every prefix of the effects leaves the invariant in force. */
  ghost predicate InvThroughout(d: Disk, es: seq<Effect>)
    decreases |es|
  {
    Inv(d) && (es != [] ==> InvThroughout(Apply(d, es[0]), es[1..]))
  }

  lemma {:induction false} CarryKeeps(d: Disk, es: seq<Effect>, fuse: nat)
    requires InvThroughout(d, es)
    ensures Inv(Carry(d, es, fuse))
    decreases |es|
  {
    if es != [] && fuse > 0 {
      CarryKeeps(Apply(d, es[0]), es[1..], fuse - 1);
    }
  }

  lemma {:induction false} ThroughoutBoth(d: Disk, a: seq<Effect>, b: seq<Effect>)
    requires InvThroughout(d, a) && InvThroughout(Carry(d, a, |a|), b)
    ensures InvThroughout(d, a + b)
    decreases |a|
  {
    if a == [] {
      assert a + b == b;
    } else {
      assert (a + b)[1..] == a[1..] + b;
      ThroughoutBoth(Apply(d, a[0]), a[1..], b);
    }
  }

  lemma ThroughoutOne(d: Disk, e: Effect)
    requires Inv(d) && Inv(Apply(d, e))
    ensures InvThroughout(d, [e]) && Carry(d, [e], 1) == Apply(d, e)
  {
    assert [e][1..] == [];
  }

  /** Adding one more effect whose outcome satisfies the invariant. */
  lemma ThroughoutMore(d: Disk, a: seq<Effect>, e: Effect)
    requires InvThroughout(d, a) && Inv(Apply(Carry(d, a, |a|), e))
    ensures InvThroughout(d, a + [e]) && Carry(d, a + [e], |a| + 1) == Apply(Carry(d, a, |a|), e)
  {
    CarryKeeps(d, a, |a|);
    ThroughoutOne(Carry(d, a, |a|), e);
    ThroughoutBoth(d, a, [e]);
    CarrySplit(d, a, [e], |a| + 1);
    CarryAll(d, a, |a| + 1);
  }

  lemma {:induction false} CarryAll(d: Disk, es: seq<Effect>, fuse: nat)
    requires fuse >= |es|
    ensures Carry(d, es, fuse) == Carry(d, es, |es|)
    decreases |es|
  {
    if es != [] {
      CarryAll(Apply(d, es[0]), es[1..], fuse - 1);
    }
  }

  // ---- the saves keep the state sound --------------------------------------------------------

  lemma LaunchKeeps(d: Disk, s: Saved)
    requires Inv(d) && d.saved == Some(s) && Unresolved(s) && |d.launches| == s.last
    ensures Inv(Apply(d, Start(s.next))) && |Apply(d, Start(s.next)).launches| == s.next
  {
    assert s.acceptances[..s.last] == s.acceptances;
  }

  lemma IntentKeeps(d: Disk, s: Saved, e: Entry)
    requires Inv(d) && d.saved == Some(s) && s.active.None?
    ensures Inv(Apply(d, Save(Intending(s, e))))
  {
    var intent := Intending(s, e);
    assert forall r :: Accepted(intent, r) == Accepted(s, r);
  }

  lemma ResolveKeeps(d: Disk, s: Saved, e: Entry, runId: string)
    requires Sound(s) && s.active.None? && IsRunId(runId) && !Accepted(s, runId)
    requires d.saved.Some? && InOrder(d.launches, s.acceptances) && |d.launches| == s.next
    ensures Inv(Apply(d, Save(Resolved(s, e, runId))))
  {
    var resolved := Resolved(s, e, runId);
    assert Accepted(resolved, runId) == Accepted(s, runId);
  }

  lemma AcceptKeeps(d: Disk, s: Saved, runId: string, x: Input)
    requires Inv(d.(saved := Some(s))) && s.active.Some? && s.active.value.runId == Some(runId)
    requires x.inspect.result.Some? && IsDigest(x.inspect.result.value.sha)
    ensures Inv(Apply(d, Save(Accepting(s, runId, x))))
  {
    var accepted := Accepting(s, runId, x);
    forall i | 0 <= i < |s.acceptances| ensures accepted.acceptances[i].runId != runId {
      assert accepted.acceptances[i] == s.acceptances[i];
    }
    assert HistoryOk(accepted);
    forall i | 0 <= i < |d.launches| ensures d.launches[i].accepted == accepted.acceptances[..i] {
      assert accepted.acceptances[..i] == s.acceptances[..i];
    }
  }

  lemma NotingKeeps(d: Disk, s: Saved, kind: string, runId: Option<string>)
    requires Inv(d.(saved := Some(s)))
    ensures Inv(d.(saved := Some(Noting(s, kind, runId))))
    ensures Sound(s) ==> Sound(Noting(s, kind, runId))
  {
    var noted := Noting(s, kind, runId);
    assert forall r :: Accepted(noted, r) == Accepted(s, r);
  }

  lemma InspectedKeeps(d: Disk, s: Saved, runId: string)
    requires Inv(d.(saved := Some(s)))
    ensures Inv(d.(saved := Some(Inspected(s, runId))))
  {
    var noted := Inspected(s, runId);
    assert forall r :: Accepted(noted, r) == Accepted(s, r);
  }

  // ---- one invocation --------------------------------------------------------------------------

  lemma AdmitKeeps(d: Disk, s: Saved, entries: seq<Entry>, x: Input)
    requires Inv(d) && d.saved == Some(s) && s.active.None? && s.next >= 1
    ensures InvThroughout(d, Admit(s, entries, x).effects)
  {
    if s.next <= |entries| && PreflightSafe(x.preflight) {
      var e := entries[s.next - 1];
      var noted := Noting(s, "preflight", None);
      NotingKeeps(d, s, "preflight", None);
      ThroughoutOne(d, Save(noted));
      if x.execute {
        LaunchSequence(d, s, e, x);
      }
    }
  }

  lemma LaunchSequence(d: Disk, s: Saved, e: Entry, x: Input)
    requires Inv(d) && d.saved == Some(s) && s.active.None? && s.next >= 1
    ensures var intent := Intending(s, e);
            var begun := [Save(Noting(s, "preflight", None)), Save(intent), Start(s.next), Save(Noting(intent, "start", None))];
            InvThroughout(d, begun + [if StartSafe(x.start, intent, e) then Save(Resolved(s, e, x.start.runId)) else Halt])
  {
    var noted, intent := Noting(s, "preflight", None), Intending(s, e);
    var observed := Noting(intent, "start", None);
    NotingKeeps(d, s, "preflight", None);
    ThroughoutOne(d, Save(noted));
    var d1 := Apply(d, Save(noted));
    IntentKeeps(d, s, e);
    ThroughoutMore(d, [Save(noted)], Save(intent));
    var d2 := Apply(d1, Save(intent));
    LaunchKeeps(d2, intent);
    ThroughoutMore(d, [Save(noted)] + [Save(intent)], Start(s.next));
    var d3 := Apply(d2, Start(s.next));
    NotingKeeps(d3, intent, "start", None);
    ThroughoutMore(d, [Save(noted)] + [Save(intent)] + [Start(s.next)], Save(observed));
    var d4 := Apply(d3, Save(observed));
    var begun := [Save(noted)] + [Save(intent)] + [Start(s.next)] + [Save(observed)];
    assert begun == [Save(noted), Save(intent), Start(s.next), Save(observed)];
    if StartSafe(x.start, intent, e) {
      assert Accepted(intent, x.start.runId) == Accepted(s, x.start.runId);
      ResolveKeeps(d4, s, e, x.start.runId);
      ThroughoutMore(d, begun, Save(Resolved(s, e, x.start.runId)));
    } else {
      ThroughoutMore(d, begun, Halt);
    }
  }

  lemma SeenKeeps(d: Disk, s: Saved, runId: string)
    requires Inv(d) && d.saved == Some(s) && s.active.Some? && s.active.value.runId == Some(runId)
    ensures var seen, inspected := Save(Noting(s, "status", Some(runId))), Save(Inspected(s, runId));
            && InvThroughout(d, [Halt]) && InvThroughout(d, [seen]) && InvThroughout(d, [seen, Halt])
            && InvThroughout(d, [seen, inspected]) && InvThroughout(d, [seen, inspected, Halt])
            && Carry(d, [seen, inspected], 2) == Apply(Apply(d, seen), inspected)
  {
    var seen, inspected := Save(Noting(s, "status", Some(runId))), Save(Inspected(s, runId));
    ThroughoutOne(d, Halt);
    NotingKeeps(d, s, "status", Some(runId));
    ThroughoutOne(d, seen);
    hide InvThroughout, Carry, Inv, Noting, Inspected;
    HaltKeeps(Apply(d, seen));
    ThroughoutMore(d, [seen], Halt);
    InspectedKeeps(d, s, runId);
    ThroughoutMore(d, [seen], inspected);
    assert [seen] + [inspected] == [seen, inspected] && [seen] + [Halt] == [seen, Halt];
    HaltKeeps(Apply(Apply(d, seen), inspected));
    ThroughoutMore(d, [seen, inspected], Halt);
    assert [seen, inspected] + [Halt] == [seen, inspected, Halt];
  }

  lemma HaltKeeps(d: Disk)
    requires Inv(d)
    ensures Inv(Apply(d, Halt))
  {
  }

  lemma ObserveKeeps(d: Disk, s: Saved, runId: string, entries: seq<Entry>, x: Input)
    requires Inv(d) && d.saved == Some(s) && s.active.Some? && s.active.value.runId == Some(runId)
    ensures var (plan, accepted) := Observe(s, runId, entries, x);
            && InvThroughout(d, plan.effects)
            && (accepted.Some? ==>
                  && Carry(d, plan.effects, |plan.effects|).saved == accepted
                  && accepted.value.active.None? && accepted.value.next >= 1)
  {
    if s.next <= |entries| {
      SeenKeeps(d, s, runId);
      if x.inspect.result.Some? && IsDigest(x.inspect.result.value.sha) {
        AcceptedKeeps(d, s, runId, x);
      }
      NothingKeeps(d);
      hide InvThroughout, Carry, Inv, Noting, Inspected, StatusSafe, InspectSafe;
    }
  }

  lemma NothingKeeps(d: Disk)
    requires Inv(d)
    ensures InvThroughout(d, [])
  {
  }

  lemma AcceptedKeeps(d: Disk, s: Saved, runId: string, x: Input)
    requires Inv(d) && d.saved == Some(s) && s.active.Some? && s.active.value.runId == Some(runId)
    requires x.inspect.result.Some? && IsDigest(x.inspect.result.value.sha)
    ensures var seen, inspected := Save(Noting(s, "status", Some(runId))), Save(Inspected(s, runId));
            var accepted := Accepting(s, runId, x);
            && InvThroughout(d, [seen, inspected, Save(accepted)])
            && Carry(d, [seen, inspected, Save(accepted)], 3).saved == Some(accepted)
            && accepted.active.None? && accepted.next >= 1
  {
    var seen, inspected := Save(Noting(s, "status", Some(runId))), Save(Inspected(s, runId));
    SeenKeeps(d, s, runId);
    AcceptKeeps(Apply(Apply(d, seen), inspected), s, runId, x);
    hide InvThroughout, Carry, Noting, Inspected;
    ThroughoutMore(d, [seen, inspected], Save(Accepting(s, runId, x)));
    assert [seen, inspected] + [Save(Accepting(s, runId, x))] == [seen, inspected, Save(Accepting(s, runId, x))];
  }

  lemma CycleKeeps(d: Disk, s: Saved, entries: seq<Entry>, x: Input)
    requires Inv(d) && d.saved == Some(s) && !Unresolved(s)
    ensures InvThroughout(d, Cycle(s, entries, x).effects)
  {
    if s.active.None? {
      AdmitKeeps(d, s, entries, x);
    } else {
      var runId := s.active.value.runId.value;
      ObserveKeeps(d, s, runId, entries, x);
      var (observe, accepted) := Observe(s, runId, entries, x);
      if accepted.Some? {
        var d1 := Carry(d, observe.effects, |observe.effects|);
        CarryKeeps(d, observe.effects, |observe.effects|);
        AdmitKeeps(d1, accepted.value, entries, x);
        ThroughoutBoth(d, observe.effects, Admit(accepted.value, entries, x).effects);
      }
    }
  }

  lemma InvocationKeeps(d: Disk, x: Input)
    requires Inv(d)
    ensures InvThroughout(d, Invocation(d, x).effects)
  {
    ThroughoutOne(d, Halt);
    if !d.halted && x.binaryOk && x.entries.Some? {
      if d.saved.None? {
        var initial := InitialState(x.binding);
        ThroughoutOne(d, Save(initial));
        CycleKeeps(Apply(d, Save(initial)), initial, x.entries.value, x);
        ThroughoutBoth(d, [Save(initial)], Cycle(initial, x.entries.value, x).effects);
      } else if Validates(d.saved.value, x.binding, |x.entries.value|) {
        CycleKeeps(d, d.saved.value, x.entries.value, x);
      }
    }
  }

  // ---- any sequence of invocations ----------------------------------------------------------------

  /** One invocation and the number of effects it lives to see. */
  datatype Turn = Turn(input: Input, fuse: nat)

  const Fresh := Disk(None, false, [])

  function RunAll(turns: seq<Turn>): Disk
  {
    if turns == [] then Fresh
    else
      var d, last := RunAll(turns[..|turns| - 1]), turns[|turns| - 1];
      Carry(d, Invocation(d, last.input).effects, last.fuse)
  }

  lemma {:induction false} EveryRunHolds(turns: seq<Turn>)
    ensures Inv(RunAll(turns))
    decreases |turns|
  {
    if turns != [] {
      var before, last := turns[..|turns| - 1], turns[|turns| - 1];
      EveryRunHolds(before);
      InvocationKeeps(RunAll(before), last.input);
      CarryKeeps(RunAll(before), Invocation(RunAll(before), last.input).effects, last.fuse);
    }
  }

  /** Start number i was for sequence i + 1 and found the acceptances of sequences 1 to i, and no others, on file:
      no sequence is started twice, none out of order, none before every predecessor was accepted. */
  lemma AtMostOneLaunchEach(turns: seq<Turn>, i: nat, j: nat)
    requires i < |RunAll(turns).launches|
    ensures var launches := RunAll(turns).launches;
            && launches[i].sequence == i + 1
            && |launches[i].accepted| == i
            && (j < i ==> launches[i].accepted[j].sequence == j + 1)
            && (j < |launches| && launches[i].sequence == launches[j].sequence ==> i == j)
  {
    EveryRunHolds(turns);
  }

  /** Once HALTED exists, no invocation changes anything or starts anything. */
  lemma {:induction false} HaltIsFinal(turns: seq<Turn>, more: seq<Turn>)
    requires RunAll(turns).halted
    ensures RunAll(turns + more) == RunAll(turns)
    decreases |more|
  {
    if more == [] {
      assert turns + more == turns;
    } else {
      HaltIsFinal(turns, more[..|more| - 1]);
      assert (turns + more)[..|turns + more| - 1] == turns + more[..|more| - 1];
    }
  }

  /** Corollary, read off the effects: within one invocation nothing is started after HALTED. */
  lemma HaltIsLast(d: Disk, x: Input, i: nat)
    requires i < |Invocation(d, x).effects| && Invocation(d, x).effects[i] == Halt
    ensures i == |Invocation(d, x).effects| - 1
  {
    hide StatusSafe, InspectSafe, ResultVerified, Noting, Inspected, Accepting;
  }

  // ---- its own states pass its own checks ------------------------------------------------------------

  /** All invocations of a campaign share its settings, and read its one plan when they can read it. */
  ghost predicate SameCampaign(turns: seq<Turn>, binding: Binding, entries: seq<Entry>)
  {
    forall i :: 0 <= i < |turns| ==>
      turns[i].input.binding == binding && (turns[i].input.entries == Some(entries) || turns[i].input.entries == None)
  }

  /** The saved state belongs to this campaign and its active binding quotes the plan. */
  ghost predicate Belongs(d: Disk, binding: Binding, entries: seq<Entry>)
  {
    d.saved.Some? ==>
      && d.saved.value.binding == binding
      && 0 <= d.saved.value.last <= |entries|
      && d.saved.value.next == d.saved.value.last + 1
      && (d.saved.value.active.Some? ==>
            && d.saved.value.next <= |entries|
            && d.saved.value.active.value.brief == entries[d.saved.value.next - 1].brief
            && d.saved.value.active.value.briefSha == entries[d.saved.value.next - 1].briefSha)
  }

  ghost predicate BelongsThroughout(d: Disk, es: seq<Effect>, binding: Binding, entries: seq<Entry>)
  {
    Belongs(d, binding, entries)
    && forall i :: 0 <= i < |es| && es[i].Save? ==> Belongs(d.(saved := Some(es[i].state)), binding, entries)
  }

  lemma {:induction false} CarryBelongs(d: Disk, es: seq<Effect>, fuse: nat, binding: Binding, entries: seq<Entry>)
    requires BelongsThroughout(d, es, binding, entries)
    ensures Belongs(Carry(d, es, fuse), binding, entries)
    decreases |es|
  {
    if es != [] && fuse > 0 {
      assert es[0].Save? ==> Belongs(d.(saved := Some(es[0].state)), binding, entries);
      forall i | 0 <= i < |es[1..]| && es[1..][i].Save?
        ensures Belongs(Apply(d, es[0]).(saved := Some(es[1..][i].state)), binding, entries)
      {
        assert es[i + 1] == es[1..][i];
        assert Belongs(d.(saved := Some(es[i + 1].state)), binding, entries);
      }
      CarryBelongs(Apply(d, es[0]), es[1..], fuse - 1, binding, entries);
    }
  }

  /** A state whose cursor and active binding are those of the campaign. */
  ghost predicate Fits(s: Saved, binding: Binding, entries: seq<Entry>)
  {
    Belongs(Disk(Some(s), false, []), binding, entries)
  }

  lemma AdmitBelongs(d: Disk, s: Saved, x: Input, binding: Binding, entries: seq<Entry>)
    requires Fits(s, binding, entries) && Belongs(d, binding, entries) && s.active.None?
    ensures BelongsThroughout(d, Admit(s, entries, x).effects, binding, entries)
  {
  }

  lemma ObservedFit(s: Saved, runId: string, x: Input, binding: Binding, entries: seq<Entry>)
    requires Fits(s, binding, entries) && s.active.Some?
    ensures Fits(Noting(s, "status", Some(runId)), binding, entries) && Fits(Inspected(s, runId), binding, entries)
    ensures x.inspect.result.Some? ==>
              Fits(Accepting(s, runId, x), binding, entries) && Accepting(s, runId, x).active.None?
  {
  }

  lemma FitBelongs(d: Disk, es: seq<Effect>, binding: Binding, entries: seq<Entry>)
    requires Belongs(d, binding, entries)
    requires forall i :: 0 <= i < |es| && es[i].Save? ==> Fits(es[i].state, binding, entries)
    ensures BelongsThroughout(d, es, binding, entries)
  {
  }

  lemma ObserveBelongs(d: Disk, s: Saved, runId: string, x: Input, binding: Binding, entries: seq<Entry>)
    requires Fits(s, binding, entries) && Belongs(d, binding, entries) && s.active.Some?
    ensures var (plan, accepted) := Observe(s, runId, entries, x);
            && BelongsThroughout(d, plan.effects, binding, entries)
            && (accepted.Some? ==> Fits(accepted.value, binding, entries) && accepted.value.active.None?)
  {
    ObservedFit(s, runId, x, binding, entries);
    hide Noting, Inspected, Accepting, StatusSafe, InspectSafe, Fits, Belongs, BelongsThroughout;
    FitBelongs(d, Observe(s, runId, entries, x).0.effects, binding, entries);
  }

  lemma BothBelong(d: Disk, a: seq<Effect>, b: seq<Effect>, binding: Binding, entries: seq<Entry>)
    requires BelongsThroughout(d, a, binding, entries) && BelongsThroughout(d, b, binding, entries)
    ensures BelongsThroughout(d, a + b, binding, entries)
  {
  }

  lemma CycleBelongs(d: Disk, s: Saved, x: Input, binding: Binding, entries: seq<Entry>)
    requires Fits(s, binding, entries) && Belongs(d, binding, entries) && !Unresolved(s)
    ensures BelongsThroughout(d, Cycle(s, entries, x).effects, binding, entries)
  {
    if s.active.None? {
      AdmitBelongs(d, s, x, binding, entries);
    } else {
      var runId := s.active.value.runId.value;
      ObserveBelongs(d, s, runId, x, binding, entries);
      var (observe, accepted) := Observe(s, runId, entries, x);
      if accepted.Some? {
        AdmitBelongs(d, accepted.value, x, binding, entries);
        BothBelong(d, observe.effects, Admit(accepted.value, entries, x).effects, binding, entries);
      }
    }
  }

  lemma {:induction false} EveryStateBelongs(turns: seq<Turn>, binding: Binding, entries: seq<Entry>)
    requires SameCampaign(turns, binding, entries)
    ensures Belongs(RunAll(turns), binding, entries)
    decreases |turns|
  {
    if turns != [] {
      var before, last := turns[..|turns| - 1], turns[|turns| - 1];
      EveryStateBelongs(before, binding, entries);
      var d := RunAll(before);
      if !d.halted && last.input.binaryOk && last.input.entries.Some? {
        var s := if d.saved.Some? then d.saved.value else InitialState(binding);
        if !Unresolved(s) {
          CycleBelongs(d, s, last.input, binding, entries);
        }
      }
      CarryBelongs(d, Invocation(d, last.input).effects, last.fuse, binding, entries);
    }
  }

  /** Every state the supervisor saves passes its checks on the next load, unless it is an unresolved launch intent. */
  lemma OwnStatesValidate(turns: seq<Turn>, binding: Binding, entries: seq<Entry>)
    requires SameCampaign(turns, binding, entries) && RunAll(turns).saved.Some?
    ensures var s := RunAll(turns).saved.value;
            Validates(s, binding, |entries|) <==> !Unresolved(s)
  {
    EveryRunHolds(turns);
    EveryStateBelongs(turns, binding, entries);
  }

  /** So a later invocation is never stopped by the supervisor's own writes: unless an intent is unresolved it goes
      on with the cycle, its cursor stays inside the plan, and its active binding quotes the plan. */
  lemma NoSpuriousHalt(turns: seq<Turn>, x: Input, binding: Binding, entries: seq<Entry>)
    requires SameCampaign(turns, binding, entries) && x.binding == binding
    requires x.binaryOk && x.entries == Some(entries) && !RunAll(turns).halted
    requires RunAll(turns).saved.Some? && !Unresolved(RunAll(turns).saved.value)
    ensures var s := RunAll(turns).saved.value;
            && s.next >= 1 && Invocation(RunAll(turns), x) == Cycle(s, entries, x)
            && (s.active.Some? ==>
                  && s.next <= |entries|
                  && s.active.value.brief == entries[s.next - 1].brief
                  && s.active.value.briefSha == entries[s.next - 1].briefSha)
  {
    OwnStatesValidate(turns, binding, entries);
    EveryStateBelongs(turns, binding, entries);
  }
}
