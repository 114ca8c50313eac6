/** The one-shot campaign supervisor: one observation cycle per invocation, each step saved before the next. */
module Supervisor {
  import opened Base
  import opened Chars
  import opened StoreModel

  datatype Binding = Binding(planSha: string, root: string, bin: string, runtime: string)

  datatype Entry = Entry(brief: string, briefSha: string)

  datatype Active = Active(sequence: int, brief: string, briefSha: string, runId: Option<string>)

  datatype Acceptance = Acceptance(sequence: int, runId: string, resultSha: string)

  datatype Observation = Observation(
    kind: string, sequence: int, runId: Option<string>, inspected: bool, accepted: Option<Acceptance>)

  datatype Saved = Saved(
    binding: Binding, last: int, next: int, active: Option<Active>,
    acceptances: seq<Acceptance>, observation: Option<Observation>)

  /** A host start that was issued, with the acceptances on file at that moment. */
  datatype Launch = Launch(sequence: int, accepted: seq<Acceptance>)

  /** The state file, the HALTED sentinel, and every start ever issued. */
  datatype Disk = Disk(saved: Option<Saved>, halted: bool, launches: seq<Launch>)

  // ---- identifiers --------------------------------------------------------------------

  predicate AllHex(s: string)
  {
    forall i :: 0 <= i < |s| ==> LowerHex(s[i])
  }

  predicate IsDigest(s: string)
  {
    |s| == 71 && s[..7] == "sha256:" && AllHex(s[7..])
  }

  /** A lower-case UUID of version 7 in canonical form. */
  predicate IsRunId(s: string)
  {
    && |s| == 36
    && s[8] == '-' && s[13] == '-' && s[18] == '-' && s[23] == '-'
    && s[14] == '7' && (s[19] == '8' || s[19] == '9' || s[19] == 'a' || s[19] == 'b')
    && AllHex(s[..8]) && AllHex(s[9..13]) && AllHex(s[15..18]) && AllHex(s[20..23]) && AllHex(s[24..])
  }

  // ---- what the host may answer ----------------------------------------------------------

  datatype HostManifest = HostManifest(status: Option<Status>, briefSha: string, resultSha: string)

  datatype HostResult = HostResult(verified: bool, actionable: bool, sha: string, fileMatches: bool, versioned: bool)

  /** A host reply; `genuine` stands for the envelope checks (parsed, version, operation, paths, pinned runtime). */
  datatype Reply = Reply(
    genuine: bool, zeroExit: bool, runId: string, code: string, activeIds: Option<seq<string>>,
    manifest: Option<HostManifest>, preflightOk: bool, result: Option<HostResult>)

  /** Everything one invocation meets: its settings, what it reads, and the host's answers. */
  datatype Input = Input(
    binding: Binding, binaryOk: bool, entries: Option<seq<Entry>>, execute: bool,
    preflight: Reply, start: Reply, status: Reply, inspect: Reply)

  predicate ActiveIdsOk(r: Reply)
  {
    && r.activeIds.Some?
    && (forall i :: 0 <= i < |r.activeIds.value| ==> IsRunId(r.activeIds.value[i]))
    && (forall i, j :: 0 <= i < j < |r.activeIds.value| ==> r.activeIds.value[i] != r.activeIds.value[j])
  }

  predicate ManifestOk(r: Reply, e: Entry)
  {
    r.manifest.Some? && r.manifest.value.status.Some? && r.manifest.value.briefSha == e.briefSha
  }

  predicate PreflightSafe(r: Reply)
  {
    r.genuine && ActiveIdsOk(r) && r.code == "ready" && r.activeIds.value == [] && r.zeroExit && r.preflightOk
  }

  predicate StatusSafe(r: Reply, runId: string, e: Entry)
  {
    && r.genuine && r.zeroExit && r.runId == runId && ManifestOk(r, e) && ActiveIdsOk(r)
    && (if Terminal(r.manifest.value.status.value) then r.activeIds.value == [] else r.activeIds.value == [runId])
  }

  predicate InspectSafe(r: Reply, runId: string, e: Entry, status: Status)
  {
    && r.genuine && r.runId == runId && ManifestOk(r, e)
    && r.manifest.value.status.value == status
    && (status.Completed? ==> r.zeroExit)
  }

  predicate ResultVerified(r: Reply, e: Entry)
  {
    && r.result.Some? && r.manifest.Some?
    && r.result.value.verified && r.result.value.actionable
    && IsDigest(r.result.value.sha) && r.result.value.sha == r.manifest.value.resultSha
    && r.result.value.fileMatches && r.result.value.versioned
    && r.manifest.value.briefSha == e.briefSha
  }

  predicate Accepted(s: Saved, runId: string)
  {
    exists i :: 0 <= i < |s.acceptances| && s.acceptances[i].runId == runId
  }

  predicate StartSafe(r: Reply, s: Saved, e: Entry)
  {
    && r.genuine && r.zeroExit && IsRunId(r.runId) && !Accepted(s, r.runId)
    && r.code == "started" && ActiveIdsOk(r) && r.activeIds.value == [r.runId] && ManifestOk(r, e)
  }

  // ---- the state file --------------------------------------------------------------------

  predicate HistoryOk(s: Saved)
  {
    && (forall i :: 0 <= i < |s.acceptances| ==>
          s.acceptances[i].sequence == i + 1 && IsRunId(s.acceptances[i].runId) && IsDigest(s.acceptances[i].resultSha))
    && (forall i, j :: 0 <= i < j < |s.acceptances| ==> s.acceptances[i].runId != s.acceptances[j].runId)
  }

  predicate ActiveOk(s: Saved)
  {
    s.active.Some? ==>
      && s.active.value.sequence == s.next
      && |s.acceptances| == s.next - 1
      && (s.active.value.runId.Some? ==>
            IsRunId(s.active.value.runId.value) && !Accepted(s, s.active.value.runId.value))
  }

  /** A launch was intended, and nothing on file says what became of it. */
  predicate Unresolved(s: Saved)
  {
    s.active.Some? && s.active.value.runId.None?
  }

  /** The checks made on a state file before it is used. */
  predicate Validates(s: Saved, binding: Binding, count: nat)
  {
    && s.binding == binding
    && s.last >= 0 && s.next == s.last + 1 && s.last <= count
    && HistoryOk(s) && ActiveOk(s) && !Unresolved(s)
    && |s.acceptances| == s.last
  }

  function InitialState(binding: Binding): Saved
  {
    Saved(binding, 0, 1, None, [], None)
  }

  // ---- one cycle ---------------------------------------------------------------------------

  datatype Effect = Save(state: Saved) | Start(sequence: int) | Halt

  datatype Answer = Stopped | Faulted | InProgress | AllDone | DryRun(sequence: int) | Launched(runId: string)

  datatype Plan = Plan(effects: seq<Effect>, answer: Answer)

  function Noting(s: Saved, kind: string, runId: Option<string>): Saved
  {
    s.(observation := Some(Observation(kind, s.next, runId, false, None)))
  }

  function Intending(s: Saved, e: Entry): Saved
  {
    Noting(s, "preflight", None).(active := Some(Active(s.next, e.brief, e.briefSha, None)))
  }

  function Resolved(s: Saved, e: Entry, runId: string): Saved
  {
    Noting(s, "start", Some(runId)).(active := Some(Active(s.next, e.brief, e.briefSha, Some(runId))))
  }

  /** Admit the next entry: preflight, intent, start, and the run it returned. */
  function Admit(s: Saved, entries: seq<Entry>, x: Input): Plan
    requires s.next >= 1
  {
    if s.next > |entries| then Plan([], AllDone)
    else
      var e := entries[s.next - 1];
      if !PreflightSafe(x.preflight) then Plan([Halt], Stopped)
      else if !x.execute then Plan([Save(Noting(s, "preflight", None))], DryRun(s.next))
      else
        var intent := Intending(s, e);
        var begun := [Save(Noting(s, "preflight", None)), Save(intent), Start(s.next), Save(Noting(intent, "start", None))];
        if !StartSafe(x.start, intent, e) then Plan(begun + [Halt], Stopped)
        else Plan(begun + [Save(Resolved(s, e, x.start.runId))], Launched(x.start.runId))
  }

  function Inspected(s: Saved, runId: string): Saved
  {
    s.(observation := Some(Observation("status", s.next, Some(runId), true, None)))
  }

  function AcceptanceOf(s: Saved, runId: string, x: Input): Acceptance
    requires x.inspect.result.Some?
  {
    Acceptance(s.next, runId, x.inspect.result.value.sha)
  }

  function Accepting(s: Saved, runId: string, x: Input): Saved
    requires x.inspect.result.Some?
  {
    var acceptance := AcceptanceOf(s, runId, x);
    s.(acceptances := s.acceptances + [acceptance], last := s.next, next := s.next + 1, active := None,
       observation := Some(Observation("status", s.next, Some(runId), true, Some(acceptance))))
  }

  /** Observe the active run; an accepted one leaves a state from which the next entry may be admitted. */
  function Observe(s: Saved, runId: string, entries: seq<Entry>, x: Input): (Plan, Option<Saved>)
    requires s.active.Some? && s.next >= 1
  {
    if s.next > |entries| then (Plan([], Faulted), None)
    else
      var e := entries[s.next - 1];
      if s.active.value.brief != e.brief || s.active.value.briefSha != e.briefSha then (Plan([Halt], Stopped), None)
      else if !StatusSafe(x.status, runId, e) then (Plan([Halt], Stopped), None)
      else
        var seen := Noting(s, "status", Some(runId));
        var status := x.status.manifest.value.status.value;
        if !Terminal(status) then (Plan([Save(seen)], InProgress), None)
        else if !InspectSafe(x.inspect, runId, e, status) then (Plan([Save(seen), Halt], Stopped), None)
        else if !status.Completed? || !ResultVerified(x.inspect, e) then
          (Plan([Save(seen), Save(Inspected(s, runId)), Halt], Stopped), None)
        else
          var accepted := Accepting(s, runId, x);
          (Plan([Save(seen), Save(Inspected(s, runId)), Save(accepted)], AllDone), Some(accepted))
  }

  function Cycle(s: Saved, entries: seq<Entry>, x: Input): Plan
    requires s.next >= 1 && !Unresolved(s)
  {
    if s.active.None? then Admit(s, entries, x)
    else
      var (observe, accepted) := Observe(s, s.active.value.runId.value, entries, x);
      if accepted.None? then observe
      else
        var admit := Admit(accepted.value, entries, x);
        Plan(observe.effects + admit.effects, admit.answer)
  }

  function Invocation(d: Disk, x: Input): Plan
  {
    if d.halted then Plan([], Stopped)
    else if !x.binaryOk || x.entries.None? then Plan([Halt], Stopped)
    else match d.saved
      case None =>
        var cycle := Cycle(InitialState(x.binding), x.entries.value, x);
        Plan([Save(InitialState(x.binding))] + cycle.effects, cycle.answer)
      case Some(s) =>
        if !Validates(s, x.binding, |x.entries.value|) then Plan([Halt], Stopped)
        else Cycle(s, x.entries.value, x)
  }

  function Apply(d: Disk, e: Effect): Disk
  {
    match e
    case Save(s) => d.(saved := Some(s))
    case Start(n) => d.(launches := d.launches + [Launch(n, if d.saved.Some? then d.saved.value.acceptances else [])])
    case Halt => d.(halted := true)
  }

  /** The effects in order, until the process dies. */
  function Carry(d: Disk, es: seq<Effect>, fuse: nat): Disk
    decreases |es|
  {
    if es == [] || fuse == 0 then d else Carry(Apply(d, es[0]), es[1..], fuse - 1)
  }

  function Burn(fuse: nat, es: seq<Effect>): nat
  {
    if fuse < |es| then 0 else fuse - |es|
  }

  // ---- the code -------------------------------------------------------------------------------

  datatype Outcome = Died | Answered(answer: Answer)

  function Ended(fuse: nat, plan: Plan): Outcome
  {
    if fuse < |plan.effects| then Died else Answered(plan.answer)
  }

  class Campaign {
    var saved: Option<Saved>
    var halted: bool
    var launches: seq<Launch>
    /** Effects left before the process dies. */
    var fuse: nat

    ghost function Files(): Disk
      reads this
    {
      Disk(saved, halted, launches)
    }

    constructor (d: Disk, fuse: nat)
      ensures Files() == d && this.fuse == fuse
    {
      saved, halted, launches := d.saved, d.halted, d.launches;
      this.fuse := fuse;
    }

    method Effect(e: Effect) returns (alive: bool)
      modifies this
      ensures alive <==> old(fuse) > 0
      ensures fuse == Burn(old(fuse), [e])
      ensures Files() == Carry(old(Files()), [e], old(fuse))
    {
      if fuse == 0 {
        return false;
      }
      fuse := fuse - 1;
      match e {
        case Save(s) => saved := Some(s);
        case Start(n) => launches := launches + [Launch(n, if saved.Some? then saved.value.acceptances else [])];
        case Halt => halted := true;
      }
      assert [e][1..] == [];
      return true;
    }

    method Stop() returns (r: Outcome)
      modifies this
      ensures Files() == Carry(old(Files()), [Halt], old(fuse)) && fuse == Burn(old(fuse), [Halt])
      ensures r == Ended(old(fuse), Plan([Halt], Stopped))
    {
      var alive := Effect(Halt);
      return if alive then Answered(Stopped) else Died;
    }

    /** Intent, start, observation: the three effects around a launch. */
    method Dispatch(intent: Saved) returns (alive: bool)
      modifies this
      ensures var es := [Save(intent), Start(intent.next), Save(Noting(intent, "start", None))];
              && Files() == Carry(old(Files()), es, old(fuse)) && fuse == Burn(old(fuse), es)
              && (alive <==> old(fuse) >= 3)
    {
      var observed := Noting(intent, "start", None);
      CarryThree(Files(), Save(intent), Start(intent.next), Save(observed), fuse);
      alive := Effect(Save(intent));
      if alive {
        alive := Effect(Start(intent.next));
        if alive {
          alive := Effect(Save(observed));
        }
      }
    }

    method AdmitNext(state: Saved, entries: seq<Entry>, x: Input) returns (r: Outcome)
      requires state.next >= 1
      modifies this
      ensures var plan := Admit(state, entries, x);
              && Files() == Carry(old(Files()), plan.effects, old(fuse)) && fuse == Burn(old(fuse), plan.effects)
              && r == Ended(old(fuse), plan)
    {
      if state.next > |entries| {
        return Answered(AllDone);
      }
      var entry := entries[state.next - 1];
      if !PreflightSafe(x.preflight) {
        r := Stop();
        return;
      }
      ghost var start, power := Files(), fuse;
      ghost var first := [Save(Noting(state, "preflight", None))];
      var alive := Effect(Save(Noting(state, "preflight", None)));
      if !x.execute {
        return if alive then Answered(DryRun(state.next)) else Died;
      }
      var intent := Intending(state, entry);
      ghost var launch := [Save(intent), Start(state.next), Save(Noting(intent, "start", None))];
      CarrySplit(start, first, launch, power);
      if alive {
        alive := Dispatch(intent);
      }
      assert Files() == Carry(start, first + launch, power) && fuse == Burn(power, first + launch);
      var safe := StartSafe(x.start, intent, entry);
      ghost var last := [if safe then Save(Resolved(state, entry, x.start.runId)) else Halt];
      CarrySplit(start, first + launch, last, power);
      assert Admit(state, entries, x).effects == first + launch + last;
      if !alive {
        return Died;
      }
      if !safe {
        r := Stop();
        return;
      }
      alive := Effect(Save(Resolved(state, entry, x.start.runId)));
      return if alive then Answered(Launched(x.start.runId)) else Died;
    }

    /** The saves of a terminal observation, and of its acceptance when it is admissible. */
    method SaveTerminal(seen: Saved, inspected: Saved, accepted: Option<Saved>) returns (alive: bool)
      modifies this
      ensures var es := [Save(seen), Save(inspected), if accepted.Some? then Save(accepted.value) else Halt];
              && Files() == Carry(old(Files()), es, old(fuse)) && fuse == Burn(old(fuse), es)
              && (alive <==> old(fuse) >= 3)
    {
      CarryThree(Files(), Save(seen), Save(inspected), if accepted.Some? then Save(accepted.value) else Halt, fuse);
      alive := Effect(Save(seen));
      if alive {
        alive := Effect(Save(inspected));
        if alive {
          alive := Effect(if accepted.Some? then Save(accepted.value) else Halt);
        }
      }
    }

    method ObserveActive(state: Saved, runId: string, entries: seq<Entry>, x: Input)
      returns (r: Outcome, next: Option<Saved>)
      requires state.active.Some? && state.next >= 1
      modifies this
      ensures var (plan, accepted) := Observe(state, runId, entries, x);
              && Files() == Carry(old(Files()), plan.effects, old(fuse)) && fuse == Burn(old(fuse), plan.effects)
              && r == Ended(old(fuse), plan)
              && next == if r.Died? then None else accepted
    {
      next := None;
      if state.next > |entries| {
        return Answered(Faulted), None;
      }
      var entry := entries[state.next - 1];
      if state.active.value.brief != entry.brief || state.active.value.briefSha != entry.briefSha
         || !StatusSafe(x.status, runId, entry) {
        r := Stop();
        return;
      }
      var seen := Noting(state, "status", Some(runId));
      var status := x.status.manifest.value.status.value;
      if !Terminal(status) {
        var alive := Effect(Save(seen));
        return if alive then Answered(InProgress) else Died, None;
      }
      if !InspectSafe(x.inspect, runId, entry, status) {
        CarrySplit(Files(), [Save(seen)], [Halt], fuse);
        assert [Save(seen)] + [Halt] == [Save(seen), Halt];
        var alive := Effect(Save(seen));
        if !alive {
          return Died, None;
        }
        r := Stop();
        return;
      }
      var accepted := if status.Completed? && ResultVerified(x.inspect, entry) then Some(Accepting(state, runId, x)) else None;
      var alive := SaveTerminal(seen, Inspected(state, runId), accepted);
      if !alive {
        return Died, None;
      }
      return Answered(if accepted.Some? then AllDone else Stopped), accepted;
    }

    method CycleOnce(state: Saved, entries: seq<Entry>, x: Input) returns (r: Outcome)
      requires state.next >= 1 && !Unresolved(state)
      modifies this
      ensures var plan := Cycle(state, entries, x);
              && Files() == Carry(old(Files()), plan.effects, old(fuse)) && fuse == Burn(old(fuse), plan.effects)
              && r == Ended(old(fuse), plan)
    {
      if state.active.None? {
        r := AdmitNext(state, entries, x);
        return;
      }
      ghost var start, power := Files(), fuse;
      ghost var (observe, accepted) := Observe(state, state.active.value.runId.value, entries, x);
      var observed, next := ObserveActive(state, state.active.value.runId.value, entries, x);
      if next.None? {
        if accepted.Some? {
          CarrySplit(start, observe.effects, Admit(accepted.value, entries, x).effects, power);
        }
        return observed;
      }
      CarrySplit(start, observe.effects, Admit(next.value, entries, x).effects, power);
      r := AdmitNext(next.value, entries, x);
    }

    method RunLocked(x: Input) returns (r: Outcome)
      modifies this
      ensures var plan := Invocation(old(Files()), x);
              && Files() == Carry(old(Files()), plan.effects, old(fuse)) && fuse == Burn(old(fuse), plan.effects)
              && r == Ended(old(fuse), plan)
    {
      if halted {
        return Answered(Stopped);
      }
      if !x.binaryOk || x.entries.None? {
        r := Stop();
        return;
      }
      if saved.Some? {
        if !Validates(saved.value, x.binding, |x.entries.value|) {
          r := Stop();
          return;
        }
        r := CycleOnce(saved.value, x.entries.value, x);
      } else {
        var initial := InitialState(x.binding);
        CarrySplit(Files(), [Save(initial)], Cycle(initial, x.entries.value, x).effects, fuse);
        var alive := Effect(Save(initial));
        if !alive {
          return Died;
        }
        r := CycleOnce(initial, x.entries.value, x);
      }
    }
  }

  lemma {:induction false} CarrySplit(d: Disk, a: seq<Effect>, b: seq<Effect>, fuse: nat)
    ensures Carry(d, a + b, fuse) == Carry(Carry(d, a, fuse), b, Burn(fuse, a))
    decreases |a|
  {
    if a == [] {
      assert a + b == b;
    } else if fuse > 0 {
      assert (a + b)[1..] == a[1..] + b;
      CarrySplit(Apply(d, a[0]), a[1..], b, fuse - 1);
    }
  }

  lemma CarryThree(d: Disk, a: Effect, b: Effect, c: Effect, fuse: nat)
    ensures Carry(d, [a, b, c], fuse) ==
            Carry(Carry(Carry(d, [a], fuse), [b], Burn(fuse, [a])), [c], Burn(Burn(fuse, [a]), [b]))
  {
    CarrySplit(d, [a], [b, c], fuse);
    CarrySplit(Carry(d, [a], fuse), [b], [c], Burn(fuse, [a]));
    assert [a] + [b, c] == [a, b, c] && [b] + [c] == [b, c];
  }
}
