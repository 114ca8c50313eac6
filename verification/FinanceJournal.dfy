/** The write-ahead journal of finance transitions, with a crash allowed between any two durable
    writes and in the middle of an append. */
module FinanceJournal {
  import opened Base
  import opened FinanceModel
  import opened FinanceLedger
  import opened FinanceReplay

  datatype Operation = Create | AdvancePhase | Terminalize

  datatype Pending = Pending(
    runId: string,
    genesis: string,
    operation: Operation,
    oldManifestSha: Option<string>,
    oldCheckpoint: Option<Checkpoint>,
    eventSha: string,
    eventBytes: string,
    targetSha: string,
    targetBytes: string,
    bindings: seq<Binding>)

  /** The durable files of one run. */
  datatype Disk = Disk(manifest: Option<string>, ledger: string, pending: Option<Pending>)

  const EmptyDisk := Disk(None, "", None)

  datatype Write =
    | PutPending(record: Pending)
    | Append(text: string)
    | PutManifest(bytes: string)
    | DropPending

  datatype Outcome = Done | Refused | Crashed

  function Apply(d: Disk, w: Write): Disk
  {
    match w
    case PutPending(p) => d.(pending := Some(p))
    case Append(t) => d.(ledger := d.ledger + t)
    case PutManifest(b) => d.(manifest := Some(b))
    case DropPending => d.(pending := None)
  }

  /** What an interrupted write leaves: replacements are atomic, an append may leave a proper piece. */
  function Tear(d: Disk, w: Write, cut: nat): Disk
  {
    if w.Append? && cut < |w.text| then d.(ledger := d.ledger + w.text[..cut]) else d
  }

  /** The writes in order, losing power when the budget of completed writes is used up. */
  function Persist(d: Disk, ws: seq<Write>, budget: nat, cut: nat): Disk
    decreases |ws|
  {
    if ws == [] then d
    else if budget == 0 then Tear(d, ws[0], cut)
    else Persist(Apply(d, ws[0]), ws[1..], budget - 1, cut)
  }

  function Sha(env: Env, file: Option<string>): Option<string>
  {
    if file.Some? then Some(env.hash(file.value)) else None
  }

  function OperationOf(body: Body): Operation
  {
    match body
    case RunCreated(_, _) => Create
    case PhaseAdvanced(_, _, _) => AdvancePhase
    case RunTerminalized(_, _, _, _, _) => Terminalize
  }

  // ---- a new transition -----------------------------------------------------------

  function MakePending(env: Env, oldBytes: Option<string>, old_: Option<Manifest>, e: Event, m: Manifest): Pending
  {
    Pending(
      m.runId, m.genesis, OperationOf(e.body), Sha(env, oldBytes),
      if old_.Some? then Some(old_.value.checkpoint) else None,
      env.hash(LineText(env, e)), LineText(env, e),
      env.hash(env.manifestBytes(m)), env.manifestBytes(m), Bindings(m))
  }

  function WritesFor(env: Env, oldBytes: Option<string>, old_: Option<Manifest>, target: Manifest): Result<seq<Write>>
  {
    match BuildTransitionEvent(old_, target)
    case Err => Err
    case Ok(e) =>
      var m := target.(checkpoint := CheckpointFor(env, e));
      if EventLine(env, e).Err? || !env.manifestSchema(m) || !env.artifactsOk(m) then Err
      else Ok([PutPending(MakePending(env, oldBytes, old_, e, m)), Append(LineText(env, e)),
               PutManifest(env.manifestBytes(m)), DropPending])
  }

  /** The manifest names the ledger's tail and its run. */
  predicate CheckpointHolds(l: Ledger, m: Manifest)
  {
    && TailCheckpoint(l) == Some(m.checkpoint)
    && l.events != []
    && l.events[|l.events| - 1].runId == m.runId
    && l.events[|l.events| - 1].genesis == m.genesis
  }

  function TransitionPlan(env: Env, d: Disk, target: Manifest): Result<seq<Write>>
  {
    if d.pending.Some? then Err
    else match d.manifest
      case None =>
        if ReadSpec(env, d.ledger).Ok? && ReadSpec(env, d.ledger).value.events == [] then
          WritesFor(env, None, None, target)
        else Err
      case Some(bytes) =>
        match env.parseManifest(bytes)
        case None => Err
        case Some(m) =>
          if !env.manifestSchema(m) || !env.artifactsOk(m) then Err
          else if ReadSpec(env, d.ledger).Ok? && CheckpointHolds(ReadSpec(env, d.ledger).value, m) then
            WritesFor(env, Some(bytes), Some(m), target)
          else Err
  }

  // ---- recovery --------------------------------------------------------------------

  function PreviousStatus(body: Body): Option<Status>
  {
    match body
    case RunCreated(_, _) => None
    case PhaseAdvanced(previous, _, _) => Some(previous)
    case RunTerminalized(previous, _, _, _, _) => Some(previous)
  }

  predicate BodyFits(body: Body, target: Manifest, creating: bool)
  {
    && body.artifacts == ArtifactIds(target)
    && body.status == target.status
    && match body
       case RunCreated(_, _) => creating
       case PhaseAdvanced(_, _, _) => !Terminal(target.status)
       case RunTerminalized(previous, _, _, result, termination) =>
         && Terminal(target.status)
         && result == ResultId(target.result)
         && termination == target.termination
         && (termination.Some? ==> termination.value.phase == previous)
  }

  predicate ValidEventTarget(e: Event, target: Manifest, oldCheckpoint: Option<Checkpoint>)
  {
    && e.runId == target.runId
    && e.genesis == target.genesis
    && e.sequence == (if oldCheckpoint.Some? then oldCheckpoint.value.sequence + 1 else 0)
    && e.previousSha256 == (if oldCheckpoint.Some? then Some(oldCheckpoint.value.eventSha256) else None)
    && BodyFits(e.body, target, oldCheckpoint.None?)
    && LegalTransition(PreviousStatus(e.body), target.status)
  }

  datatype Checked = Checked(target: Manifest, event: Event)

  function ValidatePending(env: Env, p: Pending): Result<Checked>
  {
    if env.hash(p.eventBytes) != p.eventSha || env.hash(p.targetBytes) != p.targetSha then Err
    else match DecodeLine(env, p.eventBytes)
      case None => Err
      case Some(e) =>
        if EventLine(env, e) != Ok(p.eventBytes) || OperationOf(e.body) != p.operation then Err
        else match env.parseManifest(p.targetBytes)
          case None => Err
          case Some(m) =>
            if && env.manifestSchema(m)
               && p.runId == m.runId && p.genesis == m.genesis
               && m.checkpoint == Checkpoint(e.sequence, p.eventSha)
               && p.bindings == Bindings(m)
               && ValidEventTarget(e, m, p.oldCheckpoint)
               && env.artifactsOk(m)
            then Ok(Checked(m, e)) else Err
  }

  /** The manifest on disk, known to be the old one by digest, is the one the event continues. */
  predicate OldManifestFits(env: Env, p: Pending, e: Event, file: Option<string>)
  {
    match file
    case None => p.oldManifestSha.None? && p.oldCheckpoint.None?
    case Some(bytes) =>
      match env.parseManifest(bytes)
      case None => false
      case Some(m) =>
        && Some(m.status) == PreviousStatus(e.body)
        && p.oldCheckpoint == Some(m.checkpoint)
        && m.runId == p.runId && m.genesis == p.genesis
        && env.artifactsOk(m)
  }

  function RecoveryWrites(env: Env, d: Disk, p: Pending, c: Checked, l: Ledger): Result<seq<Write>>
  {
    var isOld := Sha(env, d.manifest) == p.oldManifestSha;
    var isTarget := Sha(env, d.manifest) == Some(p.targetSha);
    var ledgerOld := TailCheckpoint(l) == p.oldCheckpoint;
    var ledgerTarget :=
      TailCheckpoint(l) == Some(c.target.checkpoint) && l.lines != [] && l.lines[|l.lines| - 1] == p.eventBytes;
    if !isOld && !isTarget then Err
    else if !ledgerOld && !ledgerTarget then Err
    else if isTarget && !ledgerTarget then Err
    else if isOld && !OldManifestFits(env, p, c.event, d.manifest) then Err
    else Ok(MissingWrites(p, isOld, ledgerOld))
  }

  function RecoveryPlan(env: Env, d: Disk): Result<seq<Write>>
  {
    match d.pending
    case None => Ok([])
    case Some(p) =>
      match ValidatePending(env, p)
      case Err => Err
      case Ok(c) =>
        match ReadSpec(env, d.ledger)
        case Err => Err
        case Ok(l) => RecoveryWrites(env, d, p, c, l)
  }

  // ---- the code, one durable write after the other ---------------------------------------

  class FinanceState {
    const env: Env
    var manifest: Option<string>
    var ledger: string
    var pending: Option<Pending>

    ghost function Files(): Disk
      reads this
    {
      Disk(manifest, ledger, pending)
    }

    constructor (env: Env)
      ensures this.env == env && Files() == EmptyDisk
    {
      this.env := env;
      manifest, ledger, pending := None, "", None;
    }

    /** One durable write, or the loss of power while it was under way. */
    method Durable(w: Write, budget: nat, cut: nat) returns (alive: bool)
      modifies this
      ensures alive <==> budget > 0
      ensures Files() == if budget > 0 then Apply(old(Files()), w) else Tear(old(Files()), w, cut)
    {
      if budget == 0 {
        if w.Append? && cut < |w.text| {
          ledger := ledger + w.text[..cut];
        }
        return false;
      }
      match w {
        case PutPending(p) => pending := Some(p);
        case Append(t) => ledger := ledger + t;
        case PutManifest(b) => manifest := Some(b);
        case DropPending => pending := None;
      }
      return true;
    }

    method TransitionWithPending(target: Manifest, budget: nat, cut: nat) returns (r: Outcome)
      modifies this
      ensures match TransitionPlan(env, old(Files()), target)
              case Err => r == Refused && Files() == old(Files())
              case Ok(ws) =>
                && Files() == Persist(old(Files()), ws, budget, cut)
                && r == if budget < |ws| then Crashed else Done
    {
      if pending.Some? {
        return Refused;
      }
      var prior: Option<Manifest> := None;
      var read := ReadFinanceLedger(env, ledger);
      if manifest.Some? {
        prior := env.parseManifest(manifest.value);
        if prior.None? || !env.manifestSchema(prior.value) || !env.artifactsOk(prior.value) {
          return Refused;
        }
        if read.Err? || !CheckpointHolds(read.value, prior.value) {
          return Refused;
        }
      } else if read.Err? || read.value.events != [] {
        return Refused;
      }
      var event := BuildTransitionEvent(prior, target);
      if event.Err? {
        return Refused;
      }
      var line := EventLine(env, event.value);
      if line.Err? {
        return Refused;
      }
      var next := target.(checkpoint := Checkpoint(event.value.sequence, env.hash(line.value)));
      if !env.manifestSchema(next) || !env.artifactsOk(next) {
        return Refused;
      }
      var record := MakePending(env, manifest, prior, event.value, next);
      assert TransitionPlan(env, Files(), target) ==
             Ok([PutPending(record), Append(line.value), PutManifest(env.manifestBytes(next)), DropPending]);
      r := WriteAll(record, line.value, env.manifestBytes(next), budget, cut);
    }

    /** Journal, append, replace, forget: the four durable writes of a transition, in this order. */
    method WriteAll(record: Pending, line: string, bytes: string, budget: nat, cut: nat) returns (r: Outcome)
      modifies this
      ensures var ws := [PutPending(record), Append(line), PutManifest(bytes), DropPending];
              && Files() == Persist(old(Files()), ws, budget, cut)
              && r == if budget < |ws| then Crashed else Done
    {
      PersistFour(Files(), [PutPending(record), Append(line), PutManifest(bytes), DropPending], budget, cut);
      var alive := Durable(PutPending(record), budget, cut);
      if !alive {
        return Crashed;
      }
      alive := Durable(Append(line), budget - 1, cut);
      if !alive {
        return Crashed;
      }
      alive := Durable(PutManifest(bytes), budget - 2, cut);
      if !alive {
        return Crashed;
      }
      alive := Durable(DropPending, budget - 3, cut);
      return if alive then Done else Crashed;
    }

    method ReconcilePending(budget: nat, cut: nat) returns (r: Outcome)
      modifies this
      ensures match RecoveryPlan(env, old(Files()))
              case Err => r == Refused && Files() == old(Files())
              case Ok(ws) =>
                && Files() == Persist(old(Files()), ws, budget, cut)
                && r == if budget < |ws| then Crashed else Done
    {
      if pending.None? {
        return Done;
      }
      var record := pending.value;
      var checked := ValidatePending(env, record);
      if checked.Err? {
        return Refused;
      }
      var isOld := Sha(env, manifest) == record.oldManifestSha;
      var isTarget := Sha(env, manifest) == Some(record.targetSha);
      if !isOld && !isTarget {
        return Refused;
      }
      var read := ReadFinanceLedger(env, ledger);
      if read.Err? {
        return Refused;
      }
      var tail := TailCheckpoint(read.value);
      var ledgerOld := tail == record.oldCheckpoint;
      var ledgerTarget :=
        && tail == Some(checked.value.target.checkpoint)
        && read.value.lines != [] && read.value.lines[|read.value.lines| - 1] == record.eventBytes;
      if (!ledgerOld && !ledgerTarget) || (isTarget && !ledgerTarget) {
        return Refused;
      }
      if isOld && !OldManifestFits(env, record, checked.value.event, manifest) {
        return Refused;
      }
      r := WriteMissing(record, isOld, ledgerOld, budget, cut);
    }

    /** The writes recovery still owes, in order. */
    method WriteMissing(record: Pending, isOld: bool, ledgerOld: bool, budget: nat, cut: nat) returns (r: Outcome)
      modifies this
      ensures var ws := MissingWrites(record, isOld, ledgerOld);
              && Files() == Persist(old(Files()), ws, budget, cut)
              && r == if budget < |ws| then Crashed else Done
    {
      PersistThree(Files(), MissingWrites(record, isOld, ledgerOld), budget, cut);
      var left := budget;
      if isOld {
        if ledgerOld {
          var alive := Durable(Append(record.eventBytes), left, cut);
          if !alive {
            return Crashed;
          }
          left := left - 1;
        }
        var alive := Durable(PutManifest(record.targetBytes), left, cut);
        if !alive {
          return Crashed;
        }
        left := left - 1;
      }
      var alive := Durable(DropPending, left, cut);
      return if alive then Done else Crashed;
    }
  }

  function MissingWrites(p: Pending, isOld: bool, ledgerOld: bool): seq<Write>
  {
    if !isOld then [DropPending]
    else if ledgerOld then [Append(p.eventBytes), PutManifest(p.targetBytes), DropPending]
    else [PutManifest(p.targetBytes), DropPending]
  }

  lemma PersistThree(d: Disk, ws: seq<Write>, budget: nat, cut: nat)
    requires 1 <= |ws| <= 3
    ensures Persist(d, ws, budget, cut) ==
            if budget == 0 then Tear(d, ws[0], cut)
            else if |ws| == 1 then Apply(d, ws[0])
            else if budget == 1 then Tear(Apply(d, ws[0]), ws[1], cut)
            else if |ws| == 2 then Apply(Apply(d, ws[0]), ws[1])
            else if budget == 2 then Tear(Apply(Apply(d, ws[0]), ws[1]), ws[2], cut)
            else Apply(Apply(Apply(d, ws[0]), ws[1]), ws[2])
  {
    if budget > 0 && |ws| > 1 {
      var d1, tail := Apply(d, ws[0]), ws[1..];
      assert Persist(d, ws, budget, cut) == Persist(d1, tail, budget - 1, cut);
      assert tail[0] == ws[1];
      if budget > 1 {
        var d2, last := Apply(d1, tail[0]), tail[1..];
        assert Persist(d1, tail, budget - 1, cut) == Persist(d2, last, budget - 2, cut);
        if |ws| == 3 {
          assert last[0] == ws[2] && last[1..] == [];
          assert budget > 2 ==> Persist(d2, last, budget - 2, cut) == Persist(Apply(d2, last[0]), [], budget - 3, cut);
        } else {
          assert last == [];
        }
      }
    }
  }

  lemma PersistFour(d: Disk, ws: seq<Write>, budget: nat, cut: nat)
    requires |ws| == 4
    ensures Persist(d, ws, budget, cut) ==
            if budget == 0 then Tear(d, ws[0], cut)
            else if budget == 1 then Tear(Apply(d, ws[0]), ws[1], cut)
            else if budget == 2 then Tear(Apply(Apply(d, ws[0]), ws[1]), ws[2], cut)
            else if budget == 3 then Tear(Apply(Apply(Apply(d, ws[0]), ws[1]), ws[2]), ws[3], cut)
            else Apply(Apply(Apply(Apply(d, ws[0]), ws[1]), ws[2]), ws[3])
  {
    if budget > 0 {
      PersistThree(Apply(d, ws[0]), ws[1..], budget - 1, cut);
    }
  }

  // ---- committed runs and what a crash leaves of the next transition -------------------------

  /** The disk on which exactly this run has been committed. */
  ghost function DiskOf(env: Env, run: seq<Manifest>): Disk
    requires Execute(env, run).Ok?
  {
    var p := Execute(env, run).value;
    Disk(if p.last.Some? then Some(env.manifestBytes(p.last.value)) else None, ChainText(env, p.events), None)
  }

  /** The run executes, and its last manifest passes the schema and artifact checks. */
  ghost predicate Committable(env: Env, run: seq<Manifest>)
  {
    && Execute(env, run).Ok?
    && match Execute(env, run).value.last
       case None => run == []
       case Some(m) => env.manifestSchema(m) && env.artifactsOk(m)
  }

  /** The write-ahead record, event line and manifest bytes that take a run to its next manifest. */
  ghost predicate Record(env: Env, run: seq<Manifest>, target: Manifest, p: Pending, e: Event, m: Manifest)
    requires Committable(env, run)
  {
    var q := Execute(env, run).value;
    && BuildTransitionEvent(q.last, target) == Ok(e)
    && EventLine(env, e).Ok?
    && m == target.(checkpoint := CheckpointFor(env, e))
    && env.manifestSchema(m) && env.artifactsOk(m)
    && p == MakePending(env, DiskOf(env, run).manifest, q.last, e, m)
  }

  /** Where a crash can leave the journal of one transition. */
  datatype Stage = Journaled | Torn(cut: nat) | Appended | Replaced

  ghost function Interrupted(env: Env, run: seq<Manifest>, p: Pending, e: Event, m: Manifest, s: Stage): Disk
    requires Execute(env, run).Ok?
    requires s.Torn? ==> s.cut <= |LineText(env, e)|
  {
    var d := DiskOf(env, run).(pending := Some(p));
    match s
    case Journaled => d
    case Torn(cut) => d.(ledger := d.ledger + LineText(env, e)[..cut])
    case Appended => d.(ledger := d.ledger + LineText(env, e))
    case Replaced => Disk(Some(env.manifestBytes(m)), d.ledger + LineText(env, e), Some(p))
  }

  /** The disk of a committed run, reached with no transition under way. */
  ghost predicate Settled(env: Env, d: Disk, run: seq<Manifest>)
  {
    Committable(env, run) && d == DiskOf(env, run)
  }

  /** The disk of a committed run with its next transition interrupted at the given stage. */
  ghost predicate InFlight(env: Env, d: Disk, run: seq<Manifest>, target: Manifest, s: Stage)
  {
    Committable(env, run) && exists p, e, m :: Flight(env, d, run, target, p, e, m, s)
  }

  ghost predicate Flight(env: Env, d: Disk, run: seq<Manifest>, target: Manifest,
                         p: Pending, e: Event, m: Manifest, s: Stage)
    requires Committable(env, run)
  {
    && Record(env, run, target, p, e, m)
    && (s.Torn? ==> 0 < s.cut < |LineText(env, e)|)
    && d == Interrupted(env, run, p, e, m, s)
  }

  /** Reading a committed run's disk back gives its chain and its last manifest. */
  lemma CommittedReads(env: Env, run: seq<Manifest>)
    requires env.Faithful() && Committable(env, run)
    ensures var q := Execute(env, run).value;
            && ReadSpec(env, ChainText(env, q.events)) == Ok(LedgerOf(env, q.events))
            && TailCheckpoint(LedgerOf(env, q.events)) ==
               (if run == [] then None else Some(q.last.value.checkpoint))
            && (run == [] <==> q.last.None?)
            && (run == [] <==> q.events == [])
            && (run != [] ==> CheckpointHolds(LedgerOf(env, q.events), q.last.value))
  {
    ExecutionIsChained(env, run);
    var q := Execute(env, run).value;
    ReaderAcceptsChains(env, q.events);
    TailOfChain(env, q.events);
    if run != [] {
      assert Linked(env, q.events, |run| - 1);
    }
  }

  /** Committing one more manifest extends the ledger by one line. */
  lemma NextDisk(env: Env, run: seq<Manifest>, target: Manifest, p: Pending, e: Event, m: Manifest)
    requires Committable(env, run) && Record(env, run, target, p, e, m)
    ensures Committable(env, run + [target])
    ensures Execute(env, run + [target]).value == Progress(Execute(env, run).value.events + [e], Some(m))
    ensures DiskOf(env, run + [target]) ==
            Disk(Some(env.manifestBytes(m)), DiskOf(env, run).ledger + LineText(env, e), None)
  {
    assert (run + [target])[..|run|] == run;
    ExtendText(env, Execute(env, run).value.events, e);
  }

  lemma PlanReads(env: Env, run: seq<Manifest>, target: Manifest)
    requires env.Faithful() && Committable(env, run)
    ensures TransitionPlan(env, DiskOf(env, run), target) ==
            WritesFor(env, DiskOf(env, run).manifest, Execute(env, run).value.last, target)
  {
    CommittedReads(env, run);
  }

  /** The record, event and manifest behind a transition's writes. */
  lemma WritesRecord(env: Env, run: seq<Manifest>, target: Manifest, ws: seq<Write>)
    returns (p: Pending, e: Event, m: Manifest)
    requires Committable(env, run)
    requires WritesFor(env, DiskOf(env, run).manifest, Execute(env, run).value.last, target) == Ok(ws)
    ensures Record(env, run, target, p, e, m)
    ensures ws == [PutPending(p), Append(LineText(env, e)), PutManifest(env.manifestBytes(m)), DropPending]
  {
    var q := Execute(env, run).value;
    e := BuildTransitionEvent(q.last, target).value;
    m := target.(checkpoint := CheckpointFor(env, e));
    p := MakePending(env, DiskOf(env, run).manifest, q.last, e, m);
  }

  /** The stage a transition loses power in, once its record is durable. */
  function CrashStage(budget: nat, cut: nat, length: nat): Stage
  {
    if budget >= 3 then Replaced
    else if budget == 2 then Appended
    else if 0 < cut < length then Torn(cut)
    else Journaled
  }

  lemma CrashStops(env: Env, run: seq<Manifest>, target: Manifest, p: Pending, e: Event, m: Manifest,
                   budget: nat, cut: nat)
    requires Committable(env, run) && Record(env, run, target, p, e, m) && 0 < budget < 4
    ensures var ws := [PutPending(p), Append(LineText(env, e)), PutManifest(env.manifestBytes(m)), DropPending];
            Flight(env, Persist(DiskOf(env, run), ws, budget, cut), run, target, p, e, m,
                   CrashStage(budget, cut, |LineText(env, e)|))
  {
    CrashShape(DiskOf(env, run), p, LineText(env, e), env.manifestBytes(m), budget, cut);
  }

  lemma CrashShape(d: Disk, p: Pending, line: string, bytes: string, budget: nat, cut: nat)
    requires 0 < budget < 4
    ensures Persist(d, [PutPending(p), Append(line), PutManifest(bytes), DropPending], budget, cut) ==
            match CrashStage(budget, cut, |line|)
            case Journaled => d.(pending := Some(p))
            case Torn(at) => d.(pending := Some(p), ledger := d.ledger + line[..at])
            case Appended => d.(pending := Some(p), ledger := d.ledger + line)
            case Replaced => Disk(Some(bytes), d.ledger + line, Some(p))
  {
    PersistFour(d, [PutPending(p), Append(line), PutManifest(bytes), DropPending], budget, cut);
    assert d.ledger + line[..0] == d.ledger;
  }

  lemma CrashShapeEnds(d: Disk, p: Pending, line: string, bytes: string, budget: nat, cut: nat)
    requires budget == 0 || budget >= 4
    ensures Persist(d, [PutPending(p), Append(line), PutManifest(bytes), DropPending], budget, cut) ==
            if budget == 0 then d else Disk(Some(bytes), d.ledger + line, None)
  {
    PersistFour(d, [PutPending(p), Append(line), PutManifest(bytes), DropPending], budget, cut);
  }

  /** After any number of completed writes the disk is the old one, the new one, or interrupted between. */
  lemma CrashLeaves(env: Env, run: seq<Manifest>, target: Manifest, ws: seq<Write>, budget: nat, cut: nat)
    requires env.Faithful() && Committable(env, run)
    requires TransitionPlan(env, DiskOf(env, run), target) == Ok(ws)
    ensures |ws| == 4 && ws[1].Append?
    ensures var d := Persist(DiskOf(env, run), ws, budget, cut);
            if budget == 0 then Settled(env, d, run)
            else if budget >= 4 then Settled(env, d, run + [target])
            else InFlight(env, d, run, target, CrashStage(budget, cut, |ws[1].text|))
  {
    PlanReads(env, run, target);
    var p, e, m := WritesRecord(env, run, target, ws);
    NextDisk(env, run, target, p, e, m);
    if 0 < budget < 4 {
      CrashStops(env, run, target, p, e, m, budget, cut);
    } else {
      CrashShapeEnds(DiskOf(env, run), p, LineText(env, e), env.manifestBytes(m), budget, cut);
    }
  }

  // ---- recovery: when it completes, and with what ---------------------------------------------

  /** The caller's obligation: a terminal target declares the phase it leaves. */
  predicate PhaseDeclared(prior: Option<Manifest>, target: Manifest)
  {
    prior.Some? && Terminal(target.status) ==> PhaseMatches(prior.value, target)
  }

  /** The old and the new manifest bytes exhibit a digest collision. */
  ghost predicate DigestClash(env: Env, run: seq<Manifest>, m: Manifest)
    requires Execute(env, run).Ok?
  {
    && DiskOf(env, run).manifest.Some?
    && Collision(env.hash, DiskOf(env, run).manifest.value, env.manifestBytes(m))
  }

  lemma RecordValidates(env: Env, run: seq<Manifest>, target: Manifest, p: Pending, e: Event, m: Manifest)
    requires env.Faithful() && Committable(env, run) && Record(env, run, target, p, e, m)
    ensures ValidatePending(env, p) ==
            if PhaseDeclared(LastManifest(env, run), target) then Ok(Checked(m, e)) else Err
  {
    LineDecodes(env, e);
    assert env.parseManifest(env.manifestBytes(m)) == Some(m);
    assert Bindings(m) == Bindings(target);
  }

  lemma CurrentIsOld(env: Env, run: seq<Manifest>, target: Manifest, p: Pending, e: Event, m: Manifest)
    requires env.Faithful() && Committable(env, run) && Record(env, run, target, p, e, m)
    ensures OldManifestFits(env, p, e, DiskOf(env, run).manifest)
    ensures !OldManifestFits(env, p, e, Some(env.manifestBytes(m)))
    ensures DiskOf(env, run).manifest != Some(env.manifestBytes(m))
  {
    var q := Execute(env, run).value;
    assert env.parseManifest(env.manifestBytes(m)) == Some(m);
    if q.last.Some? {
      assert env.parseManifest(env.manifestBytes(q.last.value)) == q.last;
    }
  }

  lemma OldTail(env: Env, run: seq<Manifest>, target: Manifest, p: Pending, e: Event, m: Manifest)
    requires env.Faithful() && Committable(env, run) && Record(env, run, target, p, e, m)
    ensures var l := LedgerOf(env, Execute(env, run).value.events);
            && ReadSpec(env, DiskOf(env, run).ledger) == Ok(l)
            && TailCheckpoint(l) == p.oldCheckpoint
            && TailCheckpoint(l) != Some(m.checkpoint)
  {
    CommittedReads(env, run);
  }

  lemma NewTail(env: Env, run: seq<Manifest>, target: Manifest, p: Pending, e: Event, m: Manifest)
    requires env.Faithful() && Committable(env, run) && Record(env, run, target, p, e, m)
    ensures var l := LedgerOf(env, Execute(env, run).value.events + [e]);
            && ReadSpec(env, DiskOf(env, run).ledger + LineText(env, e)) == Ok(l)
            && TailCheckpoint(l) == Some(m.checkpoint)
            && TailCheckpoint(l) != p.oldCheckpoint
            && l.lines != [] && l.lines[|l.lines| - 1] == p.eventBytes
  {
    NextDisk(env, run, target, p, e, m);
    CommittedReads(env, run + [target]);
    CommittedReads(env, run);
  }

  lemma TornTail(env: Env, run: seq<Manifest>, target: Manifest, p: Pending, e: Event, m: Manifest, cut: nat)
    requires env.Faithful() && Committable(env, run) && Record(env, run, target, p, e, m)
    requires 0 < cut < |LineText(env, e)|
    ensures ReadSpec(env, DiskOf(env, run).ledger + LineText(env, e)[..cut]).Err?
  {
    TornLineIsRefused(env, Execute(env, run).value.events, e, cut);
  }

  /** What recovery still has to write. */
  function Remaining(env: Env, e: Event, m: Manifest, s: Stage): seq<Write>
  {
    match s
    case Journaled => [Append(LineText(env, e)), PutManifest(env.manifestBytes(m)), DropPending]
    case Appended => [PutManifest(env.manifestBytes(m)), DropPending]
    case _ => [DropPending]
  }

  lemma ManifestDigests(env: Env, run: seq<Manifest>, target: Manifest, p: Pending, e: Event, m: Manifest)
    requires env.Faithful() && Committable(env, run) && Record(env, run, target, p, e, m)
    ensures var before, after := DiskOf(env, run).manifest, Some(env.manifestBytes(m));
            && Sha(env, before) == p.oldManifestSha
            && (Sha(env, before) == Some(p.targetSha) <==> DigestClash(env, run, m))
            && Sha(env, after) == Some(p.targetSha)
            && (Sha(env, after) == p.oldManifestSha <==> DigestClash(env, run, m))
  {
    CurrentIsOld(env, run, target, p, e, m);
  }

  lemma RecoverBeforeAppend(env: Env, d: Disk, p: Pending, c: Checked, l: Ledger)
    requires Sha(env, d.manifest) == p.oldManifestSha && OldManifestFits(env, p, c.event, d.manifest)
    requires TailCheckpoint(l) == p.oldCheckpoint && TailCheckpoint(l) != Some(c.target.checkpoint)
    ensures RecoveryWrites(env, d, p, c, l) ==
            if Sha(env, d.manifest) == Some(p.targetSha) then Err
            else Ok([Append(p.eventBytes), PutManifest(p.targetBytes), DropPending])
  {
  }

  lemma RecoverAfterAppend(env: Env, d: Disk, p: Pending, c: Checked, l: Ledger)
    requires Sha(env, d.manifest) == p.oldManifestSha || Sha(env, d.manifest) == Some(p.targetSha)
    requires TailCheckpoint(l) == Some(c.target.checkpoint) && TailCheckpoint(l) != p.oldCheckpoint
    requires l.lines != [] && l.lines[|l.lines| - 1] == p.eventBytes
    ensures RecoveryWrites(env, d, p, c, l) ==
            if Sha(env, d.manifest) != p.oldManifestSha then Ok([DropPending])
            else if OldManifestFits(env, p, c.event, d.manifest) then Ok([PutManifest(p.targetBytes), DropPending])
            else Err
  {
  }

  /** Recovery goes through exactly when the append was not torn, the caller declared the phase left,
      and no collision confuses the two manifests; it then plans exactly the writes still missing. */
  lemma RecoveryIsExact(env: Env, run: seq<Manifest>, target: Manifest, p: Pending, e: Event, m: Manifest, s: Stage)
    requires env.Faithful() && Committable(env, run) && Record(env, run, target, p, e, m)
    requires s.Torn? ==> 0 < s.cut < |LineText(env, e)|
    ensures RecoveryPlan(env, Interrupted(env, run, p, e, m, s)) ==
            if && !s.Torn?
               && PhaseDeclared(LastManifest(env, run), target)
               && (DigestClash(env, run, m) ==> s == Appended)
            then Ok(Remaining(env, e, m, s)) else Err
  {
    hide Execute, RecoveryWrites, ValidatePending, ReadSpec, OldManifestFits, TailCheckpoint;
    RecordValidates(env, run, target, p, e, m);
    CurrentIsOld(env, run, target, p, e, m);
    ManifestDigests(env, run, target, p, e, m);
    var d, c := Interrupted(env, run, p, e, m, s), Checked(m, e);
    match s {
      case Journaled =>
        OldTail(env, run, target, p, e, m);
        RecoverBeforeAppend(env, d, p, c, LedgerOf(env, Execute(env, run).value.events));
      case Torn(cut) => TornTail(env, run, target, p, e, m, cut);
      case _ =>
        NewTail(env, run, target, p, e, m);
        RecoverAfterAppend(env, d, p, c, LedgerOf(env, Execute(env, run).value.events + [e]));
    }
  }

  /** A terminal target that declares another phase than the one it leaves is journaled without complaint, and power
      lost at any moment of its transition leaves a record that recovery refuses. */
  lemma UndeclaredPhaseIsRefused(env: Env, run: seq<Manifest>, target: Manifest, ws: seq<Write>, k: nat, cut: nat)
    requires env.Faithful() && Committable(env, run) && TransitionPlan(env, DiskOf(env, run), target) == Ok(ws)
    requires !PhaseDeclared(LastManifest(env, run), target) && 0 < k < 4
    ensures RecoveryPlan(env, Persist(DiskOf(env, run), ws, k, cut)).Err?
  {
    PlanReads(env, run, target);
    var p, e, m := WritesRecord(env, run, target, ws);
    CrashStops(env, run, target, p, e, m, k, cut);
    RecoveryIsExact(env, run, target, p, e, m, CrashStage(k, cut, |LineText(env, e)|));
  }

  /** Such a target, obeying the termination and count rules: a first round failed as if in its second. */
  lemma UndeclaredPhaseExample(env: Env, k: nat, cut: nat)
    requires env.Faithful() && Permissive(env) && 0 < k < 4
    ensures var run := [FirstSample()];
            var target := SecondSample(Five("packet")).(
              status := Failed, termination := Some(Termination(R2Running, OutputInvalid, false)));
            && Committable(env, run) && ValidTermination(target) && ValidCounts(target)
            && TransitionPlan(env, DiskOf(env, run), target).Ok?
            && RecoveryPlan(env, Persist(DiskOf(env, run), TransitionPlan(env, DiskOf(env, run), target).value, k, cut)).Err?
  {
    var run := [FirstSample()];
    var target := SecondSample(Five("packet")).(
      status := Failed, termination := Some(Termination(R2Running, OutputInvalid, false)));
    TwoStepsExecute(env, run[0], target);
    PlanReads(env, run, target);
    UndeclaredPhaseIsRefused(env, run, target, TransitionPlan(env, DiskOf(env, run), target).value, k, cut);
  }

  /** The stage a recovery loses power in. */
  function StageAfter(s: Stage, budget: nat, cut: nat, length: nat): Stage
  {
    match s
    case Journaled =>
      if budget >= 2 then Replaced else if budget == 1 then Appended
      else if 0 < cut < length then Torn(cut) else Journaled
    case Appended => if budget >= 1 then Replaced else Appended
    case _ => s
  }

  lemma RecoveryStops(env: Env, run: seq<Manifest>, target: Manifest, p: Pending, e: Event, m: Manifest,
                      s: Stage, budget: nat, cut: nat)
    requires Committable(env, run) && Record(env, run, target, p, e, m)
    requires !s.Torn? && budget < |Remaining(env, e, m, s)|
    ensures Flight(env, Persist(Interrupted(env, run, p, e, m, s), Remaining(env, e, m, s), budget, cut),
                   run, target, p, e, m, StageAfter(s, budget, cut, |LineText(env, e)|))
  {
    RecoveryShape(Interrupted(env, run, p, e, m, s), LineText(env, e), env.manifestBytes(m), s, budget, cut);
  }

  lemma RecoveryShape(d: Disk, line: string, bytes: string, s: Stage, budget: nat, cut: nat)
    requires !s.Torn?
    ensures var ws := match s
              case Journaled => [Append(line), PutManifest(bytes), DropPending]
              case Appended => [PutManifest(bytes), DropPending]
              case _ => [DropPending];
            Persist(d, ws, budget, cut) ==
            if budget < |ws| then
              match StageAfter(s, budget, cut, |line|)
              case Journaled => d
              case Torn(at) => d.(ledger := d.ledger + line[..at])
              case Appended => if s.Appended? then d else d.(ledger := d.ledger + line)
              case Replaced =>
                if s.Journaled? then d.(manifest := Some(bytes), ledger := d.ledger + line)
                else if s.Appended? then d.(manifest := Some(bytes)) else d
            else if s.Journaled? then Disk(Some(bytes), d.ledger + line, None)
            else if s.Appended? then Disk(Some(bytes), d.ledger, None)
            else Disk(d.manifest, d.ledger, None)
  {
    var ws := match s
      case Journaled => [Append(line), PutManifest(bytes), DropPending]
      case Appended => [PutManifest(bytes), DropPending]
      case _ => [DropPending];
    PersistThree(d, ws, budget, cut);
  }

  lemma RecoveryEnds(env: Env, run: seq<Manifest>, target: Manifest, p: Pending, e: Event, m: Manifest,
                     s: Stage, budget: nat, cut: nat)
    requires Committable(env, run) && Record(env, run, target, p, e, m)
    requires !s.Torn? && budget >= |Remaining(env, e, m, s)|
    ensures Persist(Interrupted(env, run, p, e, m, s), Remaining(env, e, m, s), budget, cut) ==
            Disk(Some(env.manifestBytes(m)), DiskOf(env, run).ledger + LineText(env, e), None)
  {
    RecoveryShape(Interrupted(env, run, p, e, m, s), LineText(env, e), env.manifestBytes(m), s, budget, cut);
  }

  /** A recovery, itself interrupted or not, leaves the new run committed or still in flight. */
  lemma RecoveryLeaves(env: Env, run: seq<Manifest>, target: Manifest, p: Pending, e: Event, m: Manifest,
                       s: Stage, budget: nat, cut: nat)
    requires env.Faithful() && Committable(env, run) && Record(env, run, target, p, e, m)
    requires !s.Torn?
    ensures var d := Persist(Interrupted(env, run, p, e, m, s), Remaining(env, e, m, s), budget, cut);
            if budget >= |Remaining(env, e, m, s)| then Settled(env, d, run + [target])
            else InFlight(env, d, run, target, StageAfter(s, budget, cut, |LineText(env, e)|))
  {
    if budget < |Remaining(env, e, m, s)| {
      RecoveryStops(env, run, target, p, e, m, s, budget, cut);
    } else {
      NextDisk(env, run, target, p, e, m);
      RecoveryEnds(env, run, target, p, e, m, s, budget, cut);
    }
  }

  // ---- any sequence of operations and crashes ---------------------------------------------------

  datatype Op =
    | Begin(target: Manifest, budget: nat, cut: nat)
    | Reconcile(budget: nat, cut: nat)

  function Perform(env: Env, d: Disk, op: Op): Disk
  {
    var plan := match op
      case Begin(target, _, _) => TransitionPlan(env, d, target)
      case Reconcile(_, _) => RecoveryPlan(env, d);
    if plan.Ok? then Persist(d, plan.value, op.budget, op.cut) else d
  }

  function PerformAll(env: Env, ops: seq<Op>): Disk
  {
    if ops == [] then EmptyDisk else Perform(env, PerformAll(env, ops[..|ops| - 1]), ops[|ops| - 1])
  }

  /** A committed run, or a committed run with one transition interrupted. */
  ghost predicate Consistent(env: Env, d: Disk)
  {
    (exists run :: Settled(env, d, run)) || (exists run, target, s :: InFlight(env, d, run, target, s))
  }

  lemma SettledSteps(env: Env, d: Disk, run: seq<Manifest>, op: Op)
    requires env.Faithful() && Settled(env, d, run)
    ensures Consistent(env, Perform(env, d, op))
  {
    hide WritesFor, RecoveryWrites, ValidatePending, Execute;
    if op.Begin? && TransitionPlan(env, d, op.target).Ok? {
      var ws := TransitionPlan(env, d, op.target).value;
      CrashLeaves(env, run, op.target, ws, op.budget, op.cut);
    } else {
      assert Perform(env, d, op) == d;
    }
  }

  lemma InFlightSteps(env: Env, d: Disk, run: seq<Manifest>, target: Manifest, s: Stage, op: Op)
    requires env.Faithful() && InFlight(env, d, run, target, s)
    ensures Consistent(env, Perform(env, d, op))
  {
    hide WritesFor, RecoveryWrites, ValidatePending, Execute, Persist;
    var p, e, m :| Flight(env, d, run, target, p, e, m, s);
    RecoveryIsExact(env, run, target, p, e, m, s);
    if op.Reconcile? && RecoveryPlan(env, d).Ok? {
      RecoveryLeaves(env, run, target, p, e, m, s, op.budget, op.cut);
    } else {
      assert Perform(env, d, op) == d;
    }
  }

  /** Crash atomicity over all runs: whatever is attempted and wherever power is lost, the files are those of
      a committed run, or of a committed run with exactly one transition interrupted at a known stage. */
  lemma {:induction false} EveryRunIsConsistent(env: Env, ops: seq<Op>)
    requires env.Faithful()
    ensures Consistent(env, PerformAll(env, ops))
    decreases |ops|
  {
    if ops == [] {
      assert Settled(env, EmptyDisk, []);
    } else {
      var before, op := ops[..|ops| - 1], ops[|ops| - 1];
      EveryRunIsConsistent(env, before);
      var d := PerformAll(env, before);
      if run :| Settled(env, d, run) {
        SettledSteps(env, d, run, op);
      } else {
        var run, target, s :| InFlight(env, d, run, target, s);
        InFlightSteps(env, d, run, target, s, op);
      }
    }
  }

  /** Corollary, without a record: a reconcile never touches a settled disk. */
  lemma ReconcileIdles(env: Env, d: Disk, run: seq<Manifest>, budget: nat, cut: nat)
    requires Settled(env, d, run)
    ensures Perform(env, d, Reconcile(budget, cut)) == d
  {
    assert RecoveryPlan(env, d) == Ok([]);
  }

  /** What a finished reconcile of an interrupted transition must achieve: manifest and ledger both at the target,
      unless the append was torn, the caller did not declare the phase left, or the two manifests collide. */
  ghost predicate Reconciled(env: Env, d: Disk, after: Disk, run: seq<Manifest>, target: Manifest, m: Manifest, s: Stage)
    requires Execute(env, run).Ok?
  {
    if && !s.Torn? && PhaseDeclared(LastManifest(env, run), target)
       && (DigestClash(env, run, m) ==> s == Appended)
    then Settled(env, after, run + [target])
    else RecoveryPlan(env, d).Err? && after == d
  }

  /** A reconcile that is left to finish commits the interrupted transition, or refuses and changes nothing. */
  lemma ReconcileSettles(env: Env, d: Disk, run: seq<Manifest>, target: Manifest, s: Stage, budget: nat, cut: nat)
    returns (m: Manifest)
    requires env.Faithful() && budget >= 3 && InFlight(env, d, run, target, s)
    ensures Committable(env, run + [target]) && LastManifest(env, run + [target]) == Some(m)
    ensures Reconciled(env, d, Perform(env, d, Reconcile(budget, cut)), run, target, m, s)
  {
    var p, e, m0 :| Flight(env, d, run, target, p, e, m0, s);
    m := m0;
    NextDisk(env, run, target, p, e, m);
    FlightSettles(env, d, run, target, p, e, m, s, budget, cut);
  }

  lemma FlightSettles(env: Env, d: Disk, run: seq<Manifest>, target: Manifest, p: Pending, e: Event, m: Manifest,
                      s: Stage, budget: nat, cut: nat)
    requires env.Faithful() && budget >= 3 && Committable(env, run) && Flight(env, d, run, target, p, e, m, s)
    ensures Reconciled(env, d, Perform(env, d, Reconcile(budget, cut)), run, target, m, s)
  {
    RecoveryIsExact(env, run, target, p, e, m, s);
    if RecoveryPlan(env, d).Ok? {
      RecoveryLeaves(env, run, target, p, e, m, s, budget, cut);
    } else {
      assert Perform(env, d, Reconcile(budget, cut)) == d;
    }
  }

  /** End to end: whatever crashes a settled run has been through, its ledger is the one rebuilt from its manifest
      exactly when its transitions dropped or exchanged no accepted artifact. */
  lemma SettledRunsReplay(env: Env, d: Disk, run: seq<Manifest>)
    requires env.Faithful() && Settled(env, d, run) && CheckedRun(run)
    ensures ExpectedSpec(env, run[|run| - 1]) == Ok(Replay(d.ledger, LastManifest(env, run).value.checkpoint))
            <==> GrowingRun(run)
  {
    ExecutionIsChained(env, run);
    ReplayAcceptsExactlyGrowth(env, run);
  }
}
