/** Which records recovery accepts, on any disk, and what it makes of them. */
module FinanceRecovery {
  import opened Base
  import opened Canonical
  import opened FinanceModel
  import opened FinanceLedger
  import opened FinanceReplay
  import opened FinanceJournal
  import opened FinanceProgress

  /** The event follows the checkpoint the record says it follows. */
  predicate Follows(e: Event, old_: Option<Checkpoint>)
  {
    match old_
    case None => e.sequence == 0 && e.previousSha256 == None
    case Some(c) => e.sequence == c.sequence + 1 && e.previousSha256 == Some(c.eventSha256)
  }

  /** The operation, the event's kind and the manifest's status agree, and the step is in the table. */
  predicate BodyAgrees(p: Pending, e: Event, m: Manifest)
  {
    match e.body
    case RunCreated(status, artifacts) =>
      p.operation == Create && p.oldCheckpoint == None && status == m.status && (None, status) in STEPS
    case PhaseAdvanced(previous, status, artifacts) =>
      p.operation == AdvancePhase && status == m.status && status !in ENDS && (Some(previous), status) in STEPS
    case RunTerminalized(previous, status, artifacts, result, termination) =>
      && p.operation == Terminalize && status == m.status && status in ENDS && (Some(previous), status) in STEPS
      && result == (if m.result.Some? then Some(m.result.value.identity) else None)
      && termination == m.termination && (termination.Some? ==> termination.value.phase == previous)
  }

  /** The record is this event's and this manifest's, digest by digest and field by field. */
  predicate Sound(env: Env, p: Pending, e: Event, m: Manifest)
  {
    && env.hash(p.eventBytes) == p.eventSha && env.hash(p.targetBytes) == p.targetSha
    && p.eventBytes == CanonicalText(env.toValue(e)) + "\n" && env.eventSchema(env.toValue(e))
    && env.parseManifest(p.targetBytes) == Some(m) && env.manifestSchema(m) && env.artifactsOk(m)
    && p.runId == m.runId == e.runId && p.genesis == m.genesis == e.genesis
    && m.checkpoint == Checkpoint(e.sequence, p.eventSha)
    && p.bindings == [m.policy] + [m.invocation] + m.r1Packets + m.r2Packets + m.r1Outputs + m.r2Outputs
                     + m.arbiterOutputs + (if m.result.Some? then [m.result.value] else [])
    && e.body.artifacts == Listed(m)
    && Follows(e, p.oldCheckpoint) && BodyAgrees(p, e, m)
  }

  lemma EventTargetIsSound(p: Pending, e: Event, m: Manifest)
    ensures OperationOf(e.body) == p.operation && ValidEventTarget(e, m, p.oldCheckpoint) <==>
            && e.runId == m.runId && e.genesis == m.genesis && e.body.artifacts == Listed(m)
            && Follows(e, p.oldCheckpoint) && BodyAgrees(p, e, m)
  {
    ListedInOrder(m);
    TableIsSteps(PreviousStatus(e.body), m.status);
    hide ArtifactIds, Listed, LegalTransition, STEPS;
  }

  /** The line is this event's, and its schema accepts it. */
  lemma LineIsEvent(env: Env, line: string, e: Event)
    requires env.Faithful()
    ensures DecodeLine(env, line) == Some(e) && EventLine(env, e) == Ok(line) <==>
            line == CanonicalText(env.toValue(e)) + "\n" && env.eventSchema(env.toValue(e))
  {
    if line == LineText(env, e) && env.eventSchema(env.toValue(e)) {
      LineDecodes(env, e);
    }
    hide Env.Faithful, CanonicalText, DecodeLine;
  }

  /** A record is accepted exactly when it is sound for some event and manifest, and then for those. */
  lemma RecordIsChecked(env: Env, p: Pending, e: Event, m: Manifest)
    requires env.Faithful()
    ensures ValidatePending(env, p) == Ok(Checked(m, e)) <==> Sound(env, p, e, m)
  {
    LineIsEvent(env, p.eventBytes, e);
    EventTargetIsSound(p, e, m);
    hide Env.Faithful, CanonicalText, DecodeLine, ValidEventTarget, BodyAgrees, Follows, Listed, OperationOf, EventLine;
  }

  function Tail(l: Ledger): Option<Checkpoint>
  {
    if l.events != [] && l.digests != [] then
      Some(Checkpoint(l.events[|l.events| - 1].sequence, l.digests[|l.digests| - 1]))
    else None
  }

  /** The manifest on disk is the one the record replaces, by digest, and the one its event continues. */
  predicate StandsBefore(env: Env, d: Disk, p: Pending, e: Event)
  {
    match d.manifest
    case None => p.oldManifestSha == None && p.oldCheckpoint == None
    case Some(bytes) =>
      && p.oldManifestSha == Some(env.hash(bytes)) && env.parseManifest(bytes).Some?
      && var m := env.parseManifest(bytes).value;
         && p.oldCheckpoint == Some(m.checkpoint) && m.runId == p.runId && m.genesis == p.genesis && env.artifactsOk(m)
         && !e.body.RunCreated? && e.body.previous == m.status
  }

  predicate IsOld(env: Env, d: Disk, p: Pending)
  {
    p.oldManifestSha == if d.manifest.Some? then Some(env.hash(d.manifest.value)) else None
  }

  /** Which of the three writes are missing: none of line and manifest is there, the line is, or both are. */
  datatype Missing = LineAndManifest | ManifestOnly | Nothing

  /** What a sound record, the manifest and the ledger on disk say is missing; nothing if they do not fit together. */
  function WhatIsMissing(env: Env, d: Disk, p: Pending, e: Event, m: Manifest, l: Ledger): Option<Missing>
  {
    var appended := Tail(l) == Some(m.checkpoint) && l.lines != [] && l.lines[|l.lines| - 1] == p.eventBytes;
    var replaced := d.manifest.Some? && env.hash(d.manifest.value) == p.targetSha;
    if replaced && !appended then None
    else if IsOld(env, d, p) then
      if !StandsBefore(env, d, p, e) then None
      else if Tail(l) == p.oldCheckpoint then Some(LineAndManifest)
      else if appended then Some(ManifestOnly)
      else None
    else if replaced then Some(Nothing)
    else None
  }

  lemma StandsIsFits(env: Env, d: Disk, p: Pending, e: Event)
    requires IsOld(env, d, p)
    ensures OldManifestFits(env, p, e, d.manifest) <==> StandsBefore(env, d, p, e)
  {
  }

  /** Recovery of a record, from any disk: refused, and nothing touched, when the record is sound for no event and
      manifest, or the ledger does not read, or the three do not fit together; otherwise exactly the missing writes are
      made, the line before the manifest, and the record is dropped last. */
  lemma RecoveryIsDecided(env: Env, d: Disk, p: Pending)
    requires env.Faithful() && d.pending == Some(p)
    ensures RecoveryPlan(env, d).Ok? <==>
            exists e, m :: Sound(env, p, e, m) && ReadSpec(env, d.ledger).Ok?
                           && WhatIsMissing(env, d, p, e, m, ReadSpec(env, d.ledger).value).Some?
    ensures forall e, m :: Sound(env, p, e, m) && ReadSpec(env, d.ledger).Ok?
                           && WhatIsMissing(env, d, p, e, m, ReadSpec(env, d.ledger).value).Some? ==>
              RecoveryPlan(env, d) ==
              match WhatIsMissing(env, d, p, e, m, ReadSpec(env, d.ledger).value).value
              case LineAndManifest => Ok([Append(p.eventBytes), PutManifest(p.targetBytes), DropPending])
              case ManifestOnly => Ok([PutManifest(p.targetBytes), DropPending])
              case Nothing => Ok([DropPending])
  {
    forall e, m ensures ValidatePending(env, p) == Ok(Checked(m, e)) <==> Sound(env, p, e, m) {
      RecordIsChecked(env, p, e, m);
    }
    hide Env.Faithful, ValidatePending, Sound, ReadSpec;
    if ValidatePending(env, p).Ok? && ReadSpec(env, d.ledger).Ok? {
      var c, l := ValidatePending(env, p).value, ReadSpec(env, d.ledger).value;
      assert Sound(env, p, c.event, c.target);
      MissingIsWritten(env, d, p, c, l);
    }
  }

  lemma MissingIsWritten(env: Env, d: Disk, p: Pending, c: Checked, l: Ledger)
    ensures RecoveryWrites(env, d, p, c, l) ==
            match WhatIsMissing(env, d, p, c.event, c.target, l)
            case None => Err
            case Some(LineAndManifest) => Ok([Append(p.eventBytes), PutManifest(p.targetBytes), DropPending])
            case Some(ManifestOnly) => Ok([PutManifest(p.targetBytes), DropPending])
            case Some(Nothing) => Ok([DropPending])
  {
    if IsOld(env, d, p) {
      StandsIsFits(env, d, p, c.event);
    }
    hide OldManifestFits, StandsBefore;
  }
}
