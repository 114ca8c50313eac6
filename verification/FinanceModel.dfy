/** Finance run manifests, typed ledger events and the transition rules that join them. */
module FinanceModel {
  import opened Base
  import opened Json
  import opened Canonical

  datatype Status = Preflight | R1Running | R2Running | Merging | Completed | Degraded | Failed | Cancelled

  datatype TerminationCode = OutputInvalid | IntegrityFailure | OperatorCancelled

  datatype Termination = Termination(phase: Status, code: TerminationCode, retryable: bool)

  /** What an artifact is, whatever path it is stored under. */
  datatype Identity = Identity(
    family: string,
    schemaId: Option<string>,
    revision: string,
    exactSha256: string,
    semanticDomain: string,
    semanticSha256: string)

  datatype Binding = Binding(artifactRef: string, identity: Identity)

  datatype Checkpoint = Checkpoint(sequence: nat, eventSha256: string)

  datatype Manifest = Manifest(
    runId: string,
    genesis: string,
    checkpoint: Checkpoint,
    status: Status,
    termination: Option<Termination>,
    policy: Binding,
    invocation: Binding,
    r1Packets: seq<Binding>,
    r2Packets: seq<Binding>,
    r1Outputs: seq<Binding>,
    r2Outputs: seq<Binding>,
    arbiterOutputs: seq<Binding>,
    result: Option<Binding>)

  datatype Body =
    | RunCreated(status: Status, artifacts: seq<Identity>)
    | PhaseAdvanced(previous: Status, status: Status, artifacts: seq<Identity>)
    | RunTerminalized(
        previous: Status,
        status: Status,
        artifacts: seq<Identity>,
        result: Option<Identity>,
        termination: Option<Termination>)

  datatype Event = Event(
    runId: string,
    genesis: string,
    sequence: nat,
    previousSha256: Option<string>,
    body: Body)

  /** The library functions the code builds on. Digests, serialisation, closed schemas
      and artifact verification are arbitrary functions here. */
  datatype Env = Env(
    hash: string -> string,
    toValue: Event -> Json,
    fromValue: Json -> Option<Event>,
    eventSchema: Json -> bool,
    manifestBytes: Manifest -> string,
    parseManifest: string -> Option<Manifest>,
    manifestSchema: Manifest -> bool,
    artifactsOk: Manifest -> bool)
  {
    /** Serialisation is faithful: values are duplicate-free and already in member order,
        and reading back what was written gives the same event or manifest. */
    ghost predicate Faithful()
    {
      && (forall e :: Unique(toValue(e)) && Norm(toValue(e)) == toValue(e) && fromValue(toValue(e)) == Some(e))
      && (forall m :: parseManifest(manifestBytes(m)) == Some(m))
    }
  }

  const MaxSafeInteger: nat := 9_007_199_254_740_991

  predicate Terminal(s: Status)
  {
    s == Completed || s == Degraded || s == Failed || s == Cancelled
  }

  predicate LegalTransition(prior: Option<Status>, next: Status)
  {
    match (prior, next)
    case (None, R1Running) => true
    case (Some(R1Running), R2Running) => true
    case (Some(R1Running), Failed) => true
    case (Some(R1Running), Cancelled) => true
    case (Some(R2Running), Failed) => true
    case (Some(R2Running), Cancelled) => true
    case (Some(R2Running), Merging) => true
    case (Some(Merging), Completed) => true
    case (Some(Merging), Degraded) => true
    case (Some(Merging), Failed) => true
    case (Some(Merging), Cancelled) => true
    case _ => false
  }

  function Ids(bs: seq<Binding>): (r: seq<Identity>)
    ensures |r| == |bs| && forall i :: 0 <= i < |bs| ==> r[i] == bs[i].identity
  {
    seq(|bs|, i requires 0 <= i < |bs| => bs[i].identity)
  }

  function ResultIds(result: Option<Binding>): seq<Identity>
  {
    if result.Some? then [result.value.identity] else []
  }

  function ResultId(result: Option<Binding>): Option<Identity>
  {
    if result.Some? then Some(result.value.identity) else None
  }

  /** Every artifact a manifest binds, in the fixed order. */
  function Bindings(m: Manifest): seq<Binding>
  {
    [m.policy] + [m.invocation] + m.r1Packets + m.r2Packets + m.r1Outputs + m.r2Outputs + m.arbiterOutputs
    + if m.result.Some? then [m.result.value] else []
  }

  function ArtifactIds(m: Manifest): seq<Identity>
  {
    Ids(Bindings(m))
  }

  function BodyFor(prior: Option<Status>, target: Manifest): Body
  {
    match prior
    case None => RunCreated(target.status, ArtifactIds(target))
    case Some(previous) =>
      if Terminal(target.status) then
        RunTerminalized(previous, target.status, ArtifactIds(target), ResultId(target.result), target.termination)
      else PhaseAdvanced(previous, target.status, ArtifactIds(target))
  }

  function StatusOf(prior: Option<Manifest>): Option<Status>
  {
    if prior.Some? then Some(prior.value.status) else None
  }

  function BuildTransitionEvent(prior: Option<Manifest>, target: Manifest): Result<Event>
  {
    if !LegalTransition(StatusOf(prior), target.status) then Err
    else if prior.Some? && (prior.value.runId != target.runId || prior.value.genesis != target.genesis) then Err
    else
      var sequence := if prior.Some? then prior.value.checkpoint.sequence + 1 else 0;
      var previous := if prior.Some? then Some(prior.value.checkpoint.eventSha256) else None;
      if sequence > MaxSafeInteger then Err
      else Ok(Event(target.runId, target.genesis, sequence, previous, BodyFor(StatusOf(prior), target)))
  }

  /** The stored line of an event: canonical JSON and one line feed. */
  function LineText(env: Env, e: Event): string
  {
    CanonicalText(env.toValue(e)) + "\n"
  }

  function EventLine(env: Env, e: Event): Result<string>
  {
    if env.eventSchema(env.toValue(e)) then Ok(LineText(env, e)) else Err
  }

  // ---- the artifact-count rule ---------------------------------------------------

  datatype Counts = Counts(r1p: nat, r2p: nat, r1o: nat, r2o: nat, arb: nat, res: bool)

  function CountsOf(m: Manifest): Counts
  {
    Counts(|m.r1Packets|, |m.r2Packets|, |m.r1Outputs|, |m.r2Outputs|, |m.arbiterOutputs|, m.result.Some?)
  }

  function CountPhase(m: Manifest): Option<Status>
  {
    if m.status == Failed || m.status == Cancelled then
      if m.termination.Some? then Some(m.termination.value.phase) else None
    else Some(m.status)
  }

  predicate ValidCounts(m: Manifest)
  {
    match CountPhase(m)
    case Some(R1Running) => CountsOf(m) == Counts(5, 0, 0, 0, 0, false)
    case Some(R2Running) => CountsOf(m) == Counts(5, 5, 5, 0, 0, false)
    case Some(Merging) => CountsOf(m) == Counts(5, 5, 5, 5, 2, false)
    case Some(Completed) => CountsOf(m) == Counts(5, 5, 5, 5, 2, true)
    case Some(Degraded) => CountsOf(m) == Counts(5, 5, 5, 5, 2, true)
    case _ => false
  }

  predicate ActivePhase(s: Status)
  {
    s == R1Running || s == R2Running || s == Merging
  }

  predicate ValidTermination(m: Manifest)
  {
    match (m.status, m.termination)
    case (Failed, Some(t)) => ActivePhase(t.phase) && !t.retryable && t.code != OperatorCancelled && m.result.None?
    case (Cancelled, Some(t)) => ActivePhase(t.phase) && !t.retryable && t.code == OperatorCancelled && m.result.None?
    case (Failed, None) => false
    case (Cancelled, None) => false
    case (_, None) => true
    case (_, Some(_)) => false
  }
}
