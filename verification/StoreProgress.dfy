/** Which changes of status are carried out: the table as a set of edges, and runs that follow it to their end. */
module StoreProgress {
  import opened Base
  import opened StoreModel
  import opened RunLog
  import opened StoreJournal
  import opened StoreTheorems

  // ---- the table ----------------------------------------------------------------------------------

  /** The steps of a run that goes well, its two skips and its two ends included. */
  const EDGES: set<(Status, Status)> := {
    (Queued, Preflight), (Preflight, R1Running), (R1Running, R1Gate),
    (R1Gate, R2Packet), (R1Gate, R2Running), (R1Gate, R2Gate),
    (R2Packet, R2Running), (R2Packet, R2Gate), (R2Running, R2Gate),
    (R2Gate, R3Cc), (R2Gate, WaitingPrimaryArbiter),
    (R3Cc, WaitingPrimaryArbiter), (R3Cc, Merging), (WaitingPrimaryArbiter, Merging),
    (Merging, Completed), (Merging, Degraded)
  }

  const ENDS: set<Status> := {Completed, Degraded, Failed, FailedPolicy, Cancelled}

  const STOPS: set<Status> := {Failed, FailedPolicy, Cancelling, Cancelled}

  /** From a status that is not an end: along an edge, to a stop, or nowhere. */
  predicate Leads(from: Status, to: Status)
  {
    from !in ENDS && ((from, to) in EDGES || to in STOPS || to == from)
  }

  lemma EndsAndStops(s: Status)
    ensures Terminal(s) <==> s in ENDS
    ensures s in STOPS <==> s.Failed? || s.FailedPolicy? || s.Cancelling? || s.Cancelled?
  {
  }

  lemma EdgesOut(from: Status, to: Status)
    ensures (from, to) in EDGES <==>
            || (from.Queued? && to.Preflight?)
            || (from.Preflight? && to.R1Running?)
            || (from.R1Running? && to.R1Gate?)
            || (from.R1Gate? && (to.R2Packet? || to.R2Running? || to.R2Gate?))
            || (from.R2Packet? && (to.R2Running? || to.R2Gate?))
            || (from.R2Running? && to.R2Gate?)
            || (from.R2Gate? && (to.R3Cc? || to.WaitingPrimaryArbiter?))
            || (from.R3Cc? && (to.WaitingPrimaryArbiter? || to.Merging?))
            || (from.WaitingPrimaryArbiter? && to.Merging?)
            || (from.Merging? && (to.Completed? || to.Degraded?))
  {
  }

  lemma TableIsEdges(from: Status, to: Status)
    ensures Terminal(from) <==> from in ENDS
    ensures !Terminal(from) ==> (TransitionAllowed(from, to) <==> Leads(from, to))
    ensures Terminal(from) ==> (TransitionAllowed(from, to) <==> from == to)
  {
    EndsAndStops(from);
    EndsAndStops(to);
    EdgesOut(from, to);
    hide ENDS, STOPS, EDGES;
  }

  lemma LeadsOn(from: Status, to: Status)
    ensures Terminal(from) <==> from in ENDS
    ensures Leads(from, to) <==> !Terminal(from) && TransitionAllowed(from, to)
  {
    TableIsEdges(from, to);
    hide EDGES, STOPS, TransitionAllowed;
  }

  // ---- one request ----------------------------------------------------------------------------------

  /** With every event passing its schema, a report appends exactly its event and drops the record. */
  lemma ReportAppends(codec: Codec, w: World, c: Change)
    requires codec.Valid() && Inv(codec, w) && Reportable(w, c) && c.id !in Ids(Reported(w.events))
    requires forall e :: codec.eventOk(e)
    ensures var plan := ReportPlan(codec, w.disk.log, c);
            && SafeAll(codec, w, plan.writes) && |plan.writes| <= 3
            && var after := StepAll(codec, w, plan.writes);
               && Inv(codec, after)
               && after == World(w.disk.(log := after.disk.log, pending := None), w.first, w.history,
                                 w.events + [Event(|w.events| + 1, Moved(c))], Clean)
  {
    hide IsPath, Moves, Distinct, LogText;
    LogIsSafe(codec, w, Moved(c));
    var logged := LogPlan(codec, w.disk.log, Moved(c));
    var mid := StepAll(codec, w, logged.writes);
    assert NextEvent(w.events, Moved(c)) == Event(|w.events| + 1, Moved(c));
    ReportIsSafe(codec, w, c);
    SafeDrops(codec, w, logged.writes);
    RepairIsSafe(codec, w);
  }

  lemma SafeDrops(codec: Codec, w: World, xs: seq<Write>)
    requires SafeAll(codec, w, xs + [DropPending])
    ensures StepAll(codec, w, xs + [DropPending]) == Step(codec, StepAll(codec, w, xs), DropPending)
  {
    StepAllSplits(codec, w, xs, [DropPending]);
    assert [DropPending][1..] == [];
  }

  lemma {:induction false} StepAllSplits(codec: Codec, w: World, xs: seq<Write>, ys: seq<Write>)
    ensures StepAll(codec, w, xs + ys) == StepAll(codec, StepAll(codec, w, xs), ys)
    decreases |xs|
  {
    if xs == [] {
      assert xs + ys == ys;
    } else {
      assert (xs + ys)[1..] == xs[1..] + ys;
      StepAllSplits(codec, Step(codec, w, xs[0]), xs[1..], ys);
    }
  }

  /** An allowed change of a settled run is recorded, committed, reported and settled again. */
  lemma ReplaceCompletes(codec: Codec, w: World, c: Change, next: Manifest)
    requires codec.Valid() && Inv(codec, w) && w.disk.pending.None?
    requires c.from == StatusOf(w) && c.to == next.status && c.id !in Ids(w.history)
    requires TransitionAllowed(c.from, c.to) && !Terminal(c.from) && codec.manifestOk(next)
    requires forall e :: codec.eventOk(e)
    ensures var plan := ReplacePlan(codec, w.disk.log, c, next);
            && plan.result == Ok(next.status) && SafeAll(codec, w, plan.writes) && |plan.writes| <= 5
            && var after := StepAll(codec, w, plan.writes);
               && Inv(codec, after)
               && after == World(w.disk.(manifest := Some(next), log := after.disk.log), w.first, w.history + [c],
                                 w.events + [Event(|w.events| + 1, Moved(c))], Clean)
  {
    JournalIsSafe(codec, w, c, next);
    var two := [PutPending(c), Commit(next)];
    var mid := StepAll(codec, w, two);
    StepPair(codec, w, c, next);
    assert mid.disk.log == w.disk.log && c.id !in Ids(Reported(mid.events));
    hide Inv, Reported, ReportPlan, SafeAll, StepAll, TransitionAllowed, Terminal, Codec.Valid;
    ReportAppends(codec, mid, c);
    var report := ReportPlan(codec, w.disk.log, c).writes;
    StepAllSplits(codec, w, two, report);
    SafeBoth(codec, w, two, report);
  }

  lemma StepPair(codec: Codec, w: World, c: Change, next: Manifest)
    ensures StepAll(codec, w, [PutPending(c), Commit(next)]) ==
            World(w.disk.(pending := Some(c), manifest := Some(next)), w.first, w.history + [c], w.events, w.damage)
  {
    var two := [PutPending(c), Commit(next)];
    var journaled := Step(codec, w, PutPending(c));
    assert two[1..] == [Commit(next)] && [Commit(next)][1..] == [];
    assert StepAll(codec, journaled, [Commit(next)]) == Step(codec, journaled, Commit(next));
  }

  /** The part after loading: carried out exactly when the table allows it and the manifest passes its schema. */
  lemma ChangeCompletes(codec: Codec, w: World, caller: Manifest, r: Request) returns (after: World)
    requires codec.Valid() && Inv(codec, w) && w.disk.pending.None? && r.id !in Ids(w.history)
    requires !Terminal(StatusOf(w)) && forall e :: codec.eventOk(e)
    ensures var m, from := w.disk.manifest.value, StatusOf(w);
            var to := Effective(w.disk.cancel, from, r.status);
            var next, c := NextManifest(m, caller, to, r.phase), Asked(from, to, r);
            var plan := ChangePlan(codec, w.disk, m, caller, r);
            && SafeAll(codec, w, plan.writes) && |plan.writes| <= 6 && after == StepAll(codec, w, plan.writes)
            && Inv(codec, after) && after.disk.cancel == (w.disk.cancel || r.status.Cancelling?)
            && if TransitionAllowed(from, to) && codec.manifestOk(next) then
                 && plan.result == Ok(to) && after.disk.manifest == Some(next) && after.disk.pending == None
                 && after.history == w.history + [c] && after.events == w.events + [Event(|w.events| + 1, Moved(c))]
               else
                 && plan.result == Err && after.disk.manifest == w.disk.manifest
                 && after.history == w.history && after.events == w.events
  {
    ChangeIsSafe(codec, w, caller, r);
    var m, from := w.disk.manifest.value, StatusOf(w);
    var flag := if r.status.Cancelling? then [PutCancel] else [];
    FlagIsSafe(codec, w, r);
    var to := Effective(w.disk.cancel, from, r.status);
    var plan := ChangePlan(codec, w.disk, m, caller, r);
    var next, c := NextManifest(m, caller, to, r.phase), Asked(from, to, r);
    var flagged := w.(disk := w.disk.(cancel := w.disk.cancel || r.status.Cancelling?));
    hide Inv, SafeAll, TransitionAllowed, ReportPlan, NextManifest, Effective, Terminal, Step, Apply, Codec.Valid, Ids,
         IsPath, Outstanding, Safe;
    after := StepAll(codec, w, plan.writes);
    if TransitionAllowed(from, to) {
      var replace := ReplacePlan(codec, w.disk.log, c, next);
      assert plan == Plan(flag + replace.writes, replace.result);
      StepAllSplits(codec, w, flag, replace.writes);
      if codec.manifestOk(next) {
        ReplaceCompletes(codec, flagged, c, next);
      } else {
        StepRecord(codec, flagged, c);
      }
    }
  }

  lemma FlagIsSafe(codec: Codec, w: World, r: Request)
    requires codec.Valid() && Inv(codec, w)
    ensures var flag := if r.status.Cancelling? then [PutCancel] else [];
            var flagged := w.(disk := w.disk.(cancel := w.disk.cancel || r.status.Cancelling?));
            StepAll(codec, w, flag) == flagged && Inv(codec, flagged)
  {
    if r.status.Cancelling? {
      SafeOne(codec, w, PutCancel);
    } else {
      assert w == w.(disk := w.disk.(cancel := w.disk.cancel || r.status.Cancelling?));
    }
  }

  lemma StepRecord(codec: Codec, w: World, c: Change)
    ensures StepAll(codec, w, [PutPending(c)]) == w.(disk := w.disk.(pending := Some(c)))
  {
    assert [PutPending(c)][1..] == [];
  }

  function Asked(from: Status, to: Status, r: Request): Change
  {
    Change(r.id, r.timestamp, from, to, r.status, r.phase, r.detail)
  }

  /** Loading with every event passing its schema: the record is gone and nothing else is changed but the log. */
  lemma LoadCompletes(codec: Codec, w: World) returns (after: World)
    requires codec.Valid() && Inv(codec, w) && forall e :: codec.eventOk(e)
    ensures var plan := LoadPlan(codec, w.disk);
            && plan.result == Ok(w.disk.manifest.value) && SafeAll(codec, w, plan.writes) && |plan.writes| <= 3
            && after == StepAll(codec, w, plan.writes) && Inv(codec, after) && after.disk.pending.None?
            && after.disk.manifest == w.disk.manifest && after.disk.cancel == w.disk.cancel
            && after.history == w.history && after.first == w.first
            && (w.disk.pending.None? ==> after == w)
  {
    LoadIsSafe(codec, w);
    after := StepAll(codec, w, LoadPlan(codec, w.disk).writes);
    StepAllFirst(codec, w, LoadPlan(codec, w.disk).writes);
    RepairIsSafe(codec, w);
  }

  lemma WorldReads(codec: Codec, w: World)
    requires codec.Valid() && Inv(codec, w)
    ensures ReadLog(codec, w.disk.log).events == Ok(w.events)
  {
    ReadRepairs(codec, w.disk.log, w.events, w.damage);
  }

  /** A request for a run that has not ended: the load, then the change. */
  lemma RequestCompletes(codec: Codec, w: World, caller: Manifest, r: Request, to: Status, next: Manifest)
    returns (loaded: World, after: World)
    requires codec.Valid() && Inv(codec, w) && r.id !in Ids(w.history) && forall e :: codec.eventOk(e)
    requires !Terminal(StatusOf(w)) && to == Effective(w.disk.cancel, StatusOf(w), r.status)
    requires next == NextManifest(w.disk.manifest.value, caller, to, r.phase)
    ensures Inv(codec, loaded) && loaded.disk == ApplyAll(codec, w.disk, LoadPlan(codec, w.disk).writes)
    ensures var c, plan := Asked(StatusOf(w), to, r), TransitionPlan(codec, w.disk, caller, r);
            && |plan.writes| <= 9 && after.disk == ApplyAll(codec, w.disk, plan.writes) && after.first == w.first
            && Inv(codec, after) && after.disk.cancel == (w.disk.cancel || r.status.Cancelling?)
            && if TransitionAllowed(StatusOf(w), to) && codec.manifestOk(next) then
                 && plan.result == Ok(to) && after.disk.manifest == Some(next) && after.disk.pending == None
                 && after.history == w.history + [c]
                 && after.events == loaded.events + [Event(|loaded.events| + 1, Moved(c))]
               else
                 && plan.result == Err && after.disk.manifest == w.disk.manifest
                 && after.history == w.history && after.events == loaded.events
  {
    loaded := LoadCompletes(codec, w);
    var load := LoadPlan(codec, w.disk);
    StepAllDisk(codec, w, load.writes);
    after := ChangeCompletes(codec, loaded, caller, r);
    var change := ThenChange(codec, w.disk, load, caller, r);
    StepAllSplits(codec, w, load.writes, change.writes);
    StepAllFirst(codec, w, load.writes + change.writes);
    StepAllDisk(codec, w, load.writes + change.writes);
    assert TransitionPlan(codec, w.disk, caller, r) == Plan(load.writes + change.writes, change.result);
  }

  /** Loading leaves an ended run as its own answer. */
  lemma EndAnswers(codec: Codec, w: World, caller: Manifest, r: Request) returns (after: World)
    requires codec.Valid() && Inv(codec, w) && forall e :: codec.eventOk(e)
    requires Terminal(StatusOf(w))
    ensures var load, plan := LoadPlan(codec, w.disk), TransitionPlan(codec, w.disk, caller, r);
            && plan == Plan(load.writes, Ok(StatusOf(w))) && |plan.writes| <= 3
            && Inv(codec, after) && after.disk == ApplyAll(codec, w.disk, plan.writes) && after.first == w.first
            && after.disk.manifest == w.disk.manifest && after.disk.cancel == w.disk.cancel
            && after.history == w.history
  {
    after := LoadCompletes(codec, w);
    var load := LoadPlan(codec, w.disk);
    StepAllDisk(codec, w, load.writes);
    assert load.writes + [] == load.writes;
  }

  /** Which status a request comes to, and the manifest that says so. */
  lemma RequestedManifest(current: Manifest, caller: Manifest, cancel: bool, r: Request)
    ensures var from := current.status;
            var wins := (cancel || from == Cancelling) && r.status != Cancelling && r.status != Cancelled;
            var to := if wins then Cancelled else r.status;
            var base := if to == Cancelling || to == Cancelled then current else caller;
            && Effective(cancel, from, r.status) == to
            && NextManifest(current, caller, to, r.phase) ==
               Manifest(to, r.phase, base.cancelled || to == Cancelled, base.rest)
  {
  }

  /** The change is carried out: the new manifest, one more event, no record. */
  ghost predicate CarriesOut(codec: Codec, w: World, r: Request, to: Status, next: Manifest, es: seq<Event>,
                             result: Result<Status>, after: World)
    requires w.disk.manifest.Some?
  {
    var c := Change(r.id, r.timestamp, w.disk.manifest.value.status, to, r.status, r.phase, r.detail);
    && result == Ok(to) && after.disk.manifest == Some(next) && after.disk.pending == None
    && ReadLog(codec, after.disk.log).events == Ok(es + [Event(|es| + 1, Moved(c))]) && after.history == w.history + [c]
  }

  /** The change is not made: manifest and log are as a load leaves them, and an end answers itself. */
  ghost predicate Declines(codec: Codec, w: World, es: seq<Event>, result: Result<Status>, after: World)
    requires w.disk.manifest.Some?
  {
    var from := w.disk.manifest.value.status;
    && result == (if from in ENDS then Ok(from) else Err) && after.disk.manifest == w.disk.manifest
    && ReadLog(codec, after.disk.log).events == Ok(es) && after.history == w.history
  }

  /** What a request comes to: it is carried out exactly when the status it asks for, or Cancelled when cancellation wins,
      is one the present status leads to and the new manifest passes its schema. The new manifest is the caller's, or the
      one on disk for a cancellation, with the new status and phase. */
  ghost predicate Answers(codec: Codec, w: World, caller: Manifest, r: Request, es: seq<Event>, after: World)
    requires w.disk.manifest.Some?
  {
    var m, from := w.disk.manifest.value, w.disk.manifest.value.status;
    var wins := (w.disk.cancel || from == Cancelling) && r.status != Cancelling && r.status != Cancelled;
    var to := if wins then Cancelled else r.status;
    var base := if to == Cancelling || to == Cancelled then m else caller;
    var next := Manifest(to, r.phase, base.cancelled || to == Cancelled, base.rest);
    var plan := TransitionPlan(codec, w.disk, caller, r);
    && ReadLog(codec, ApplyAll(codec, w.disk, LoadPlan(codec, w.disk).writes).log).events == Ok(es)
    && after.disk == ApplyAll(codec, w.disk, plan.writes) && |plan.writes| <= 9 && after.first == w.first
    && after.disk.cancel == (w.disk.cancel || (from !in ENDS && r.status == Cancelling))
    && if Leads(from, to) && codec.manifestOk(next) then CarriesOut(codec, w, r, to, next, es, plan.result, after)
       else Declines(codec, w, es, plan.result, after)
  }

  lemma EndIsAnswered(codec: Codec, w: World, caller: Manifest, r: Request) returns (after: World, es: seq<Event>)
    requires codec.Valid() && Inv(codec, w) && forall e :: codec.eventOk(e)
    requires Terminal(StatusOf(w))
    ensures Inv(codec, after) && Answers(codec, w, caller, r, es, after)
  {
    assert StatusOf(w) in ENDS by {
      EndsAndStops(StatusOf(w));
    }
    after := EndAnswers(codec, w, caller, r);
    WorldReads(codec, after);
    es := after.events;
    hide Inv, TransitionAllowed, ReadLog, TransitionPlan, LoadPlan, ApplyAll, Terminal, Codec.Valid, ENDS, EDGES, STOPS;
  }

  lemma RunIsAnswered(codec: Codec, w: World, caller: Manifest, r: Request) returns (after: World, es: seq<Event>)
    requires codec.Valid() && Inv(codec, w) && r.id !in Ids(w.history) && forall e :: codec.eventOk(e)
    requires !Terminal(StatusOf(w))
    ensures Inv(codec, after) && Answers(codec, w, caller, r, es, after)
  {
    var m, from := w.disk.manifest.value, StatusOf(w);
    var wins := (w.disk.cancel || from == Cancelling) && r.status != Cancelling && r.status != Cancelled;
    var to := if wins then Cancelled else r.status;
    var base := if to == Cancelling || to == Cancelled then m else caller;
    var next := Manifest(to, r.phase, base.cancelled || to == Cancelled, base.rest);
    RequestedManifest(m, caller, w.disk.cancel, r);
    hide Inv, TransitionAllowed, Leads, ReadLog, TransitionPlan, LoadPlan, ApplyAll, Effective, NextManifest, Terminal,
         Codec.Valid, ENDS, EDGES, STOPS;
    LeadsOn(from, to);
    var loaded: World;
    loaded, after := RequestCompletes(codec, w, caller, r, to, next);
    WorldReads(codec, loaded);
    WorldReads(codec, after);
    es := loaded.events;
  }

  /** Any request is answered so, from any journal in order and with full power. */
  lemma RequestIsDecided(codec: Codec, w: World, caller: Manifest, r: Request)
    returns (after: World, es: seq<Event>)
    requires codec.Valid() && Inv(codec, w) && r.id !in Ids(w.history) && forall e :: codec.eventOk(e)
    ensures Inv(codec, after) && Answers(codec, w, caller, r, es, after)
  {
    hide Answers;
    if Terminal(StatusOf(w)) {
      after, es := EndIsAnswered(codec, w, caller, r);
    } else {
      after, es := RunIsAnswered(codec, w, caller, r);
    }
  }

  /** A save in place is made exactly when no end, no running cancellation and no request to cancel stands against it
      and the manifest passes its schema; the log and the record are left alone. */
  lemma SaveIsDecided(codec: Codec, d: Disk, m: Manifest)
    ensures var plan := SavePlan(codec, d, m);
            var stands := d.manifest.Some? && (d.manifest.value.status in ENDS + {Cancelling} || d.cancel);
            && ApplyAll(codec, d, plan.writes) ==
               d.(manifest := if !stands && codec.manifestOk(m) then Some(m) else d.manifest)
            && plan.result == if stands then Ok(false) else if codec.manifestOk(m) then Ok(true) else Err
  {
    if d.manifest.Some? {
      EndsAndStops(d.manifest.value.status);
    }
    assert [Resave(m)][1..] == [];
    assert d == d.(manifest := d.manifest);
  }

  // ---- whole runs -------------------------------------------------------------------------------------

  /** Statuses one edge apart. */
  predicate IsRoute(route: seq<Status>)
  {
    route != [] && forall i {:trigger route[i]} :: 0 <= i < |route| - 1 ==> (route[i], route[i + 1]) in EDGES
  }

  predicate AsksFor(op: Op, to: Status)
  {
    op.action.Transition? && op.action.request.status == to && op.fuse >= 9
  }

  /** One request for each further stop, with power enough for any transition, each under an id of its own. */
  predicate Asks(ops: seq<Op>, route: seq<Status>)
  {
    && |route| == |ops| + 1
    && (forall i :: 0 <= i < |ops| ==> AsksFor(ops[i], route[i + 1]))
    && (forall i, j :: 0 <= i < j < |ops| ==> ops[i].action.request.id != ops[j].action.request.id)
  }

  /** The event that reports a request for the status a route goes to next. */
  function StepEvent(n: nat, op: Op, from: Status, to: Status): Event
    requires op.action.Transition?
  {
    var r := op.action.request;
    Event(n, Moved(Change(r.id, r.timestamp, from, to, to, r.phase, r.detail)))
  }

  predicate IsStep(e: Event, n: nat, op: Op, from: Status, to: Status)
  {
    op.action.Transition? && e == StepEvent(n, op, from, to)
  }

  /** The log holds the steps of the route in order, numbered from 1, and nothing else. */
  predicate Tells(es: seq<Event>, ops: seq<Op>, route: seq<Status>)
    requires Asks(ops, route)
  {
    && |es| == |ops|
    && forall i :: 0 <= i < |es| ==> IsStep(es[i], i + 1, ops[i], route[i], route[i + 1])
  }

  lemma EdgesGoOn(from: Status, to: Status)
    requires (from, to) in EDGES
    ensures from !in ENDS && from != Cancelling && to !in STOPS && Leads(from, to)
  {
  }

  /** The changes carry the ids of the requests. */
  predicate Carries(history: seq<Change>, ops: seq<Op>)
  {
    |history| == |ops| && forall i :: 0 <= i < |ops| ==> CarriesId(history[i], ops[i])
  }

  predicate CarriesId(c: Change, op: Op)
  {
    op.action.Transition? && c.id == op.action.request.id
  }

  /** The requests so far, made one after the other with power enough, have led to the stop they ask for. */
  ghost predicate Arrived(codec: Codec, w: World, es: seq<Event>, first: Manifest, ops: seq<Op>, route: seq<Status>)
    requires Asks(ops, route)
  {
    && Inv(codec, w) && w.disk == PerformAll(codec, first, ops).disk
    && w.disk.manifest.Some? && StatusOf(w) == route[|ops|] && w.disk.pending == None && !w.disk.cancel
    && Carries(w.history, ops)
    && ReadLog(codec, w.disk.log).events == Ok(es) && Tells(es, ops, route)
  }

  /** One request along an edge, from a run with nothing pending. */
  lemma StepAlong(codec: Codec, w: World, es: seq<Event>, history: seq<Change>, op: Op, to: Status)
    returns (after: World)
    requires codec.Valid() && (forall e :: codec.eventOk(e)) && (forall m :: codec.manifestOk(m))
    requires Inv(codec, w) && w.disk.pending == None && !w.disk.cancel && (StatusOf(w), to) in EDGES
    requires AsksFor(op, to) && op.action.request.id !in Ids(w.history)
    requires ReadLog(codec, w.disk.log).events == Ok(es)
    ensures var step := StepEvent(|es| + 1, op, StatusOf(w), to);
            && Inv(codec, after) && after.disk == Perform(codec, Run(w.disk, history), op).disk
            && after.disk.manifest.Some? && StatusOf(after) == to && after.disk.pending == None && !after.disk.cancel
            && after.history == w.history + [step.body.change]
            && ReadLog(codec, after.disk.log).events == Ok(es + [step])
  {
    var caller, r := op.action.caller, op.action.request;
    EdgesGoOn(StatusOf(w), to);
    var was: seq<Event>;
    after, was := RequestIsDecided(codec, w, caller, r);
    assert ApplyAll(codec, w.disk, LoadPlan(codec, w.disk).writes) == w.disk;
    hide Inv, ReadLog, Leads, TransitionPlan, LoadPlan;
    PersistWhole(codec, w.disk, TransitionPlan(codec, w.disk, caller, r).writes, op.fuse, op.cut);
  }

  lemma TellsMore(es: seq<Event>, ops: seq<Op>, route: seq<Status>)
    requires ops != [] && Asks(ops, route) && Asks(ops[..|ops| - 1], route[..|ops|])
    requires Tells(es, ops[..|ops| - 1], route[..|ops|])
    ensures var n := |ops| - 1;
            Tells(es + [StepEvent(n + 1, ops[n], route[n], route[n + 1])], ops, route)
  {
    var n := |ops| - 1;
    var told := es + [StepEvent(n + 1, ops[n], route[n], route[n + 1])];
    forall i | 0 <= i < |told| ensures IsStep(told[i], i + 1, ops[i], route[i], route[i + 1]) {
      if i < n {
        assert IsStep(es[i], i + 1, ops[..n][i], route[..|ops|][i], route[..|ops|][i + 1]);
      }
    }
  }

  lemma NextIsFresh(history: seq<Change>, ops: seq<Op>, route: seq<Status>)
    requires ops != [] && Asks(ops, route) && Carries(history, ops[..|ops| - 1])
    ensures AsksFor(ops[|ops| - 1], route[|ops|]) && ops[|ops| - 1].action.request.id !in Ids(history)
  {
    var n := |ops| - 1;
    assert AsksFor(ops[n], route[n + 1]);
    forall i | 0 <= i < |history| ensures history[i].id != ops[n].action.request.id {
      assert CarriesId(history[i], ops[..n][i]);
    }
  }

  lemma OneStopMore(codec: Codec, w: World, es: seq<Event>, first: Manifest, ops: seq<Op>, route: seq<Status>)
    returns (after: World, told: seq<Event>)
    requires codec.Valid() && (forall e :: codec.eventOk(e)) && (forall m :: codec.manifestOk(m))
    requires ops != [] && Asks(ops, route) && (route[|ops| - 1], route[|ops|]) in EDGES
    requires Asks(ops[..|ops| - 1], route[..|ops|])
    requires Arrived(codec, w, es, first, ops[..|ops| - 1], route[..|ops|])
    ensures Arrived(codec, after, told, first, ops, route)
  {
    var n := |ops| - 1;
    var before := PerformAll(codec, first, ops[..n]);
    NextIsFresh(w.history, ops, route);
    TellsMore(es, ops, route);
    hide Inv, ReadLog, Perform, Codec.Valid, EDGES, Tells, Asks, Ids;
    after := StepAlong(codec, w, es, before.history, ops[n], route[n + 1]);
    told := es + [StepEvent(n + 1, ops[n], route[n], route[n + 1])];
    assert Carries(after.history, ops);
  }

  /** Along any route from a new run, requests with power enough end at its last stop, with exactly those moves in the
      log and nothing pending. */
  lemma {:induction false} RouteIsFollowed(codec: Codec, first: Manifest, ops: seq<Op>, route: seq<Status>)
    returns (w: World, es: seq<Event>)
    requires codec.Valid() && (forall e :: codec.eventOk(e)) && (forall m :: codec.manifestOk(m))
    requires IsRoute(route) && route[0] == first.status && Asks(ops, route)
    ensures var d := PerformAll(codec, first, ops).disk;
            && d.manifest.Some? && d.manifest.value.status == route[|route| - 1] && d.pending == None && !d.cancel
            && ReadLog(codec, d.log).events == Ok(es) && Tells(es, ops, route)
    ensures Arrived(codec, w, es, first, ops, route)
    decreases |ops|
  {
    if ops == [] {
      w, es := World(Disk(Some(first), "", None, false), first.status, [], [], Clean), [];
      WorldReads(codec, w);
    } else {
      var n := |ops| - 1;
      RouteStarts(ops, route);
      hide Inv, ReadLog, Codec.Valid, EDGES, PerformAll, Tells, Asks, IsRoute;
      w, es := RouteIsFollowed(codec, first, ops[..n], route[..|ops|]);
      w, es := OneStopMore(codec, w, es, first, ops, route);
    }
  }

  lemma RouteStarts(ops: seq<Op>, route: seq<Status>)
    requires ops != [] && Asks(ops, route) && IsRoute(route)
    ensures Asks(ops[..|ops| - 1], route[..|ops|]) && IsRoute(route[..|ops|])
    ensures |route| == |ops| + 1 && (route[|ops| - 1], route[|ops|]) in EDGES
    ensures |route[..|ops|]| > 0 && route[..|ops|][0] == route[0]
  {
    var n := |ops| - 1;
    assert forall i :: 0 <= i < n ==> ops[..n][i] == ops[i] && route[..|ops|][i + 1] == route[i + 1];
    assert (route[n], route[n + 1]) in EDGES;
  }

  /** A run goes from Queued to Completed through all three rounds, without the second, without the third, or without
      both. */
  lemma NamedRoutes()
    ensures IsRoute([Queued, Preflight, R1Running, R1Gate, R2Packet, R2Running, R2Gate, R3Cc, WaitingPrimaryArbiter,
                     Merging, Completed])
    ensures IsRoute([Queued, Preflight, R1Running, R1Gate, R2Gate, R3Cc, WaitingPrimaryArbiter, Merging, Completed])
    ensures IsRoute([Queued, Preflight, R1Running, R1Gate, R2Packet, R2Running, R2Gate, WaitingPrimaryArbiter,
                     Merging, Completed])
    ensures IsRoute([Queued, Preflight, R1Running, R1Gate, R2Gate, WaitingPrimaryArbiter, Merging, Completed])
  {
  }
}
