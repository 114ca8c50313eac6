/** What the status journal keeps over every sequence of operations, crashes and recoveries. */
module StoreTheorems {
  import opened Base
  import opened StoreModel
  import opened RunLog
  import opened StoreJournal

  // ---- paths and histories -----------------------------------------------------------

  function Ids(cs: seq<Change>): set<string>
  {
    set i | 0 <= i < |cs| :: cs[i].id
  }

  predicate Distinct(cs: seq<Change>)
  {
    forall i, j :: 0 <= i < j < |cs| ==> cs[i].id != cs[j].id
  }

  /** The changes that change the status; a change to the same status may lose its event in a crash. */
  function Moves(cs: seq<Change>): seq<Change>
  {
    if cs == [] then []
    else
      var c := cs[|cs| - 1];
      Moves(cs[..|cs| - 1]) + (if c.from != c.to then [c] else [])
  }

  /** Each change starts where the one before ended, is allowed, and never leaves a terminal status. */
  predicate IsPath(first: Status, cs: seq<Change>, last: Status)
  {
    if cs == [] then first == last
    else
      var c := cs[|cs| - 1];
      && IsPath(first, cs[..|cs| - 1], c.from)
      && c.to == last
      && TransitionAllowed(c.from, c.to)
      && !Terminal(c.from)
  }

  /** The changes a log reports, in order. */
  function Reported(es: seq<Event>): seq<Change>
  {
    if es == [] then []
    else
      var e := es[|es| - 1];
      Reported(es[..|es| - 1]) + (if e.body.Moved? then [e.body.change] else [])
  }

  lemma PathGrows(first: Status, cs: seq<Change>, at: Status, c: Change)
    requires IsPath(first, cs, at) && c.from == at && TransitionAllowed(c.from, c.to) && !Terminal(c.from)
    ensures IsPath(first, cs + [c], c.to)
    ensures Moves(cs + [c]) == Moves(cs) + (if c.from != c.to then [c] else [])
  {
    assert (cs + [c])[..|cs|] == cs;
  }

  lemma DistinctGrows(cs: seq<Change>, c: Change)
    requires Distinct(cs) && c.id !in Ids(cs)
    ensures Distinct(cs + [c]) && Ids(cs + [c]) == Ids(cs) + {c.id}
  {
    forall i | 0 <= i < |cs| ensures (cs + [c])[i].id != c.id {
      assert cs[i].id in Ids(cs);
    }
    IdsGrow(cs, c);
  }

  lemma IdsGrow(cs: seq<Change>, c: Change)
    ensures Ids(cs + [c]) == Ids(cs) + {c.id}
  {
    forall x | x in Ids(cs) + {c.id} ensures x in Ids(cs + [c]) {
      if x == c.id {
        assert (cs + [c])[|cs|].id == x;
      } else {
        var i :| 0 <= i < |cs| && cs[i].id == x;
        assert (cs + [c])[i].id == x;
      }
    }
  }

  lemma ReportedGrows(es: seq<Event>, e: Event)
    ensures Reported(es + [e]) == Reported(es) + (if e.body.Moved? then [e.body.change] else [])
  {
    assert (es + [e])[..|es|] == es;
  }

  lemma LoggedGrows(es: seq<Event>, e: Event, id: string)
    ensures Logged(es + [e], id) <==> Logged(es, id) || (e.body.Moved? && e.body.change.id == id)
  {
    if Logged(es, id) {
      var i :| 0 <= i < |es| && es[i].body.Moved? && es[i].body.change.id == id;
      assert (es + [e])[i] == es[i];
    }
    assert (es + [e])[|es|] == e;
  }

  lemma {:induction false} LoggedIsReported(es: seq<Event>, id: string)
    ensures Logged(es, id) <==> id in Ids(Reported(es))
    decreases |es|
  {
    if es != [] {
      var before, e := es[..|es| - 1], es[|es| - 1];
      LoggedIsReported(before, id);
      LoggedGrows(before, e, id);
      assert before + [e] == es;
      if e.body.Moved? {
        IdsGrow(Reported(before), e.body.change);
      } else {
        assert Reported(es) == Reported(before);
      }
    }
  }

  // ---- worlds: the files, and what they stand for ------------------------------------------

  /** The files, the first status, the committed changes in order, and the events the log stands for. */
  datatype World = World(disk: Disk, first: Status, history: seq<Change>, events: seq<Event>, damage: Damage)

  function StatusOf(w: World): Status
    requires w.disk.manifest.Some?
  {
    w.disk.manifest.value.status
  }

  /** A committed change of status that the log does not report yet. */
  ghost predicate Outstanding(w: World)
    requires w.disk.manifest.Some?
  {
    && w.disk.pending.Some?
    && w.disk.pending.value.to == StatusOf(w)
    && w.disk.pending.value.from != StatusOf(w)
    && w.disk.pending.value.id !in Ids(Reported(w.events))
  }

  /** The log holds the numbered events, up to crash damage. */
  ghost predicate LogHolds(codec: Codec, w: World)
  {
    Numbered(w.events) && Holds(codec, w.disk.log, w.events, w.damage)
  }

  /** The committed changes form a path to the manifest's status, each under its own id. */
  ghost predicate HistoryHolds(w: World)
  {
    && w.disk.manifest.Some?
    && IsPath(w.first, w.history, StatusOf(w))
    && Distinct(w.history)
    && (w.disk.pending.Some? ==>
          || w.disk.pending.value.from == StatusOf(w)
          || (w.disk.pending.value.to == StatusOf(w)
              && w.history != [] && w.history[|w.history| - 1] == w.disk.pending.value))
  }

  /** The log reports every committed change of status exactly once and in order, but for an outstanding one. */
  ghost predicate ReportHolds(w: World)
    requires w.disk.manifest.Some?
  {
    var reported := Reported(w.events);
    && Distinct(reported) && Ids(reported) <= Ids(w.history)
    && if Outstanding(w) then
         && Moves(reported) + [w.disk.pending.value] == Moves(w.history)
         && IsPath(w.first, reported, w.disk.pending.value.from)
       else
         && Moves(reported) == Moves(w.history)
         && IsPath(w.first, reported, StatusOf(w))
  }

  ghost predicate Inv(codec: Codec, w: World)
  {
    LogHolds(codec, w) && HistoryHolds(w) && ReportHolds(w)
  }

  // ---- one durable write -------------------------------------------------------------------

  /** The effect of a completed write on the files and on what they stand for. */
  function Step(codec: Codec, w: World, x: Write): World
  {
    World(
      Apply(codec, w.disk, x),
      w.first,
      if x.Commit? && w.disk.pending.Some? then w.history + [w.disk.pending.value] else w.history,
      if x.Append? then w.events + [x.event] else w.events,
      if x.Append? || x.Repair? then Clean else w.damage)
  }

  /** The circumstances under which the journal performs a write. */
  ghost predicate Safe(codec: Codec, w: World, x: Write)
    requires w.disk.manifest.Some?
  {
    var status := StatusOf(w);
    match x
    case PutCancel => true
    case PutPending(c) => !Outstanding(w) && c.from == status
    case Commit(m) =>
      && w.disk.pending.Some?
      && var c := w.disk.pending.value;
         c.from == status && c.to == m.status && c.id !in Ids(w.history)
         && !Terminal(c.from) && TransitionAllowed(c.from, c.to)
    case Resave(m) => m.status == status
    case Append(e) =>
      && w.damage == Clean && e.sequence == |w.events| + 1
      && (e.body.Moved? ==>
            && w.disk.pending == Some(e.body.change) && e.body.change.to == status
            && w.history != [] && w.history[|w.history| - 1] == e.body.change
            && e.body.change.id !in Ids(Reported(w.events)))
    case Repair(t) => t == LogText(codec, w.events)
    case DropPending => !Outstanding(w)
  }

  lemma StepKeeps(codec: Codec, w: World, x: Write)
    requires codec.Valid() && Inv(codec, w) && Safe(codec, w, x)
    ensures Inv(codec, Step(codec, w, x))
  {
    match x {
      case PutPending(c) => PutPendingKeeps(codec, w, c);
      case Commit(m) => CommitKeeps(codec, w, m);
      case Append(e) => AppendKeeps(codec, w, e);
      case _ => QuietKeeps(codec, w, x);
    }
  }

  /** Writes that neither commit nor report a change. */
  lemma QuietKeeps(codec: Codec, w: World, x: Write)
    requires codec.Valid() && Inv(codec, w) && Safe(codec, w, x)
    requires x.PutCancel? || x.Resave? || x.Repair? || x.DropPending?
    ensures Inv(codec, Step(codec, w, x))
  {
    assert Outstanding(Step(codec, w, x)) == (Outstanding(w) && !x.DropPending?);
  }

  lemma PutPendingKeeps(codec: Codec, w: World, c: Change)
    requires codec.Valid() && Inv(codec, w) && Safe(codec, w, PutPending(c))
    ensures Inv(codec, Step(codec, w, PutPending(c)))
  {
    assert !Outstanding(Step(codec, w, PutPending(c)));
  }

  lemma CommitKeeps(codec: Codec, w: World, m: Manifest)
    requires codec.Valid() && Inv(codec, w) && Safe(codec, w, Commit(m))
    ensures Inv(codec, Step(codec, w, Commit(m)))
  {
    var c := w.disk.pending.value;
    PathGrows(w.first, w.history, c.from, c);
    DistinctGrows(w.history, c);
    assert !Outstanding(w);
  }

  lemma AppendKeeps(codec: Codec, w: World, e: Event)
    requires codec.Valid() && Inv(codec, w) && Safe(codec, w, Append(e))
    ensures Inv(codec, Step(codec, w, Append(e)))
  {
    AppendLogs(codec, w, e);
    if e.body.Moved? {
      AppendReports(codec, w, e);
    } else {
      AppendNotes(codec, w, e);
    }
    hide LogHolds, ReportHolds, IsPath, Distinct, Safe;
  }

  lemma AppendLogs(codec: Codec, w: World, e: Event)
    requires LogHolds(codec, w) && w.damage == Clean && e.sequence == |w.events| + 1
    ensures LogHolds(codec, Step(codec, w, Append(e)))
  {
    LogGrows(codec, w.events, e);
    hide LogText;
  }

  lemma AppendNotes(codec: Codec, w: World, e: Event)
    requires w.disk.manifest.Some? && ReportHolds(w) && !e.body.Moved?
    ensures ReportHolds(Step(codec, w, Append(e)))
  {
    ReportedGrows(w.events, e);
    assert Reported(w.events + [e]) == Reported(w.events);
    hide IsPath, Moves, Distinct, Reported;
  }

  lemma AppendReports(codec: Codec, w: World, e: Event)
    requires HistoryHolds(w) && ReportHolds(w) && Safe(codec, w, Append(e)) && e.body.Moved?
    ensures ReportHolds(Step(codec, w, Append(e)))
  {
    var c, reported := e.body.change, Reported(w.events);
    ReportedGrows(w.events, e);
    LastIsAllowed(w.first, w.history, StatusOf(w));
    PathGrows(w.first, reported, c.from, c);
    DistinctGrows(reported, c);
    assert c.id in Ids(w.history);
  }

  lemma LastIsAllowed(first: Status, cs: seq<Change>, last: Status)
    requires IsPath(first, cs, last) && cs != []
    ensures TransitionAllowed(cs[|cs| - 1].from, cs[|cs| - 1].to) && !Terminal(cs[|cs| - 1].from)
    ensures cs[|cs| - 1].to == last
  {
  }

  /** An append cut short leaves a world in order: the event is either wholly there or not at all. */
  lemma TearKeeps(codec: Codec, w: World, x: Write, cut: nat) returns (after: World)
    requires codec.Valid() && Inv(codec, w) && Safe(codec, w, x)
    ensures Inv(codec, after) && after.disk == Tear(codec, w.disk, x, cut)
    ensures after.first == w.first && after.history == w.history
    ensures after.events == if x.Append? && cut == |codec.encode(x.event)| then w.events + [x.event] else w.events
  {
    hide IsPath, Moves, Distinct, LogText;
    if x.Append? && cut <= |codec.encode(x.event)| {
      var damage := TornAppend(codec, w.events, x.event, cut);
      AppendKeeps(codec, w, x.event);
      var events := if cut == |codec.encode(x.event)| then w.events + [x.event] else w.events;
      after := World(Tear(codec, w.disk, x, cut), w.first, w.history, events, damage);
    } else {
      after := w;
    }
  }

  // ---- whole plans ----------------------------------------------------------------------------

  /** Every write of the sequence is performed under the circumstances it needs. */
  ghost predicate SafeAll(codec: Codec, w: World, xs: seq<Write>)
    decreases |xs|
  {
    xs != [] ==> w.disk.manifest.Some? && Safe(codec, w, xs[0]) && SafeAll(codec, Step(codec, w, xs[0]), xs[1..])
  }

  function StepAll(codec: Codec, w: World, xs: seq<Write>): World
    decreases |xs|
  {
    if xs == [] then w else StepAll(codec, Step(codec, w, xs[0]), xs[1..])
  }

  /** The changes committed by the writes that completed. */
  function Committed(codec: Codec, d: Disk, history: seq<Change>, xs: seq<Write>, fuse: nat): seq<Change>
    decreases |xs|
  {
    if xs == [] || fuse == 0 then history
    else
      var grown := if xs[0].Commit? && d.pending.Some? then history + [d.pending.value] else history;
      Committed(codec, Apply(codec, d, xs[0]), grown, xs[1..], fuse - 1)
  }

  /** A sequence of safe writes keeps the world in order wherever it is cut off. */
  lemma {:induction false} SafeRuns(codec: Codec, w: World, xs: seq<Write>, fuse: nat, cut: nat) returns (after: World)
    requires codec.Valid() && Inv(codec, w) && SafeAll(codec, w, xs)
    ensures Inv(codec, after) && after.disk == Persist(codec, w.disk, xs, fuse, cut)
    ensures after.first == w.first && w.history <= after.history
    ensures after.history == Committed(codec, w.disk, w.history, xs, fuse)
    ensures fuse >= |xs| ==> after == StepAll(codec, w, xs)
    decreases |xs|
  {
    hide Inv, Safe;
    if xs == [] {
      after := w;
    } else if fuse == 0 {
      after := TearKeeps(codec, w, xs[0], cut);
    } else {
      StepKeeps(codec, w, xs[0]);
      after := SafeRuns(codec, Step(codec, w, xs[0]), xs[1..], fuse - 1, cut);
    }
  }

  lemma {:induction false} SafeBoth(codec: Codec, w: World, xs: seq<Write>, ys: seq<Write>)
    requires SafeAll(codec, w, xs) && SafeAll(codec, StepAll(codec, w, xs), ys)
    ensures SafeAll(codec, w, xs + ys) && StepAll(codec, w, xs + ys) == StepAll(codec, StepAll(codec, w, xs), ys)
    decreases |xs|
  {
    if xs == [] {
      assert xs + ys == ys;
    } else {
      assert (xs + ys)[1..] == xs[1..] + ys;
      SafeBoth(codec, Step(codec, w, xs[0]), xs[1..], ys);
    }
  }

  lemma SafeOne(codec: Codec, w: World, x: Write)
    requires codec.Valid() && Inv(codec, w) && Safe(codec, w, x)
    ensures SafeAll(codec, w, [x]) && StepAll(codec, w, [x]) == Step(codec, w, x) && Inv(codec, Step(codec, w, x))
  {
    StepKeeps(codec, w, x);
    assert [x][1..] == [];
  }

  /** Reading repairs the tail and changes nothing else. */
  lemma RepairIsSafe(codec: Codec, w: World)
    requires codec.Valid() && Inv(codec, w)
    ensures var read := RepairPlan(codec, w.disk.log);
            && read.result == Ok(w.events) && SafeAll(codec, w, read.writes)
            && |read.writes| <= 1
            && var after := StepAll(codec, w, read.writes);
               && Inv(codec, after)
               && after == w.(disk := w.disk.(log := LogText(codec, w.events)), damage := after.damage)
               && after.damage == Clean
  {
    ReadRepairs(codec, w.disk.log, w.events, w.damage);
    var text := LogText(codec, w.events);
    if text != w.disk.log {
      SafeOne(codec, w, Repair(text));
    }
  }

  /** A change may be reported when it is the last one committed and its record is still there. */
  ghost predicate Reportable(w: World, c: Change)
    requires w.disk.manifest.Some?
  {
    && w.disk.pending == Some(c) && c.to == StatusOf(w)
    && w.history != [] && w.history[|w.history| - 1] == c
  }

  /** Logging an event repairs the tail, appends at most once per change, and touches nothing but the log. */
  lemma LogIsSafe(codec: Codec, w: World, body: Body)
    requires codec.Valid() && Inv(codec, w) && (body.Moved? ==> Reportable(w, body.change))
    ensures var plan, next := LogPlan(codec, w.disk.log, body), NextEvent(w.events, body);
            var known := body.Moved? && body.change.id in Ids(Reported(w.events));
            && SafeAll(codec, w, plan.writes)
            && var after := StepAll(codec, w, plan.writes);
               && Inv(codec, after) && after.damage == Clean
               && after.events == (if !known && codec.eventOk(next) then w.events + [next] else w.events)
               && after == w.(disk := w.disk.(log := after.disk.log), damage := Clean, events := after.events)
               && (plan.result.Ok? <==> known || codec.eventOk(next))
  {
    RepairIsSafe(codec, w);
    var read := RepairPlan(codec, w.disk.log);
    var mid := StepAll(codec, w, read.writes);
    var next := NextEvent(w.events, body);
    if body.Moved? {
      LoggedIsReported(w.events, body.change.id);
    }
    if !(body.Moved? && body.change.id in Ids(Reported(w.events))) && codec.eventOk(next) {
      SafeOne(codec, mid, Append(next));
      SafeBoth(codec, w, read.writes, [Append(next)]);
    }
  }

  /** Reporting a change drops its record exactly when the log then reports it. */
  lemma ReportIsSafe(codec: Codec, w: World, c: Change)
    requires codec.Valid() && Inv(codec, w) && Reportable(w, c)
    ensures var plan := ReportPlan(codec, w.disk.log, c);
            && SafeAll(codec, w, plan.writes)
            && var after := StepAll(codec, w, plan.writes);
               && Inv(codec, after) && after.disk.manifest == w.disk.manifest && after.disk.cancel == w.disk.cancel
               && after.history == w.history
               && (plan.result.Ok? <==> after.disk.pending.None?)
               && (plan.result.Ok? ==> after.damage == Clean)
               && (plan.result.Ok? <==>
                     c.id in Ids(Reported(w.events)) || codec.eventOk(NextEvent(w.events, Moved(c))))
  {
    LogIsSafe(codec, w, Moved(c));
    var logged := LogPlan(codec, w.disk.log, Moved(c));
    var mid := StepAll(codec, w, logged.writes);
    if logged.result.Ok? {
      ReportedGrows(w.events, NextEvent(w.events, Moved(c)));
      IdsGrow(Reported(w.events), c);
      SafeOne(codec, mid, DropPending);
      SafeBoth(codec, w, logged.writes, [DropPending]);
    } else {
      assert logged.writes + [] == logged.writes;
    }
  }

  /** Loading settles the journal, unless the event of an outstanding change fails its schema. */
  lemma LoadIsSafe(codec: Codec, w: World)
    requires codec.Valid() && Inv(codec, w)
    ensures var plan := LoadPlan(codec, w.disk);
            && SafeAll(codec, w, plan.writes)
            && var after := StepAll(codec, w, plan.writes);
               && Inv(codec, after) && after.disk.manifest == w.disk.manifest && after.disk.cancel == w.disk.cancel
               && after.history == w.history
               && (plan.result.Ok? ==> plan.result == Ok(w.disk.manifest.value) && after.disk.pending.None?)
               && (plan.result.Ok? <==>
                     (Outstanding(w) ==> codec.eventOk(NextEvent(w.events, Moved(w.disk.pending.value)))))
  {
    if w.disk.pending.Some? {
      var c := w.disk.pending.value;
      if StatusOf(w) == c.from {
        SafeOne(codec, w, DropPending);
      } else {
        ReportIsSafe(codec, w, c);
      }
    }
  }

  /** Recording a change and replacing the manifest makes it the last committed one. */
  lemma JournalIsSafe(codec: Codec, w: World, c: Change, next: Manifest)
    requires codec.Valid() && Inv(codec, w) && !Outstanding(w)
    requires c.from == StatusOf(w) && c.to == next.status && c.id !in Ids(w.history)
    requires TransitionAllowed(c.from, c.to) && !Terminal(c.from)
    ensures SafeAll(codec, w, [PutPending(c)]) && SafeAll(codec, w, [PutPending(c), Commit(next)])
    ensures Inv(codec, StepAll(codec, w, [PutPending(c)]))
    ensures var after := StepAll(codec, w, [PutPending(c), Commit(next)]);
            Inv(codec, after) && Reportable(after, c) && after.disk.log == w.disk.log
  {
    SafeOne(codec, w, PutPending(c));
    var journaled := Step(codec, w, PutPending(c));
    SafeOne(codec, journaled, Commit(next));
    SafeBoth(codec, w, [PutPending(c)], [Commit(next)]);
    assert [PutPending(c)] + [Commit(next)] == [PutPending(c), Commit(next)];
  }

  /** A new change: record, manifest, report, in this order. */
  lemma ReplaceIsSafe(codec: Codec, w: World, c: Change, next: Manifest)
    requires codec.Valid() && Inv(codec, w) && !Outstanding(w)
    requires c.from == StatusOf(w) && c.to == next.status && c.id !in Ids(w.history)
    requires TransitionAllowed(c.from, c.to) && !Terminal(c.from)
    ensures var plan := ReplacePlan(codec, w.disk.log, c, next);
            && SafeAll(codec, w, plan.writes) && Inv(codec, StepAll(codec, w, plan.writes))
  {
    JournalIsSafe(codec, w, c, next);
    if codec.manifestOk(next) {
      ReportIsSafe(codec, StepAll(codec, w, [PutPending(c), Commit(next)]), c);
      SafeBoth(codec, w, [PutPending(c), Commit(next)], ReportPlan(codec, w.disk.log, c).writes);
    }
  }

  lemma ChangeIsSafe(codec: Codec, w: World, caller: Manifest, r: Request)
    requires codec.Valid() && Inv(codec, w) && !Outstanding(w) && r.id !in Ids(w.history)
    ensures var plan := ChangePlan(codec, w.disk, w.disk.manifest.value, caller, r);
            && SafeAll(codec, w, plan.writes) && Inv(codec, StepAll(codec, w, plan.writes))
  {
    var current := w.disk.manifest.value;
    if !Terminal(current.status) {
      var flag := if r.status.Cancelling? then [PutCancel] else [];
      if r.status.Cancelling? {
        SafeOne(codec, w, PutCancel);
      }
      var flagged := StepAll(codec, w, flag);
      assert flagged.events == w.events && flagged.history == w.history && !Outstanding(flagged);
      var to := Effective(w.disk.cancel, current.status, r.status);
      if TransitionAllowed(current.status, to) {
        var next := NextManifest(current, caller, to, r.phase);
        var c := Change(r.id, r.timestamp, current.status, to, r.status, r.phase, r.detail);
        ReplaceIsSafe(codec, flagged, c, next);
        SafeBoth(codec, w, flag, ReplacePlan(codec, w.disk.log, c, next).writes);
      }
    }
  }

  lemma TransitionIsSafe(codec: Codec, w: World, caller: Manifest, r: Request)
    requires codec.Valid() && Inv(codec, w) && r.id !in Ids(w.history)
    ensures SafeAll(codec, w, TransitionPlan(codec, w.disk, caller, r).writes)
  {
    LoadIsSafe(codec, w);
    var load := LoadPlan(codec, w.disk);
    if load.result.Ok? {
      var loaded := StepAll(codec, w, load.writes);
      StepAllDisk(codec, w, load.writes);
      ChangeIsSafe(codec, loaded, caller, r);
      SafeBoth(codec, w, load.writes, ThenChange(codec, w.disk, load, caller, r).writes);
    }
  }

  lemma {:induction false} StepAllDisk(codec: Codec, w: World, xs: seq<Write>)
    ensures StepAll(codec, w, xs).disk == ApplyAll(codec, w.disk, xs)
    decreases |xs|
  {
    if xs != [] {
      StepAllDisk(codec, Step(codec, w, xs[0]), xs[1..]);
    }
  }

  // ---- runs ---------------------------------------------------------------------------------------

  /** An operation, the number of its writes that complete, and the length an interrupted append reaches. */
  datatype Op = Op(action: Action, fuse: nat, cut: nat)

  datatype Action =
    | Transition(caller: Manifest, request: Request)
    | Record(kind: string)
    | Load
    | Save(same: Manifest)
    | Amend(same: Manifest)
    | RequestCancel

  function WritesOf(codec: Codec, d: Disk, a: Action): seq<Write>
  {
    match a
    case Transition(caller, r) => TransitionPlan(codec, d, caller, r).writes
    case Record(kind) => LogPlan(codec, d.log, Noted(kind)).writes
    case Load => LoadPlan(codec, d).writes
    case Save(m) => SavePlan(codec, d, m).writes
    case Amend(m) => if codec.manifestOk(m) then [Resave(m)] else []
    case RequestCancel => if d.manifest.Some? && !Terminal(d.manifest.value.status) then [PutCancel] else []
  }

  /** The files, and the changes committed so far. */
  datatype Run = Run(disk: Disk, history: seq<Change>)

  function Perform(codec: Codec, run: Run, op: Op): Run
  {
    var writes := WritesOf(codec, run.disk, op.action);
    Run(Persist(codec, run.disk, writes, op.fuse, op.cut), Committed(codec, run.disk, run.history, writes, op.fuse))
  }

  /** A run from its creation, which saves the first manifest. */
  function PerformAll(codec: Codec, first: Manifest, ops: seq<Op>): Run
  {
    if ops == [] then Run(Disk(Some(first), "", None, false), [])
    else Perform(codec, PerformAll(codec, first, ops[..|ops| - 1]), ops[|ops| - 1])
  }

  /** What the runner promises: transition ids are fresh, and in-place saves keep the status on disk. */
  ghost predicate Permitted(codec: Codec, run: Run, a: Action)
  {
    match a
    case Transition(_, r) => r.id !in Ids(run.history)
    case Save(m) => SavePlan(codec, run.disk, m).writes != [] ==> KeepsStatus(run.disk, m)
    case Amend(m) => KeepsStatus(run.disk, m)
    case _ => true
  }

  predicate KeepsStatus(d: Disk, m: Manifest)
  {
    d.manifest.Some? && m.status == d.manifest.value.status
  }

  ghost predicate Disciplined(codec: Codec, first: Manifest, ops: seq<Op>)
  {
    ops != [] ==>
      && Disciplined(codec, first, ops[..|ops| - 1])
      && Permitted(codec, PerformAll(codec, first, ops[..|ops| - 1]), ops[|ops| - 1].action)
  }

  lemma ActionIsSafe(codec: Codec, w: World, a: Action)
    requires codec.Valid() && Inv(codec, w) && Permitted(codec, Run(w.disk, w.history), a)
    ensures SafeAll(codec, w, WritesOf(codec, w.disk, a))
  {
    match a {
      case Transition(caller, r) => TransitionIsSafe(codec, w, caller, r);
      case Record(kind) => LogIsSafe(codec, w, Noted(kind));
      case Load => LoadIsSafe(codec, w);
      case Save(m) => if SavePlan(codec, w.disk, m).writes != [] { SafeOne(codec, w, Resave(m)); }
      case Amend(m) => SafeOne(codec, w, Resave(m));
      case RequestCancel => SafeOne(codec, w, PutCancel);
    }
  }

  /** Over every run, with power lost anywhere in any operation, recovery included, the world stays in order. */
  lemma {:induction false} EveryRunHolds(codec: Codec, first: Manifest, ops: seq<Op>) returns (w: World)
    requires codec.Valid() && Disciplined(codec, first, ops)
    ensures Inv(codec, w) && w.first == first.status
    ensures Run(w.disk, w.history) == PerformAll(codec, first, ops)
    decreases |ops|
  {
    if ops == [] {
      w := World(Disk(Some(first), "", None, false), first.status, [], [], Clean);
    } else {
      var before := EveryRunHolds(codec, first, ops[..|ops| - 1]);
      var op := ops[|ops| - 1];
      ActionIsSafe(codec, before, op.action);
      w := SafeRuns(codec, before, WritesOf(codec, before.disk, op.action), op.fuse, op.cut);
    }
  }

  /** At any moment the log reads back as a numbered, connected path that reports every committed move in order,
      except possibly the last one, and no change twice. */
  lemma LogAtAnyMoment(codec: Codec, first: Manifest, ops: seq<Op>) returns (es: seq<Event>, at: Status)
    requires codec.Valid() && Disciplined(codec, first, ops)
    ensures var run := PerformAll(codec, first, ops);
            && run.disk.manifest.Some?
            && ReadLog(codec, run.disk.log) == Reading(Ok(es), LogText(codec, es))
            && Numbered(es) && Distinct(Reported(es)) && IsPath(first.status, Reported(es), at)
            && (|| (at == run.disk.manifest.value.status && Moves(Reported(es)) == Moves(run.history))
                || (run.disk.pending.Some?
                    && at == run.disk.pending.value.from != run.disk.manifest.value.status
                    && Moves(Reported(es)) + [run.disk.pending.value] == Moves(run.history)))
  {
    var w := EveryRunHolds(codec, first, ops);
    ReadRepairs(codec, w.disk.log, w.events, w.damage);
    es := w.events;
    at := if Outstanding(w) then w.disk.pending.value.from else StatusOf(w);
  }

  /** The log is exactly the history of moves: a connected path from the first status to the manifest's,
      numbered from 1, with no move missing, none added and none repeated. */
  ghost predicate ExactLog(codec: Codec, d: Disk, first: Status, history: seq<Change>, es: seq<Event>)
  {
    && d.manifest.Some? && d.pending.None?
    && ReadLog(codec, d.log).events == Ok(es)
    && Numbered(es) && Distinct(Reported(es))
    && IsPath(first, Reported(es), d.manifest.value.status)
    && Moves(Reported(es)) == Moves(history)
  }

  lemma SettledWorld(codec: Codec, w: World)
    requires codec.Valid() && Inv(codec, w) && w.disk.pending.None?
    ensures ExactLog(codec, w.disk, w.first, w.history, w.events)
  {
    ReadRepairs(codec, w.disk.log, w.events, w.damage);
  }

  lemma LoadSettles(codec: Codec, w: World) returns (es: seq<Event>)
    requires codec.Valid() && Inv(codec, w) && LoadPlan(codec, w.disk).result.Ok?
    ensures var d := ApplyAll(codec, w.disk, LoadPlan(codec, w.disk).writes);
            ExactLog(codec, d, w.first, w.history, es) && d.manifest == w.disk.manifest
  {
    LoadIsSafe(codec, w);
    StepAllDisk(codec, w, LoadPlan(codec, w.disk).writes);
    var after := StepAll(codec, w, LoadPlan(codec, w.disk).writes);
    StepAllFirst(codec, w, LoadPlan(codec, w.disk).writes);
    SettledWorld(codec, after);
    es := after.events;
  }

  lemma {:induction false} StepAllFirst(codec: Codec, w: World, xs: seq<Write>)
    ensures StepAll(codec, w, xs).first == w.first
    decreases |xs|
  {
    if xs != [] {
      StepAllFirst(codec, Step(codec, w, xs[0]), xs[1..]);
    }
  }

  /** Once a load has gone through, after any run with any crashes, the log is exact. */
  lemma LoadedLogIsExact(codec: Codec, first: Manifest, ops: seq<Op>) returns (es: seq<Event>)
    requires codec.Valid() && Disciplined(codec, first, ops)
    requires LoadPlan(codec, PerformAll(codec, first, ops).disk).result.Ok?
    ensures var run := PerformAll(codec, first, ops);
            var d := ApplyAll(codec, run.disk, LoadPlan(codec, run.disk).writes);
            ExactLog(codec, d, first.status, run.history, es) && d.manifest == run.disk.manifest
  {
    var w := EveryRunHolds(codec, first, ops);
    es := LoadSettles(codec, w);
  }

  lemma {:induction false} InMoves(cs: seq<Change>, c: Change)
    ensures c in Moves(cs) <==> c in cs && c.from != c.to
    decreases |cs|
  {
    if cs != [] {
      InMoves(cs[..|cs| - 1], c);
      assert cs == cs[..|cs| - 1] + [cs[|cs| - 1]];
    }
  }

  /** Exactly once: after a completed load every committed move has one event, and every logged move was committed. */
  lemma ExactlyOnce(codec: Codec, first: Manifest, ops: seq<Op>, c: Change) returns (es: seq<Event>)
    requires codec.Valid() && Disciplined(codec, first, ops) && c.from != c.to
    requires LoadPlan(codec, PerformAll(codec, first, ops).disk).result.Ok?
    ensures var run := PerformAll(codec, first, ops);
            && ReadLog(codec, ApplyAll(codec, run.disk, LoadPlan(codec, run.disk).writes).log).events == Ok(es)
            && multiset(Reported(es))[c] == if c in run.history then 1 else 0
  {
    es := LoadedLogIsExact(codec, first, ops);
    InMoves(Reported(es), c);
    InMoves(PerformAll(codec, first, ops).history, c);
    DistinctOnce(Reported(es), c);
  }

  lemma {:induction false} DistinctOnce(cs: seq<Change>, c: Change)
    requires Distinct(cs)
    ensures multiset(cs)[c] == if c in cs then 1 else 0
    decreases |cs|
  {
    if cs != [] {
      var before, last := cs[..|cs| - 1], cs[|cs| - 1];
      DistinctOnce(before, c);
      assert cs == before + [last];
      assert last !in before;
    }
  }

  /** The load succeeds unless it must report a move whose event fails the event schema. */
  lemma LoadSucceeds(codec: Codec, first: Manifest, ops: seq<Op>)
    requires codec.Valid() && Disciplined(codec, first, ops) && (forall e :: codec.eventOk(e))
    ensures LoadPlan(codec, PerformAll(codec, first, ops).disk).result.Ok?
  {
    var w := EveryRunHolds(codec, first, ops);
    LoadIsSafe(codec, w);
  }

  /** Repairing leaves the log as its text, or, cut off, as it was. */
  lemma RepairRuns(codec: Codec, d: Disk, es: seq<Event>, damage: Damage, k: nat, cut: nat)
    requires codec.Valid() && Numbered(es) && Holds(codec, d.log, es, damage)
    ensures var repair := RepairPlan(codec, d.log).writes;
            && ApplyAll(codec, d, repair) == d.(log := LogText(codec, es))
            && Persist(codec, d, repair, k, cut) == (if k < |repair| then d else d.(log := LogText(codec, es)))
  {
    ReadRepairs(codec, d.log, es, damage);
    var text := LogText(codec, es);
    assert RepairPlan(codec, d.log).writes == if text == d.log then [] else [Repair(text)];
    hide LogText, ReadLog, Holds, Numbered, RepairPlan;
    OneRepair(codec, d, text, k, cut);
  }

  lemma OneRepair(codec: Codec, d: Disk, text: string, k: nat, cut: nat)
    ensures ApplyAll(codec, d, [Repair(text)]) == d.(log := text)
    ensures Persist(codec, d, [Repair(text)], k, cut) == if k == 0 then d else d.(log := text)
  {
    assert [Repair(text)][1..] == [];
  }

  // ---- finished and cancelled runs ---------------------------------------------------------------------

  /** No write of the sequence replaces the manifest. */
  predicate LeavesManifest(ws: seq<Write>)
  {
    forall i :: 0 <= i < |ws| ==> !ws[i].Commit? && !ws[i].Resave?
  }

  lemma {:induction false} PersistLeaves(codec: Codec, d: Disk, ws: seq<Write>, fuse: nat, cut: nat)
    requires LeavesManifest(ws)
    ensures Persist(codec, d, ws, fuse, cut).manifest == d.manifest
    decreases |ws|
  {
    if ws != [] && fuse > 0 {
      assert !ws[0].Commit? && !ws[0].Resave?;
      assert LeavesManifest(ws[1..]);
      PersistLeaves(codec, Apply(codec, d, ws[0]), ws[1..], fuse - 1, cut);
    }
  }

  lemma LoadLeaves(codec: Codec, d: Disk)
    ensures LeavesManifest(LoadPlan(codec, d).writes)
  {
  }

  lemma {:induction false} ApplyLeaves(codec: Codec, d: Disk, ws: seq<Write>)
    requires LeavesManifest(ws)
    ensures ApplyAll(codec, d, ws).manifest == d.manifest
    decreases |ws|
  {
    if ws != [] {
      assert !ws[0].Commit? && !ws[0].Resave?;
      assert LeavesManifest(ws[1..]);
      ApplyLeaves(codec, Apply(codec, d, ws[0]), ws[1..]);
    }
  }

  /** A finished run keeps its status whatever is attempted, and wherever power is lost. */
  lemma TerminalIsAbsorbing(codec: Codec, run: Run, op: Op)
    requires run.disk.manifest.Some? && Terminal(run.disk.manifest.value.status)
    requires op.action.Amend? ==> KeepsStatus(run.disk, op.action.same)
    ensures var after := Perform(codec, run, op).disk;
            after.manifest.Some? && after.manifest.value.status == run.disk.manifest.value.status
  {
    var writes := WritesOf(codec, run.disk, op.action);
    if op.action.Amend? {
      PersistResave(codec, run.disk, op.action.same, op.fuse, op.cut);
    } else {
      LoadLeaves(codec, run.disk);
      ApplyLeaves(codec, run.disk, LoadPlan(codec, run.disk).writes);
      assert LeavesManifest(writes);
      PersistLeaves(codec, run.disk, writes, op.fuse, op.cut);
    }
  }

  lemma PersistResave(codec: Codec, d: Disk, m: Manifest, fuse: nat, cut: nat)
    ensures Persist(codec, d, [Resave(m)], fuse, cut) == if fuse == 0 then d else d.(manifest := Some(m))
  {
    assert [Resave(m)][1..] == [];
  }

  /** Whatever replaces the manifest keeps its status or cancels the run. */
  predicate OnlyCancels(ws: seq<Write>)
  {
    forall i :: 0 <= i < |ws| ==>
      !ws[i].Resave? && (ws[i].Commit? ==> ws[i].next.status.Cancelled? || ws[i].next.status.Cancelling?)
  }

  lemma {:induction false} PersistCancels(codec: Codec, d: Disk, ws: seq<Write>, fuse: nat, cut: nat, status: Status)
    requires OnlyCancels(ws) && d.manifest.Some?
    requires d.manifest.value.status == status || d.manifest.value.status.Cancelled? || d.manifest.value.status.Cancelling?
    requires d.cancel
    ensures var after := Persist(codec, d, ws, fuse, cut);
            && after.manifest.Some? && after.cancel
            && var s := after.manifest.value.status; (s == status || s.Cancelled? || s.Cancelling?)
    decreases |ws|
  {
    if ws != [] && fuse > 0 {
      assert !ws[0].Resave?;
      assert OnlyCancels(ws[1..]);
      PersistCancels(codec, Apply(codec, d, ws[0]), ws[1..], fuse - 1, cut, status);
    }
  }

  /** Once a cancellation request is on disk, no operation moves the run anywhere but to Cancelling or Cancelled,
      and none withdraws the request. */
  lemma CancellationWins(codec: Codec, run: Run, op: Op)
    requires run.disk.manifest.Some? && run.disk.cancel
    requires op.action.Amend? ==> KeepsStatus(run.disk, op.action.same)
    ensures var after := Perform(codec, run, op).disk;
            && after.manifest.Some? && after.cancel
            && var s, was := after.manifest.value.status, run.disk.manifest.value.status;
               (s == was || s.Cancelling? || s.Cancelled?)
  {
    var writes := WritesOf(codec, run.disk, op.action);
    var status := run.disk.manifest.value.status;
    if op.action.Amend? {
      PersistResave(codec, run.disk, op.action.same, op.fuse, op.cut);
    } else {
      if op.action.Transition? {
        TransitionCancels(codec, run.disk, op.action.caller, op.action.request);
      } else {
        OthersCancel(codec, run.disk, op.action);
      }
      PersistCancels(codec, run.disk, writes, op.fuse, op.cut, status);
    }
  }

  lemma LeavingCancels(ws: seq<Write>)
    requires LeavesManifest(ws)
    ensures OnlyCancels(ws)
  {
  }

  lemma BothCancel(a: seq<Write>, b: seq<Write>)
    requires OnlyCancels(a) && OnlyCancels(b)
    ensures OnlyCancels(a + b)
  {
  }

  lemma ChangeCancels(codec: Codec, d: Disk, current: Manifest, caller: Manifest, r: Request)
    requires d.cancel
    ensures OnlyCancels(ChangePlan(codec, d, current, caller, r).writes)
  {
    var to := Effective(d.cancel, current.status, r.status);
    var next := NextManifest(current, caller, to, r.phase);
    var c := Change(r.id, r.timestamp, current.status, to, r.status, r.phase, r.detail);
    LeavingCancels(ReportPlan(codec, d.log, c).writes);
    BothCancel([PutPending(c), Commit(next)], ReportPlan(codec, d.log, c).writes);
    BothCancel(if r.status.Cancelling? then [PutCancel] else [], ReplacePlan(codec, d.log, c, next).writes);
  }

  lemma {:induction false} ApplyKeepsFlag(codec: Codec, d: Disk, ws: seq<Write>)
    requires d.cancel
    ensures ApplyAll(codec, d, ws).cancel
    decreases |ws|
  {
    if ws != [] {
      ApplyKeepsFlag(codec, Apply(codec, d, ws[0]), ws[1..]);
    }
  }

  lemma TransitionCancels(codec: Codec, d: Disk, caller: Manifest, r: Request)
    requires d.manifest.Some? && d.cancel
    ensures OnlyCancels(TransitionPlan(codec, d, caller, r).writes)
  {
    var load := LoadPlan(codec, d);
    LoadLeaves(codec, d);
    LeavingCancels(load.writes);
    if load.result.Ok? {
      var mid := ApplyAll(codec, d, load.writes);
      ApplyKeepsFlag(codec, d, load.writes);
      ChangeCancels(codec, mid, load.result.value, caller, r);
      BothCancel(load.writes, ThenChange(codec, d, load, caller, r).writes);
    }
  }

  lemma OthersCancel(codec: Codec, d: Disk, a: Action)
    requires d.manifest.Some? && d.cancel && !a.Transition? && !a.Amend?
    ensures OnlyCancels(WritesOf(codec, d, a))
  {
    LoadLeaves(codec, d);
    LeavingCancels(WritesOf(codec, d, a));
  }
}
