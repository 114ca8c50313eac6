/** Lock-free readers of a run. Loading recovers the journal without the manifest lock, so the steps of any number of
    readers interleave with those of the writer that holds it, and any process may die between two steps. */
module StoreReaders {
  import opened Base
  import opened StoreModel
  import opened RunLog
  import opened StoreJournal
  import opened StoreTheorems

  // ---- the machine ---------------------------------------------------------------------------------

  /** What a process is doing. Only a process at AtRest or loading may be without the manifest lock. */
  datatype Local =
    | AtRest
    | HasLock
    // loading: the manifest is read, then the record; a record to be reported is then reported and dropped
    | HasManifest(status: Status)
    | HasRecord(status: Status, change: Change)
    | HasReported
    // a transition, under the manifest lock
    | HasLoaded
    | HasJournaled(change: Change)
    | HasReplaced(change: Change)
    | HasLogged

  /** The files, and what has happened to them: the changes committed, the transition ids used, the changes whose record
      a process without the lock removed, and those whose writer stopped between the manifest and the event. */
  datatype State = State(
    disk: Disk, committed: seq<Change>, used: set<string>, stolen: set<string>, deserted: set<string>,
    lock: Option<nat>, threads: map<nat, Local>)

  function At(s: State, t: nat): Local
  {
    if t in s.threads then s.threads[t] else AtRest
  }

  function Go(s: State, t: nat, l: Local): State
  {
    s.(threads := s.threads[t := l])
  }

  /** The operation ends or its process dies: the manifest lock is released. */
  function Quit(s: State, t: nat): State
  {
    Go(s.(lock := if s.lock == Some(t) then None else s.lock), t, AtRest)
  }

  function LoadEnds(s: State, t: nat): State
  {
    Go(s, t, if s.lock == Some(t) then HasLoaded else AtRest)
  }

  /** Removing the record removes whatever record is there. */
  function Drop(s: State, t: nat): State
  {
    s.(disk := s.disk.(pending := None),
       stolen := if s.lock != Some(t) && s.disk.pending.Some? then s.stolen + {s.disk.pending.value.id} else s.stolen)
  }

  /** The event lock makes reading, checking and appending one step, which may lose power inside. */
  function LogAs(codec: Codec, s: State, body: Body, fuse: nat, cut: nat): State
  {
    s.(disk := Persist(codec, s.disk, LogPlan(codec, s.disk.log, body).writes, fuse, cut))
  }

  predicate EndsWell(codec: Codec, s: State, body: Body, fuse: nat)
  {
    var plan := LogPlan(codec, s.disk.log, body);
    fuse >= |plan.writes| && plan.result.Ok?
  }

  datatype Turn =
    | Lock(t: nat) | Start(t: nat) | Look(t: nat) | Act(t: nat, fuse: nat, cut: nat) | Forget(t: nat)
    | Journal(t: nat, change: Change) | Replace(t: nat, next: Manifest) | Log(t: nat, fuse: nat, cut: nat)
    | Die(t: nat)
    | Note(kind: string, fuse: nat, cut: nat) | Resaved(same: Manifest)

  /** A new change leaves the status on disk, is allowed, and has a fresh id. */
  predicate New(s: State, c: Change)
  {
    && s.disk.manifest.Some? && c.from == s.disk.manifest.value.status
    && TransitionAllowed(c.from, c.to) && !Terminal(c.from) && c.id !in s.used
  }

  /** Having read manifest and record: drop a change that has not started, report one that is committed, refuse others. */
  function Recover(codec: Codec, s: State, t: nat, status: Status, c: Change, fuse: nat, cut: nat): State
  {
    if status == c.from then LoadEnds(Drop(s, t), t)
    else if status != c.to then Quit(s, t)
    else
      var logged := LogAs(codec, s, Moved(c), fuse, cut);
      if EndsWell(codec, s, Moved(c), fuse) then Go(logged, t, HasReported) else Quit(logged, t)
  }

  function Report(codec: Codec, s: State, t: nat, c: Change, fuse: nat, cut: nat): State
  {
    var logged := LogAs(codec, s, Moved(c), fuse, cut);
    if EndsWell(codec, s, Moved(c), fuse) then Go(logged, t, HasLogged)
    else Quit(logged.(deserted := s.deserted + {c.id}), t)
  }

  function Take(codec: Codec, s: State, x: Turn): State
  {
    match x
    case Lock(t) => if At(s, t).AtRest? && s.lock.None? then Go(s.(lock := Some(t)), t, HasLock) else s
    case Start(t) =>
      if (At(s, t).AtRest? || At(s, t).HasLock?) && s.disk.manifest.Some? then
        Go(s, t, HasManifest(s.disk.manifest.value.status))
      else s
    case Look(t) =>
      if !At(s, t).HasManifest? then s
      else if s.disk.pending.None? then LoadEnds(s, t)
      else Go(s, t, HasRecord(At(s, t).status, s.disk.pending.value))
    case Act(t, fuse, cut) =>
      if At(s, t).HasRecord? then Recover(codec, s, t, At(s, t).status, At(s, t).change, fuse, cut) else s
    case Forget(t) =>
      if At(s, t).HasReported? then LoadEnds(Drop(s, t), t)
      else if At(s, t).HasLogged? then Quit(Drop(s, t), t)
      else s
    case Journal(t, c) =>
      if At(s, t).HasLoaded? && New(s, c) then
        Go(s.(disk := s.disk.(pending := Some(c)), used := s.used + {c.id}), t, HasJournaled(c))
      else s
    case Replace(t, next) =>
      if At(s, t).HasJournaled? && next.status == At(s, t).change.to then
        var c := At(s, t).change;
        Go(s.(disk := s.disk.(manifest := Some(next)), committed := s.committed + [c]), t, HasReplaced(c))
      else s
    case Log(t, fuse, cut) =>
      if At(s, t).HasReplaced? then Report(codec, s, t, At(s, t).change, fuse, cut) else s
    case Die(t) =>
      if At(s, t).HasReplaced? then Quit(s.(deserted := s.deserted + {At(s, t).change.id}), t) else Quit(s, t)
    case Note(kind, fuse, cut) => LogAs(codec, s, Noted(kind), fuse, cut)
    case Resaved(m) =>
      if s.lock.None? && s.disk.manifest.Some? && m.status == s.disk.manifest.value.status then
        s.(disk := s.disk.(manifest := Some(m)))
      else s
  }

  /** A run from its first manifest. */
  function Begin(first: Manifest): State
  {
    State(Disk(Some(first), "", None, false), [], {}, {}, {}, None, map[])
  }

  function TakeAll(codec: Codec, s: State, xs: seq<Turn>): State
  {
    if xs == [] then s else Take(codec, TakeAll(codec, s, xs[..|xs| - 1]), xs[|xs| - 1])
  }

  // ---- the log ---------------------------------------------------------------------------------------

  /** The log stands for numbered events that report no change twice. */
  ghost predicate Unrepeated(codec: Codec, log: string, es: seq<Event>, damage: Damage)
  {
    Numbered(es) && Holds(codec, log, es, damage) && Distinct(Reported(es))
  }

  ghost predicate LogOk(codec: Codec, log: string)
  {
    exists es, damage :: Unrepeated(codec, log, es, damage)
  }

  /** The changes the log reports, read back. */
  function Told(codec: Codec, log: string): seq<Change>
  {
    match ReadLog(codec, log).events
    case Ok(es) => Reported(es)
    case Err => []
  }

  lemma TellsEvents(codec: Codec, log: string, es: seq<Event>, damage: Damage)
    requires codec.Valid() && Unrepeated(codec, log, es, damage)
    ensures LogOk(codec, log) && Told(codec, log) == Reported(es)
  {
    ReadRepairs(codec, log, es, damage);
  }

  lemma LogWrites(codec: Codec, log: string, es: seq<Event>, damage: Damage, body: Body)
    requires codec.Valid() && Unrepeated(codec, log, es, damage)
    ensures var next := NextEvent(es, body);
            var known := body.Moved? && body.change.id in Ids(Reported(es));
            LogPlan(codec, log, body) ==
            Plan(RepairPlan(codec, log).writes + (if known || !codec.eventOk(next) then [] else [Append(next)]),
                 if known then Ok(false) else if codec.eventOk(next) then Ok(true) else Err)
  {
    ReadRepairs(codec, log, es, damage);
    if body.Moved? {
      LoggedIsReported(es, body.change.id);
    }
  }

  /** What an attempt to log leaves: the log as it was, or with the one event added. */
  ghost predicate LoggedAs(codec: Codec, d: Disk, after: Disk, body: Body)
  {
    && after == d.(log := after.log) && LogOk(codec, after.log)
    && (|| Told(codec, after.log) == Told(codec, d.log)
        || (body.Moved? && body.change.id !in Ids(Told(codec, d.log))
            && Told(codec, after.log) == Told(codec, d.log) + [body.change]))
  }

  lemma AppendUnrepeated(codec: Codec, es: seq<Event>, body: Body)
    requires Numbered(es) && Distinct(Reported(es))
    requires body.Moved? ==> body.change.id !in Ids(Reported(es))
    ensures Unrepeated(codec, LogText(codec, es) + LineOf(codec, NextEvent(es, body)), es + [NextEvent(es, body)], Clean)
    ensures Reported(es + [NextEvent(es, body)]) == Reported(es) + (if body.Moved? then [body.change] else [])
  {
    var next := NextEvent(es, body);
    LogGrows(codec, es, next);
    ReportedGrows(es, next);
    if body.Moved? {
      DistinctGrows(Reported(es), body.change);
    } else {
      assert Reported(es + [next]) == Reported(es);
    }
  }

  lemma TornStep(codec: Codec, d: Disk, es: seq<Event>, body: Body, cut: nat)
    requires codec.Valid() && Unrepeated(codec, d.log, es, Clean)
    requires body.Moved? ==> body.change.id !in Ids(Reported(es))
    ensures LoggedAs(codec, d, Tear(codec, d, Append(NextEvent(es, body)), cut), body)
  {
    var next := NextEvent(es, body);
    TellsEvents(codec, d.log, es, Clean);
    if cut <= |codec.encode(next)| {
      var after := Tear(codec, d, Append(next), cut);
      var damage := TornAppend(codec, es, next, cut);
      AppendUnrepeated(codec, es, body);
      assert after.log == LogText(codec, es) + LineOf(codec, next)[..cut];
      hide LogText, LineOf, Holds, Reported;
      TellsEvents(codec, after.log, if cut == |codec.encode(next)| then es + [next] else es, damage);
    }
  }

  /** Appending to a clean log, cut anywhere. */
  lemma AppendStep(codec: Codec, d: Disk, es: seq<Event>, body: Body, fuse: nat, cut: nat)
    requires codec.Valid() && Unrepeated(codec, d.log, es, Clean)
    requires body.Moved? ==> body.change.id !in Ids(Reported(es))
    ensures var after := Persist(codec, d, [Append(NextEvent(es, body))], fuse, cut);
            LoggedAs(codec, d, after, body)
            && (fuse > 0 && body.Moved? ==> Told(codec, after.log) == Reported(es) + [body.change])
  {
    var next := NextEvent(es, body);
    assert [Append(next)][1..] == [];
    if fuse > 0 {
      var after := Apply(codec, d, Append(next));
      assert Persist(codec, d, [Append(next)], fuse, cut) == Persist(codec, after, [], fuse - 1, cut) == after;
      AppendUnrepeated(codec, es, body);
      TellsEvents(codec, d.log, es, Clean);
      TellsEvents(codec, after.log, es + [next], Clean);
    } else {
      TornStep(codec, d, es, body, cut);
    }
  }

  lemma RepairStep(codec: Codec, d: Disk, es: seq<Event>, damage: Damage)
    requires codec.Valid() && Unrepeated(codec, d.log, es, damage)
    ensures Unrepeated(codec, LogText(codec, es), es, Clean)
    ensures Told(codec, d.log) == Reported(es) == Told(codec, LogText(codec, es))
    ensures LogOk(codec, d.log) && LogOk(codec, LogText(codec, es))
  {
    TellsEvents(codec, d.log, es, damage);
    TellsEvents(codec, LogText(codec, es), es, Clean);
  }

  /** An attempt to log a body, cut off anywhere, leaves the log in order; when it ends well a change is reported. */
  lemma LogKeeps(codec: Codec, s: State, body: Body, fuse: nat, cut: nat)
    requires codec.Valid() && LogOk(codec, s.disk.log)
    ensures var after := LogAs(codec, s, body, fuse, cut);
            && after == s.(disk := after.disk) && LoggedAs(codec, s.disk, after.disk, body)
            && (EndsWell(codec, s, body, fuse) && body.Moved? ==> body.change.id in Ids(Told(codec, after.disk.log)))
  {
    hide ReadLog, LogText;
    var d := s.disk;
    var es, damage :| Unrepeated(codec, d.log, es, damage);
    var repair, next := RepairPlan(codec, d.log).writes, NextEvent(es, body);
    LogWrites(codec, d.log, es, damage, body);
    RepairRuns(codec, d, es, damage, fuse, cut);
    RepairStep(codec, d, es, damage);
    if (body.Moved? && body.change.id in Ids(Reported(es))) || !codec.eventOk(next) {
      assert repair + [] == repair;
    } else {
      PersistSplit(codec, d, repair, [Append(next)], fuse, cut);
      if fuse >= |repair| {
        AppendStep(codec, d.(log := LogText(codec, es)), es, body, fuse - |repair|, cut);
        if body.Moved? {
          IdsGrow(Reported(es), body.change);
        }
      }
    }
  }

  /** With room for its writes and an accepting event schema, logging ends well. */
  lemma LogSucceeds(codec: Codec, s: State, c: Change)
    requires codec.Valid() && LogOk(codec, s.disk.log) && forall e :: codec.eventOk(e)
    ensures EndsWell(codec, s, Moved(c), 2)
  {
    var es, damage :| Unrepeated(codec, s.disk.log, es, damage);
    LogWrites(codec, s.disk.log, es, damage, Moved(c));
  }
}
