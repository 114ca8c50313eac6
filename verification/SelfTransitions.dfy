/** Transitions to the status a run already has: recovery takes a committed one for one that never started, so its event
    is either appended by the transition itself or never. */
module SelfTransitions {
  import opened Base
  import opened StoreModel
  import opened RunLog
  import opened StoreJournal
  import opened StoreTheorems

  // ---- which writes were completed --------------------------------------------------------------

  predicate Reports(x: Write, c: Change)
  {
    x.Append? && x.event.body == Moved(c)
  }

  /** Among the first k writes is the replacement of the manifest. */
  ghost predicate CommitDone(xs: seq<Write>, k: nat)
  {
    exists i :: 0 <= i < |xs| && i < k && xs[i].Commit?
  }

  /** Among the first k writes is the append of the change's event, or it was cut only at its line feed. */
  ghost predicate AppendDone(codec: Codec, xs: seq<Write>, k: nat, cut: nat, c: Change)
  {
    exists i :: 0 <= i < |xs| && Reports(xs[i], c) && (i < k || (i == k && cut == |codec.encode(xs[i].event)|))
  }

  lemma AppendHead(codec: Codec, xs: seq<Write>, k: nat, cut: nat, c: Change)
    requires xs != [] && k > 0
    ensures AppendDone(codec, xs, k, cut, c) <==> Reports(xs[0], c) || AppendDone(codec, xs[1..], k - 1, cut, c)
  {
    if i :| 0 <= i < |xs| && Reports(xs[i], c) && (i < k || (i == k && cut == |codec.encode(xs[i].event)|)) {
      assert i > 0 ==> xs[1..][i - 1] == xs[i];
    }
    var ys := xs[1..];
    if i :| 0 <= i < |ys| && Reports(ys[i], c) && (i < k - 1 || (i == k - 1 && cut == |codec.encode(ys[i].event)|)) {
      assert xs[i + 1] == ys[i];
    }
  }

  lemma CommitHead(xs: seq<Write>, k: nat)
    requires xs != [] && k > 0
    ensures CommitDone(xs, k) <==> xs[0].Commit? || CommitDone(xs[1..], k - 1)
  {
    if i :| 0 <= i < |xs| && i < k && xs[i].Commit? {
      assert i > 0 ==> xs[1..][i - 1] == xs[i];
    }
    if i :| 0 <= i < |xs[1..]| && i < k - 1 && xs[1..][i].Commit? {
      assert xs[i + 1] == xs[1..][i];
    }
  }

  /** A sequence of safe writes cut off anywhere reports a change exactly when its append is done. */
  lemma {:induction false} SafeReports(codec: Codec, w: World, xs: seq<Write>, k: nat, cut: nat, c: Change)
    returns (after: World)
    requires codec.Valid() && Inv(codec, w) && SafeAll(codec, w, xs)
    ensures Inv(codec, after) && after.disk == Persist(codec, w.disk, xs, k, cut)
    ensures c in Reported(after.events) <==> c in Reported(w.events) || AppendDone(codec, xs, k, cut, c)
    decreases |xs|
  {
    hide Inv, Safe;
    if xs == [] {
      after := w;
    } else if k == 0 {
      after := TearKeeps(codec, w, xs[0], cut);
      if xs[0].Append? {
        ReportedGrows(w.events, xs[0].event);
      }
    } else {
      StepKeeps(codec, w, xs[0]);
      after := SafeReports(codec, Step(codec, w, xs[0]), xs[1..], k - 1, cut, c);
      AppendHead(codec, xs, k, cut, c);
      if xs[0].Append? {
        ReportedGrows(w.events, xs[0].event);
      }
    }
  }

  // ---- what is committed ------------------------------------------------------------------------

  /** Every replacement of the manifest finds this change on record. */
  ghost predicate CommitsOnly(codec: Codec, d: Disk, xs: seq<Write>, c: Change)
    decreases |xs|
  {
    xs != [] ==> (xs[0].Commit? ==> d.pending == Some(c)) && CommitsOnly(codec, Apply(codec, d, xs[0]), xs[1..], c)
  }

  predicate NoCommit(xs: seq<Write>)
  {
    forall i :: 0 <= i < |xs| ==> !xs[i].Commit?
  }

  lemma {:induction false} CommittedExactly(codec: Codec, d: Disk, history: seq<Change>, xs: seq<Write>, k: nat, c: Change)
    requires CommitsOnly(codec, d, xs, c)
    ensures c in Committed(codec, d, history, xs, k) <==> c in history || CommitDone(xs, k)
    decreases |xs|
  {
    if xs != [] && k > 0 {
      var grown := if xs[0].Commit? && d.pending.Some? then history + [d.pending.value] else history;
      CommittedExactly(codec, Apply(codec, d, xs[0]), grown, xs[1..], k - 1, c);
      CommitHead(xs, k);
    }
  }

  lemma {:induction false} FrontCommitsOnly(codec: Codec, d: Disk, front: seq<Write>, rest: seq<Write>, c: Change)
    requires NoCommit(front) && CommitsOnly(codec, ApplyAll(codec, d, front), rest, c)
    ensures CommitsOnly(codec, d, front + rest, c)
    decreases |front|
  {
    if front == [] {
      assert front + rest == rest;
    } else {
      assert !front[0].Commit? && NoCommit(front[1..]);
      assert (front + rest)[1..] == front[1..] + rest;
      FrontCommitsOnly(codec, Apply(codec, d, front[0]), front[1..], rest, c);
    }
  }

  lemma {:induction false} NothingToCommit(codec: Codec, d: Disk, xs: seq<Write>, c: Change)
    requires NoCommit(xs)
    ensures CommitsOnly(codec, d, xs, c)
    decreases |xs|
  {
    if xs != [] {
      assert !xs[0].Commit? && NoCommit(xs[1..]);
      NothingToCommit(codec, Apply(codec, d, xs[0]), xs[1..], c);
    }
  }

  lemma ReportHasNoCommit(codec: Codec, log: string, c: Change)
    ensures NoCommit(ReportPlan(codec, log, c).writes)
  {
  }

  lemma LoadHasNoCommit(codec: Codec, d: Disk)
    ensures NoCommit(LoadPlan(codec, d).writes)
  {
    if d.pending.Some? {
      ReportHasNoCommit(codec, d.log, d.pending.value);
    }
  }

  lemma ReplaceCommitsOnly(codec: Codec, d: Disk, log: string, c: Change, next: Manifest)
    ensures CommitsOnly(codec, d, ReplacePlan(codec, log, c, next).writes, c)
  {
    if codec.manifestOk(next) {
      var rest := ReportPlan(codec, log, c).writes;
      ReportHasNoCommit(codec, log, c);
      hide ReportPlan;
      var d1 := d.(pending := Some(c));
      NothingToCommit(codec, Apply(codec, d1, Commit(next)), rest, c);
      var ws := [PutPending(c), Commit(next)] + rest;
      assert ws[1..] == [Commit(next)] + rest && ws[1..][1..] == rest;
      assert CommitsOnly(codec, d1, ws[1..], c);
    } else {
      assert [PutPending(c)][1..] == [];
    }
  }

  // ---- transitions to the same status ----------------------------------------------------------------

  /** The request leaves the run's status as it is, by its own wish: a flag or Cancelling status turns others away. */
  predicate KeepsStatusOf(w: World, r: Request)
    requires w.disk.manifest.Some?
  {
    Effective(w.disk.cancel, StatusOf(w), r.status) == StatusOf(w)
  }

  function SelfChange(w: World, r: Request): Change
    requires w.disk.manifest.Some?
  {
    Change(r.id, r.timestamp, StatusOf(w), StatusOf(w), r.status, r.phase, r.detail)
  }

  lemma ChangeCommitsOnly(codec: Codec, d: Disk, m: Manifest, caller: Manifest, r: Request)
    requires Effective(d.cancel, m.status, r.status) == m.status
    ensures CommitsOnly(codec, d, ChangePlan(codec, d, m, caller, r).writes,
                        Change(r.id, r.timestamp, m.status, m.status, r.status, r.phase, r.detail))
  {
    var c := Change(r.id, r.timestamp, m.status, m.status, r.status, r.phase, r.detail);
    var next := NextManifest(m, caller, m.status, r.phase);
    var flag := if r.status.Cancelling? then [PutCancel] else [];
    ReplaceCommitsOnly(codec, ApplyAll(codec, d, flag), d.log, c, next);
    FrontCommitsOnly(codec, d, flag, ReplacePlan(codec, d.log, c, next).writes, c);
  }

  lemma TransitionCommitsOnly(codec: Codec, w: World, caller: Manifest, r: Request)
    requires codec.Valid() && Inv(codec, w) && KeepsStatusOf(w, r)
    ensures CommitsOnly(codec, w.disk, TransitionPlan(codec, w.disk, caller, r).writes, SelfChange(w, r))
  {
    var load, c := LoadPlan(codec, w.disk), SelfChange(w, r);
    LoadHasNoCommit(codec, w.disk);
    if load.result.Err? {
      NothingToCommit(codec, w.disk, load.writes, c);
    } else {
      LoadIsSafe(codec, w);
      StepAllDisk(codec, w, load.writes);
      var mid := ApplyAll(codec, w.disk, load.writes);
      assert mid.manifest == w.disk.manifest && mid.cancel == w.disk.cancel;
      hide Inv, SafeAll, ChangePlan;
      ChangeCommitsOnly(codec, mid, load.result.value, caller, r);
      FrontCommitsOnly(codec, w.disk, load.writes, ThenChange(codec, w.disk, load, caller, r).writes, c);
    }
  }

  /** No load reports a change to the same status. */
  lemma LoadNeverReports(codec: Codec, d: Disk, k: nat, cut: nat, c: Change)
    requires c.from == c.to
    ensures !AppendDone(codec, LoadPlan(codec, d).writes, k, cut, c)
  {
    var ws := LoadPlan(codec, d).writes;
    forall i | 0 <= i < |ws| ensures !Reports(ws[i], c) {
    }
  }

  /** The transition cut off after k writes, and the load that follows it. */
  function Attempt(codec: Codec, w: World, caller: Manifest, r: Request, k: nat, cut: nat): Run
  {
    Perform(codec, Run(w.disk, w.history), Op(Transition(caller, r), k, cut))
  }

  function Reloaded(codec: Codec, w: World, caller: Manifest, r: Request, k: nat, cut: nat): Disk
  {
    var d := Attempt(codec, w, caller, r, k, cut).disk;
    ApplyAll(codec, d, LoadPlan(codec, d).writes)
  }

  /** Committed, and after a load without an event. */
  ghost predicate IsForgotten(codec: Codec, w: World, caller: Manifest, r: Request, k: nat, cut: nat)
    requires w.disk.manifest.Some?
  {
    && SelfChange(w, r) in Attempt(codec, w, caller, r, k, cut).history
    && match ReadLog(codec, Reloaded(codec, w, caller, r, k, cut).log).events
       case Ok(es) => SelfChange(w, r) !in Reported(es)
       case Err => false
  }

  lemma FreshIsNew(codec: Codec, w: World, c: Change)
    requires Inv(codec, w) && c.id !in Ids(w.history)
    ensures c !in w.history && c !in Reported(w.events)
  {
    var h, reported := w.history, Reported(w.events);
    forall i | 0 <= i < |h| ensures h[i] != c {
      assert h[i].id in Ids(h);
    }
    forall i | 0 <= i < |reported| ensures reported[i] != c {
      assert reported[i].id in Ids(reported);
    }
  }

  /** Any transition that keeps the status, from any journal in order, with any caller's manifest, cancelled or not, with
      a record left over or not, and with power lost anywhere or nowhere: after the load that follows it is committed
      exactly when its manifest was replaced, and reported exactly when its event was appended or cut at its line feed.
      So it is forgotten exactly when the manifest was replaced and the event not appended. */
  lemma SelfTransitionLostExactly(codec: Codec, w: World, caller: Manifest, r: Request, k: nat, cut: nat)
    requires codec.Valid() && Inv(codec, w) && KeepsStatusOf(w, r) && r.id !in Ids(w.history)
    ensures var writes, c := TransitionPlan(codec, w.disk, caller, r).writes, SelfChange(w, r);
            var reading := ReadLog(codec, Reloaded(codec, w, caller, r, k, cut).log).events;
            && (c in Attempt(codec, w, caller, r, k, cut).history <==> CommitDone(writes, k))
            && reading.Ok? && (c in Reported(reading.value) <==> AppendDone(codec, writes, k, cut, c))
            && (IsForgotten(codec, w, caller, r, k, cut) <==>
                  CommitDone(writes, k) && !AppendDone(codec, writes, k, cut, c))
  {
    var writes, c := TransitionPlan(codec, w.disk, caller, r).writes, SelfChange(w, r);
    FreshIsNew(codec, w, c);
    TransitionCommitsOnly(codec, w, caller, r);
    CommittedExactly(codec, w.disk, w.history, writes, k, c);
    TransitionIsSafe(codec, w, caller, r);
    hide TransitionPlan, LoadPlan, Persist, Committed, ApplyAll, CommitsOnly, SafeAll, Inv, ReadLog, CommitDone, AppendDone;
    var crashed := SafeReports(codec, w, writes, k, cut, c);
    ReloadTells(codec, crashed, c);
  }

  lemma ReloadTells(codec: Codec, w: World, c: Change)
    requires codec.Valid() && Inv(codec, w) && c.from == c.to
    ensures var reading := ReadLog(codec, ApplyAll(codec, w.disk, LoadPlan(codec, w.disk).writes).log).events;
            reading.Ok? && (c in Reported(reading.value) <==> c in Reported(w.events))
  {
    var load := LoadPlan(codec, w.disk).writes;
    LoadIsSafe(codec, w);
    hide LoadPlan, SafeAll, Reported;
    var after := SafeReports(codec, w, load, |load|, 0, c);
    PersistWhole(codec, w.disk, load, |load|, 0);
    LoadNeverReports(codec, w.disk, |load|, 0, c);
    ReadRepairs(codec, after.disk.log, after.events, after.damage);
  }

  // ---- it happens ----------------------------------------------------------------------------------

  function FlagOf(r: Request): seq<Write>
  {
    if r.status.Cancelling? then [PutCancel] else []
  }

  function SelfNext(w: World, caller: Manifest, r: Request): Manifest
    requires w.disk.manifest.Some?
  {
    NextManifest(w.disk.manifest.value, caller, StatusOf(w), r.phase)
  }

  lemma Regroup(a: seq<Write>, x: Write, y: Write, b: seq<Write>)
    ensures a + ([x, y] + b) == a + [x] + [y] + b
  {
  }

  /** The writes from a run without a record: flag, record, manifest, then the report. */
  lemma SelfWrites(codec: Codec, w: World, caller: Manifest, r: Request)
    requires w.disk.manifest.Some? && w.disk.pending.None? && !Terminal(StatusOf(w)) && KeepsStatusOf(w, r)
    requires codec.manifestOk(SelfNext(w, caller, r))
    ensures TransitionPlan(codec, w.disk, caller, r).writes ==
            FlagOf(r) + [PutPending(SelfChange(w, r))] + [Commit(SelfNext(w, caller, r))]
            + ReportPlan(codec, w.disk.log, SelfChange(w, r)).writes
  {
    hide ReportPlan;
    Regroup(FlagOf(r), PutPending(SelfChange(w, r)), Commit(SelfNext(w, caller, r)),
            ReportPlan(codec, w.disk.log, SelfChange(w, r)).writes);
    var m := w.disk.manifest.value;
    assert LoadPlan(codec, w.disk) == Plan([], Ok(m));
    assert ApplyAll(codec, w.disk, []) == w.disk;
    var change := ChangePlan(codec, w.disk, m, caller, r);
    assert [] + change.writes == change.writes;
  }

  /** Before the report there is one replacement and no append. */
  lemma DoneInReport(codec: Codec, front: seq<Write>, next: Manifest, report: seq<Write>, k: nat, cut: nat, c: Change)
    requires k > |front| && forall i :: 0 <= i < |front| ==> !front[i].Append?
    ensures CommitDone(front + [Commit(next)] + report, k)
    ensures AppendDone(codec, front + [Commit(next)] + report, k, cut, c) <==>
            AppendDone(codec, report, k - |front| - 1, cut, c)
  {
    var ws, n := front + [Commit(next)] + report, |front| + 1;
    assert ws[n - 1] == Commit(next);
    assert forall i :: 0 <= i < |report| ==> ws[i + n] == report[i];
    assert forall i :: 0 <= i < |front| ==> ws[i] == front[i];
  }

  /** A report appends only an event that passes its schema. */
  lemma AppendsPass(codec: Codec, w: World, c: Change)
    requires codec.Valid() && Inv(codec, w)
    ensures forall i :: 0 <= i < |ReportPlan(codec, w.disk.log, c).writes| ==>
                          (Reports(ReportPlan(codec, w.disk.log, c).writes[i], c) ==>
                             codec.eventOk(NextEvent(w.events, Moved(c))))
  {
    RepairIsSafe(codec, w);
    hide Inv, Codec.Valid, ReadLog, SafeAll, StepAll, LogText;
  }

  /** With no write left for it, or no place in the plan, the append is not done. */
  lemma NotAppended(codec: Codec, w: World, c: Change, k: nat, cut: nat)
    requires codec.Valid() && Inv(codec, w)
    requires (k == 0 && cut == 0) || !codec.eventOk(NextEvent(w.events, Moved(c)))
    ensures !AppendDone(codec, ReportPlan(codec, w.disk.log, c).writes, k, cut, c)
  {
    AppendsPass(codec, w, c);
    hide Inv, ReportPlan, NextEvent;
    var report := ReportPlan(codec, w.disk.log, c).writes;
    forall i | 0 <= i < |report| && Reports(report[i], c) ensures |codec.encode(report[i].event)| > 0 {
      assert codec.Prints(report[i].event);
    }
  }

  /** Power lost right after the manifest forgets such a transition, a second cancel included; and an event that fails
      its schema forgets it with no loss of power at all. */
  lemma SelfTransitionMayBeLost(codec: Codec, w: World, caller: Manifest, r: Request, k: nat, cut: nat)
    requires codec.Valid() && Inv(codec, w) && KeepsStatusOf(w, r) && r.id !in Ids(w.history)
    requires w.disk.pending.None? && !Terminal(StatusOf(w)) && codec.manifestOk(SelfNext(w, caller, r))
    requires || (k == |FlagOf(r)| + 2 && cut == 0)
             || (k >= |FlagOf(r)| + 2 && !codec.eventOk(NextEvent(w.events, Moved(SelfChange(w, r)))))
    ensures IsForgotten(codec, w, caller, r, k, cut)
  {
    assert w.disk.manifest.Some?;
    hide TransitionPlan, ReportPlan, Inv, IsForgotten, CommitDone, AppendDone, Attempt, Reloaded, KeepsStatusOf, SelfChange,
         SelfNext, NextEvent, Ids;
    var c, next := SelfChange(w, r), SelfNext(w, caller, r);
    var front, report := FlagOf(r) + [PutPending(c)], ReportPlan(codec, w.disk.log, c).writes;
    SelfWrites(codec, w, caller, r);
    SelfTransitionLostExactly(codec, w, caller, r, k, cut);
    DoneInReport(codec, front, next, report, k, cut, c);
    NotAppended(codec, w, c, k - |front| - 1, cut);
  }
}
