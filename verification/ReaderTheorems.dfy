/** What lock-free readers can and cannot do to a run's log: nothing false is logged and nothing twice, and a committed
    change misses its event exactly when a reader took its record away and its writer never came to append. */
module ReaderTheorems {
  import opened Base
  import opened StoreModel
  import opened RunLog
  import opened StoreJournal
  import opened StoreTheorems
  import opened StoreReaders

  /** How far along a status is; every change of status goes up. */
  function Rank(s: Status): nat
  {
    match s
    case Queued => 0
    case Preflight => 1
    case R1Running => 2
    case R1Gate => 3
    case R2Packet => 4
    case R2Running => 5
    case R2Gate => 6
    case R3Cc => 7
    case WaitingPrimaryArbiter => 8
    case Merging => 9
    case Cancelling => 10
    case _ => 11
  }

  lemma ChangesGoUp(from: Status, to: Status)
    requires TransitionAllowed(from, to) && !Terminal(from)
    ensures from == to || Rank(from) < Rank(to)
  {
  }

  // ---- the invariant -----------------------------------------------------------------------------

  function StatusIn(s: State): Status
    requires s.disk.manifest.Some?
  {
    s.disk.manifest.value.status
  }

  ghost predicate Recorded(s: State, c: Change)
  {
    s.disk.pending == Some(c)
  }

  ghost predicate IsLast(s: State, c: Change)
  {
    s.committed != [] && s.committed[|s.committed| - 1] == c
  }

  /** A change that may still be committed. */
  ghost predicate Open(s: State, c: Change)
    requires s.disk.manifest.Some?
  {
    && c.id in s.used && c.id !in Ids(s.committed)
    && c.from == StatusIn(s) && TransitionAllowed(c.from, c.to) && !Terminal(c.from)
  }

  ghost predicate Sound(codec: Codec, s: State)
  {
    && s.disk.manifest.Some? && LogOk(codec, s.disk.log)
    && Distinct(s.committed) && Ids(s.committed) <= s.used && s.stolen <= s.used && s.deserted <= Ids(s.committed)
    && (s.committed != [] ==> s.committed[|s.committed| - 1].to == StatusIn(s))
    && (forall c :: c in Told(codec, s.disk.log) ==> c in s.committed)
    && (s.disk.pending.Some? ==>
          && s.disk.pending.value.id in s.used && s.disk.pending.value.id !in s.stolen
          && (IsLast(s, s.disk.pending.value) || Open(s, s.disk.pending.value)))
  }

  /** The change's record is on disk, or a process without the lock removed it. */
  ghost predicate Kept(s: State, c: Change)
  {
    Recorded(s, c) || c.id in s.stolen
  }

  /** What is on record has been reported. */
  ghost predicate RecordTold(codec: Codec, s: State)
  {
    s.disk.pending.Some? ==> s.disk.pending.value in Told(codec, s.disk.log)
  }

  ghost predicate ThreadOk(codec: Codec, s: State, t: nat)
    requires s.disk.manifest.Some?
  {
    var mine := s.lock == Some(t);
    match At(s, t)
    case AtRest => !mine
    case HasLock => mine
    case HasManifest(status) => Rank(status) <= Rank(StatusIn(s)) && (mine ==> status == StatusIn(s))
    case HasRecord(status, c) =>
      && (status == c.to && c.from != c.to ==> c in s.committed)
      && (mine ==> status == StatusIn(s) && (Recorded(s, c) || s.disk.pending.None?))
    case HasReported => mine ==> RecordTold(codec, s)
    case HasLoaded => mine && s.disk.pending.None?
    case HasJournaled(c) => mine && Open(s, c) && Kept(s, c) && (Recorded(s, c) || s.disk.pending.None?)
    case HasReplaced(c) =>
      mine && IsLast(s, c) && c.id !in s.deserted && Kept(s, c) && (Recorded(s, c) || s.disk.pending.None?)
    case HasLogged => mine && RecordTold(codec, s)
  }

  /** Somebody may still append the event of this committed change under the lock. */
  ghost predicate Writing(s: State, c: Change)
  {
    s.lock.Some? && At(s, s.lock.value) == HasReplaced(c)
  }

  /** Every committed change of status is reported, or its record is kept or stolen and its writer at work or gone. */
  ghost predicate ChangeOk(codec: Codec, s: State, c: Change)
  {
    c in Told(codec, s.disk.log) || (Kept(s, c) && (Writing(s, c) || c.id in s.deserted))
  }

  ghost predicate Good(codec: Codec, s: State)
  {
    && Sound(codec, s)
    && (forall t: nat :: ThreadOk(codec, s, t))
    && (forall c :: c in s.committed && c.from != c.to ==> ChangeOk(codec, s, c))
  }

  // ---- one turn --------------------------------------------------------------------------------------

  /** A process moves on without touching a file, perhaps taking or releasing the lock. */
  lemma MoveKeeps(codec: Codec, s: State, t: nat, l: Local, lock: Option<nat>)
    requires Good(codec, s) && !At(s, t).HasReplaced?
    requires lock == s.lock || (s.lock == None && lock == Some(t)) || (s.lock == Some(t) && lock == None)
    requires ThreadOk(codec, Go(s.(lock := lock), t, l), t)
    ensures Good(codec, Go(s.(lock := lock), t, l))
  {
    hide Told, LogOk;
    var after := Go(s.(lock := lock), t, l);
    forall u: nat ensures ThreadOk(codec, after, u) {
      assert ThreadOk(codec, s, u);
    }
    forall c | c in s.committed && c.from != c.to ensures ChangeOk(codec, after, c) {
      assert ChangeOk(codec, s, c);
      assert ThreadOk(codec, s, t);
    }
  }

  lemma QuitKeeps(codec: Codec, s: State, t: nat)
    requires Good(codec, s) && !At(s, t).HasReplaced?
    ensures Good(codec, Quit(s, t))
  {
    MoveKeeps(codec, s, t, AtRest, if s.lock == Some(t) then None else s.lock);
  }

  lemma LoadEndKeeps(codec: Codec, s: State, t: nat)
    requires Good(codec, s) && !At(s, t).HasReplaced? && s.disk.pending.None?
    ensures Good(codec, LoadEnds(s, t))
  {
    MoveKeeps(codec, s, t, if s.lock == Some(t) then HasLoaded else AtRest, s.lock);
  }

  /** What is on record is uncommitted, or changes nothing. */
  ghost predicate RecordIdle(s: State)
  {
    s.disk.pending.Some? ==>
      s.disk.pending.value.from == s.disk.pending.value.to || s.disk.pending.value !in s.committed
  }

  /** Dropping a record is harmless for a process with the lock when it is of no unreported move; without the lock it is
      a theft, and noted as such. */
  lemma DropKeeps(codec: Codec, s: State, t: nat)
    requires Good(codec, s)
    requires s.lock == Some(t) ==> At(s, t).HasRecord? || At(s, t).HasReported? || At(s, t).HasLogged?
    requires s.lock == Some(t) ==> RecordTold(codec, s) || RecordIdle(s)
    ensures Good(codec, Drop(s, t)) && Drop(s, t).disk.pending.None?
  {
    hide Told, LogOk;
    var after := Drop(s, t);
    forall u: nat ensures ThreadOk(codec, after, u) {
      assert ThreadOk(codec, s, u) && ThreadOk(codec, s, t);
    }
    forall c | c in s.committed && c.from != c.to ensures ChangeOk(codec, after, c) {
      assert ChangeOk(codec, s, c);
    }
  }

  lemma LogAsKeeps(codec: Codec, s: State, body: Body, fuse: nat, cut: nat)
    requires codec.Valid() && Good(codec, s) && (body.Moved? ==> body.change in s.committed)
    ensures var after := LogAs(codec, s, body, fuse, cut);
            Good(codec, after) && after == s.(disk := after.disk) && after.disk == s.disk.(log := after.disk.log)
            && (EndsWell(codec, s, body, fuse) && body.Moved? ==> body.change in Told(codec, after.disk.log))
  {
    LogKeeps(codec, s, body, fuse, cut);
    var after := LogAs(codec, s, body, fuse, cut);
    forall c | c in Told(codec, s.disk.log) ensures c in Told(codec, after.disk.log) {
    }
    if EndsWell(codec, s, body, fuse) && body.Moved? {
      KnownById(codec, after, body.change);
    }
    forall u: nat ensures ThreadOk(codec, after, u) {
      assert ThreadOk(codec, s, u);
    }
    forall c | c in s.committed && c.from != c.to ensures ChangeOk(codec, after, c) {
      assert ChangeOk(codec, s, c);
    }
  }

  /** Among committed changes the id determines the change. */
  lemma KnownById(codec: Codec, s: State, c: Change)
    requires Distinct(s.committed) && c in s.committed && c.id in Ids(Told(codec, s.disk.log))
    requires forall x :: x in Told(codec, s.disk.log) ==> x in s.committed
    ensures c in Told(codec, s.disk.log)
  {
    var told := Told(codec, s.disk.log);
    var i :| 0 <= i < |told| && told[i].id == c.id;
    assert told[i] in s.committed;
  }

  lemma RecoverKeeps(codec: Codec, s: State, t: nat, fuse: nat, cut: nat)
    requires codec.Valid() && Good(codec, s) && At(s, t).HasRecord?
    ensures Good(codec, Recover(codec, s, t, At(s, t).status, At(s, t).change, fuse, cut))
  {
    hide Told, LogOk, LogPlan, Persist, EndsWell;
    var status, c := At(s, t).status, At(s, t).change;
    assert ThreadOk(codec, s, t);
    if status == c.from {
      DropKeeps(codec, s, t);
      LoadEndKeeps(codec, Drop(s, t), t);
    } else if status != c.to {
      QuitKeeps(codec, s, t);
    } else {
      LogAsKeeps(codec, s, Moved(c), fuse, cut);
      var logged := LogAs(codec, s, Moved(c), fuse, cut);
      if EndsWell(codec, s, Moved(c), fuse) {
        MoveKeeps(codec, logged, t, HasReported, logged.lock);
      } else {
        QuitKeeps(codec, logged, t);
      }
    }
  }

  lemma ForgetKeeps(codec: Codec, s: State, t: nat)
    requires codec.Valid() && Good(codec, s) && (At(s, t).HasReported? || At(s, t).HasLogged?)
    ensures Good(codec, Take(codec, s, Forget(t)))
  {
    assert ThreadOk(codec, s, t);
    DropKeeps(codec, s, t);
    if At(s, t).HasReported? {
      LoadEndKeeps(codec, Drop(s, t), t);
    } else {
      QuitKeeps(codec, Drop(s, t), t);
    }
  }

  /** The writer stops after the manifest: power is lost, or the event is refused. */
  lemma DesertKeeps(codec: Codec, s: State, t: nat)
    requires Good(codec, s) && At(s, t).HasReplaced?
    ensures Good(codec, Quit(s.(deserted := s.deserted + {At(s, t).change.id}), t))
  {
    hide Told, LogOk;
    var after := Quit(s.(deserted := s.deserted + {At(s, t).change.id}), t);
    assert ThreadOk(codec, s, t);
    assert At(s, t).change.id in Ids(s.committed) by {
      assert s.committed[|s.committed| - 1].id in Ids(s.committed);
    }
    forall u: nat ensures ThreadOk(codec, after, u) {
      assert ThreadOk(codec, s, u);
    }
    forall c | c in s.committed && c.from != c.to ensures ChangeOk(codec, after, c) {
      assert ChangeOk(codec, s, c);
    }
  }

  lemma ReportKeeps(codec: Codec, s: State, t: nat, fuse: nat, cut: nat)
    requires codec.Valid() && Good(codec, s) && At(s, t).HasReplaced?
    ensures Good(codec, Report(codec, s, t, At(s, t).change, fuse, cut))
  {
    var c := At(s, t).change;
    assert ThreadOk(codec, s, t);
    LogAsKeeps(codec, s, Moved(c), fuse, cut);
    var logged := LogAs(codec, s, Moved(c), fuse, cut);
    if EndsWell(codec, s, Moved(c), fuse) {
      WrittenKeeps(codec, logged, t);
    } else {
      DesertKeeps(codec, logged, t);
    }
  }

  lemma WrittenKeeps(codec: Codec, s: State, t: nat)
    requires Good(codec, s) && At(s, t).HasReplaced? && At(s, t).change in Told(codec, s.disk.log)
    ensures Good(codec, Go(s, t, HasLogged))
  {
    hide Told, LogOk;
    var after := Go(s, t, HasLogged);
    assert ThreadOk(codec, s, t);
    forall u: nat ensures ThreadOk(codec, after, u) {
      assert ThreadOk(codec, s, u);
    }
    forall c | c in s.committed && c.from != c.to ensures ChangeOk(codec, after, c) {
      assert ChangeOk(codec, s, c);
    }
  }

  lemma JournalKeeps(codec: Codec, s: State, t: nat, c: Change)
    requires Good(codec, s) && At(s, t).HasLoaded? && New(s, c)
    ensures Good(codec, Take(codec, s, Journal(t, c)))
  {
    hide Told, LogOk;
    var after := Take(codec, s, Journal(t, c));
    assert ThreadOk(codec, s, t);
    forall u: nat ensures ThreadOk(codec, after, u) {
      assert ThreadOk(codec, s, u);
    }
    forall x | x in s.committed && x.from != x.to ensures ChangeOk(codec, after, x) {
      assert ChangeOk(codec, s, x);
    }
  }

  lemma ReplaceKeeps(codec: Codec, s: State, t: nat, next: Manifest)
    requires Good(codec, s) && At(s, t).HasJournaled? && next.status == At(s, t).change.to
    ensures Good(codec, Take(codec, s, Replace(t, next)))
  {
    hide Told, LogOk;
    var after, c := Take(codec, s, Replace(t, next)), At(s, t).change;
    assert ThreadOk(codec, s, t);
    DistinctGrows(s.committed, c);
    ChangesGoUp(c.from, c.to);
    forall u: nat ensures ThreadOk(codec, after, u) {
      assert ThreadOk(codec, s, u);
    }
    forall x | x in after.committed && x.from != x.to ensures ChangeOk(codec, after, x) {
      if x in s.committed {
        assert ChangeOk(codec, s, x);
      }
    }
  }

  lemma LookKeeps(codec: Codec, s: State, t: nat)
    requires Good(codec, s) && At(s, t).HasManifest?
    ensures Good(codec, Take(codec, s, Look(t)))
  {
    assert ThreadOk(codec, s, t);
    if s.disk.pending.None? {
      LoadEndKeeps(codec, s, t);
    } else {
      var c := s.disk.pending.value;
      if Open(s, c) {
        ChangesGoUp(c.from, c.to);
      }
      MoveKeeps(codec, s, t, HasRecord(At(s, t).status, c), s.lock);
    }
  }

  lemma ResaveKeeps(codec: Codec, s: State, m: Manifest)
    requires Good(codec, s) && m.status == StatusIn(s)
    ensures Good(codec, s.(disk := s.disk.(manifest := Some(m))))
  {
    hide Told, LogOk;
    var after := s.(disk := s.disk.(manifest := Some(m)));
    forall u: nat ensures ThreadOk(codec, after, u) {
      assert ThreadOk(codec, s, u);
    }
    forall c | c in s.committed && c.from != c.to ensures ChangeOk(codec, after, c) {
      assert ChangeOk(codec, s, c);
    }
  }

  lemma TurnKeeps(codec: Codec, s: State, x: Turn)
    requires codec.Valid() && Good(codec, s)
    ensures Good(codec, Take(codec, s, x))
  {
    match x {
      case Lock(t) => if At(s, t).AtRest? && s.lock.None? { MoveKeeps(codec, s, t, HasLock, Some(t)); }
      case Start(t) =>
        assert ThreadOk(codec, s, t);
        if At(s, t).AtRest? || At(s, t).HasLock? { MoveKeeps(codec, s, t, HasManifest(StatusIn(s)), s.lock); }
      case Look(t) => if At(s, t).HasManifest? { LookKeeps(codec, s, t); }
      case Act(t, fuse, cut) => if At(s, t).HasRecord? { RecoverKeeps(codec, s, t, fuse, cut); }
      case Forget(t) => if At(s, t).HasReported? || At(s, t).HasLogged? { ForgetKeeps(codec, s, t); }
      case Journal(t, c) => if At(s, t).HasLoaded? && New(s, c) { JournalKeeps(codec, s, t, c); }
      case Replace(t, next) =>
        if At(s, t).HasJournaled? && next.status == At(s, t).change.to { ReplaceKeeps(codec, s, t, next); }
      case Log(t, fuse, cut) => if At(s, t).HasReplaced? { ReportKeeps(codec, s, t, fuse, cut); }
      case Die(t) => if At(s, t).HasReplaced? { DesertKeeps(codec, s, t); } else { QuitKeeps(codec, s, t); }
      case Note(kind, fuse, cut) => LogAsKeeps(codec, s, Noted(kind), fuse, cut);
      case Resaved(m) => if s.lock.None? && m.status == StatusIn(s) { ResaveKeeps(codec, s, m); }
    }
  }

  lemma NothingTold(codec: Codec)
    requires codec.Valid()
    ensures LogOk(codec, "") && Told(codec, "") == []
  {
    TellsEvents(codec, "", [], Clean);
  }

  /** The invariant holds in every interleaving of writers, readers and deaths. */
  lemma {:induction false} EveryInterleavingHolds(codec: Codec, first: Manifest, xs: seq<Turn>)
    requires codec.Valid()
    ensures Good(codec, TakeAll(codec, Begin(first), xs))
    decreases |xs|
  {
    if xs == [] {
      NothingTold(codec);
    } else {
      EveryInterleavingHolds(codec, first, xs[..|xs| - 1]);
      TurnKeeps(codec, TakeAll(codec, Begin(first), xs[..|xs| - 1]), xs[|xs| - 1]);
    }
  }

  /** At most once, and nothing false: in every interleaving the log reads back as numbered events in which no change
      appears twice and every change was committed. */
  lemma AtMostOnce(codec: Codec, first: Manifest, xs: seq<Turn>) returns (es: seq<Event>)
    requires codec.Valid()
    ensures var s := TakeAll(codec, Begin(first), xs);
            && ReadLog(codec, s.disk.log).events == Ok(es) && Numbered(es) && Distinct(Reported(es))
            && forall c :: c in Reported(es) ==> c in s.committed
  {
    EveryInterleavingHolds(codec, first, xs);
    var log := TakeAll(codec, Begin(first), xs).disk.log;
    var events, damage :| Unrepeated(codec, log, events, damage);
    ReadRepairs(codec, log, events, damage);
    es := events;
  }

  // ---- which committed changes end without an event --------------------------------------------------

  /** A reader has read this record beside a manifest that the change had reached: it is about to report it. */
  ghost predicate Carrying(s: State, t: nat, c: Change)
  {
    At(s, t) == HasRecord(c.to, c)
  }

  ghost predicate Lost(codec: Codec, s: State, c: Change)
  {
    && c in s.committed && c.from != c.to && c !in Told(codec, s.disk.log)
    && c.id in s.stolen && c.id in s.deserted
    && forall t: nat :: !Carrying(s, t, c)
  }

  lemma LogTells(codec: Codec, s: State, body: Body, fuse: nat, cut: nat, c: Change)
    requires codec.Valid() && Good(codec, s) && c !in Told(codec, s.disk.log) && body != Moved(c)
    ensures c !in Told(codec, LogAs(codec, s, body, fuse, cut).disk.log)
    ensures LogAs(codec, s, body, fuse, cut).disk.pending == s.disk.pending
  {
    LogKeeps(codec, s, body, fuse, cut);
  }

  /** Nothing that has happened is undone. */
  lemma HistoryGrows(codec: Codec, s: State, x: Turn)
    ensures s.committed <= Take(codec, s, x).committed
    ensures s.stolen <= Take(codec, s, x).stolen && s.deserted <= Take(codec, s, x).deserted
  {
    hide LogPlan, Persist;
  }

  lemma RecoverTells(codec: Codec, s: State, t: nat, fuse: nat, cut: nat, c: Change)
    requires codec.Valid() && Good(codec, s) && c !in Told(codec, s.disk.log) && At(s, t).HasRecord?
    requires !Carrying(s, t, c)
    ensures c !in Told(codec, Recover(codec, s, t, At(s, t).status, At(s, t).change, fuse, cut).disk.log)
  {
    hide Good, Told, LogPlan, Persist;
    if At(s, t).status == At(s, t).change.to {
      LogTells(codec, s, Moved(At(s, t).change), fuse, cut, c);
    }
  }

  lemma TurnTells(codec: Codec, s: State, x: Turn, c: Change)
    requires codec.Valid() && Good(codec, s) && c !in Told(codec, s.disk.log)
    requires !Writing(s, c) && forall t: nat :: !Carrying(s, t, c)
    ensures c !in Told(codec, Take(codec, s, x).disk.log)
  {
    hide Told, LogOk, LogPlan, Persist;
    match x {
      case Act(t, fuse, cut) =>
        if At(s, t).HasRecord? {
          RecoverTells(codec, s, t, fuse, cut, c);
        }
      case Log(t, fuse, cut) =>
        if At(s, t).HasReplaced? {
          assert ThreadOk(codec, s, t);
          LogTells(codec, s, Moved(At(s, t).change), fuse, cut, c);
        }
      case Note(kind, fuse, cut) => LogTells(codec, s, Noted(kind), fuse, cut, c);
      case _ =>
    }
  }

  lemma NobodyCarries(codec: Codec, s: State, x: Turn, c: Change)
    requires !Recorded(s, c) && forall t: nat :: !Carrying(s, t, c)
    ensures forall t: nat :: !Carrying(Take(codec, s, x), t, c)
  {
    hide LogPlan, Persist;
    var after := Take(codec, s, x);
    forall t: nat ensures !Carrying(after, t, c) {
      assert !Carrying(s, t, c);
    }
  }

  /** A lost change stays lost. */
  lemma LostStays(codec: Codec, s: State, x: Turn, c: Change)
    requires codec.Valid() && Good(codec, s) && Lost(codec, s, c)
    ensures Lost(codec, Take(codec, s, x), c)
  {
    assert !Recorded(s, c);
    assert !Writing(s, c) by {
      if s.lock.Some? {
        assert ThreadOk(codec, s, s.lock.value);
      }
    }
    hide Take, Good, Told;
    HistoryGrows(codec, s, x);
    TurnTells(codec, s, x, c);
    NobodyCarries(codec, s, x, c);
  }

  lemma {:induction false} LostForGood(codec: Codec, s: State, more: seq<Turn>, c: Change)
    requires codec.Valid() && Good(codec, s) && Lost(codec, s, c)
    ensures Good(codec, TakeAll(codec, s, more)) && Lost(codec, TakeAll(codec, s, more), c)
    decreases |more|
  {
    if more != [] {
      LostForGood(codec, s, more[..|more| - 1], c);
      TurnKeeps(codec, TakeAll(codec, s, more[..|more| - 1]), more[|more| - 1]);
      LostStays(codec, TakeAll(codec, s, more[..|more| - 1]), more[|more| - 1], c);
    }
  }

  lemma Then(codec: Codec, s: State, xs: seq<Turn>, x: Turn) returns (more: seq<Turn>)
    ensures more == xs + [x] && TakeAll(codec, s, more) == Take(codec, TakeAll(codec, s, xs), x)
  {
    more := xs + [x];
    assert more[..|more| - 1] == xs;
  }

  lemma ActTells(codec: Codec, s: State, t: nat, c: Change)
    requires codec.Valid() && Good(codec, s) && (forall e :: codec.eventOk(e))
    requires c in s.committed && c.from != c.to && Carrying(s, t, c)
    ensures c in Told(codec, Take(codec, s, Act(t, 2, 0)).disk.log)
  {
    LogSucceeds(codec, s, c);
    hide LogPlan, Persist, Told, Good, EndsWell;
    LogAsKeeps(codec, s, Moved(c), 2, 0);
  }

  lemma WriterCommits(codec: Codec, s: State, c: Change)
    requires Good(codec, s) && Writing(s, c)
    ensures c in s.committed
  {
    assert ThreadOk(codec, s, s.lock.value);
  }

  lemma WriterTells(codec: Codec, s: State, c: Change)
    requires codec.Valid() && Good(codec, s) && (forall e :: codec.eventOk(e)) && Writing(s, c)
    ensures c in Told(codec, Take(codec, s, Log(s.lock.value, 2, 0)).disk.log)
  {
    hide LogPlan, Persist, Told, Good, EndsWell, LogOk;
    WriterCommits(codec, s, c);
    GoodLog(codec, s);
    LogSucceeds(codec, s, c);
    LogAsKeeps(codec, s, Moved(c), 2, 0);
    assert Take(codec, s, Log(s.lock.value, 2, 0)) == Report(codec, s, s.lock.value, c, 2, 0);
  }

  lemma GoodLog(codec: Codec, s: State)
    requires Good(codec, s)
    ensures LogOk(codec, s.disk.log)
  {
  }

  /** A recorded change can be reported by a reader that starts now. */
  lemma ReaderTells(codec: Codec, s: State, c: Change) returns (more: seq<Turn>)
    requires codec.Valid() && Good(codec, s) && (forall e :: codec.eventOk(e))
    requires c in s.committed && c.from != c.to && Recorded(s, c)
    ensures c in Told(codec, TakeAll(codec, s, more).disk.log)
  {
    assert c.id in Ids(s.committed);
    assert StatusIn(s) == c.to;
    var s1 := Take(codec, s, Die(0));
    var s2 := Take(codec, s1, Start(0));
    var s3 := Take(codec, s2, Look(0));
    assert s3.disk == s.disk && s3.committed == s.committed && Carrying(s3, 0, c);
    TurnKeeps(codec, s, Die(0));
    TurnKeeps(codec, s1, Start(0));
    TurnKeeps(codec, s2, Look(0));
    ActTells(codec, s3, 0, c);
    assert TakeAll(codec, s, []) == s;
    hide Take;
    more := Then(codec, s, [], Die(0));
    more := Then(codec, s, more, Start(0));
    more := Then(codec, s, more, Look(0));
    more := Then(codec, s, more, Act(0, 2, 0));
  }

  /** A committed change of status that has no event never gets one, whatever happens from here, exactly when it is
      lost: a process without the lock removed its record, its writer stopped before the event, and no reader still
      carries it. */
  lemma LossIsExact(codec: Codec, s: State, c: Change)
    requires codec.Valid() && Good(codec, s) && (forall e :: codec.eventOk(e))
    requires c in s.committed && c.from != c.to && c !in Told(codec, s.disk.log)
    ensures (forall more :: c !in Told(codec, TakeAll(codec, s, more).disk.log)) <==> Lost(codec, s, c)
  {
    if Lost(codec, s, c) {
      forall more ensures c !in Told(codec, TakeAll(codec, s, more).disk.log) {
        LostForGood(codec, s, more, c);
      }
    } else {
      var more := CanStillTell(codec, s, c);
      assert c in Told(codec, TakeAll(codec, s, more).disk.log);
    }
  }

  lemma CanStillTell(codec: Codec, s: State, c: Change) returns (more: seq<Turn>)
    requires codec.Valid() && Good(codec, s) && (forall e :: codec.eventOk(e))
    requires c in s.committed && c.from != c.to && c !in Told(codec, s.disk.log) && !Lost(codec, s, c)
    ensures c in Told(codec, TakeAll(codec, s, more).disk.log)
  {
    assert ChangeOk(codec, s, c);
    if t: nat :| Carrying(s, t, c) {
      ActTells(codec, s, t, c);
      more := Then(codec, s, [], Act(t, 2, 0));
    } else if Writing(s, c) {
      WriterTells(codec, s, c);
      more := Then(codec, s, [], Log(s.lock.value, 2, 0));
    } else {
      more := ReaderTells(codec, s, c);
    }
  }

  // ---- the schedules that lose an event --------------------------------------------------------------

  /** A process without the lock removes this record. */
  ghost predicate Steals(s: State, x: Turn, id: string)
  {
    && s.disk.pending.Some? && s.disk.pending.value.id == id
    && match x
       case Act(t, _, _) => s.lock != Some(t) && At(s, t).HasRecord? && At(s, t).status == At(s, t).change.from
       case Forget(t) => s.lock != Some(t) && (At(s, t).HasReported? || At(s, t).HasLogged?)
       case _ => false
  }

  /** The writer of this change stops between the manifest and the event. */
  ghost predicate Deserts(codec: Codec, s: State, x: Turn, id: string)
  {
    match x
    case Die(t) => At(s, t).HasReplaced? && At(s, t).change.id == id
    case Log(t, fuse, _) =>
      At(s, t).HasReplaced? && At(s, t).change.id == id && !EndsWell(codec, s, Moved(At(s, t).change), fuse)
    case _ => false
  }

  lemma TurnRecords(codec: Codec, s: State, x: Turn, id: string)
    ensures id in Take(codec, s, x).stolen <==> id in s.stolen || Steals(s, x, id)
    ensures id in Take(codec, s, x).deserted <==> id in s.deserted || Deserts(codec, s, x, id)
  {
    hide LogPlan, Persist, EndsWell;
  }

  ghost predicate StolenAt(codec: Codec, first: Manifest, xs: seq<Turn>, i: nat, id: string)
  {
    i < |xs| && Steals(TakeAll(codec, Begin(first), xs[..i]), xs[i], id)
  }

  ghost predicate DesertedAt(codec: Codec, first: Manifest, xs: seq<Turn>, i: nat, id: string)
  {
    i < |xs| && Deserts(codec, TakeAll(codec, Begin(first), xs[..i]), xs[i], id)
  }

  lemma {:induction false} HistoryIsTrue(codec: Codec, first: Manifest, xs: seq<Turn>, id: string)
    ensures id in TakeAll(codec, Begin(first), xs).stolen <==> exists i :: StolenAt(codec, first, xs, i, id)
    ensures id in TakeAll(codec, Begin(first), xs).deserted <==> exists i :: DesertedAt(codec, first, xs, i, id)
    decreases |xs|
  {
    if xs != [] {
      hide Take, Steals, Deserts;
      var n := |xs| - 1;
      HistoryIsTrue(codec, first, xs[..n], id);
      TurnRecords(codec, TakeAll(codec, Begin(first), xs[..n]), xs[n], id);
      forall i: nat | i < n
        ensures StolenAt(codec, first, xs[..n], i, id) <==> StolenAt(codec, first, xs, i, id)
        ensures DesertedAt(codec, first, xs[..n], i, id) <==> DesertedAt(codec, first, xs, i, id)
      {
        assert xs[..n][..i] == xs[..i];
      }
      assert StolenAt(codec, first, xs, n, id) <==> Steals(TakeAll(codec, Begin(first), xs[..n]), xs[n], id);
      assert DesertedAt(codec, first, xs, n, id) <==> Deserts(codec, TakeAll(codec, Begin(first), xs[..n]), xs[n], id);
    }
  }

  /** Exactly when a committed change of status ends without an event: after any schedule, it is unreported and stays
      so whatever follows if and only if a process without the manifest lock removed its record, its writer lost power
      between the manifest and the event, and no reader that has read the record is left to report it. */
  lemma EventIsLostExactly(codec: Codec, first: Manifest, xs: seq<Turn>, c: Change)
    requires codec.Valid() && forall e :: codec.eventOk(e)
    requires var s := TakeAll(codec, Begin(first), xs);
             c in s.committed && c.from != c.to && c !in Told(codec, s.disk.log)
    ensures var s := TakeAll(codec, Begin(first), xs);
            (forall more :: c !in Told(codec, TakeAll(codec, s, more).disk.log))
            <==> && (exists i :: StolenAt(codec, first, xs, i, c.id))
                 && (exists i :: DesertedAt(codec, first, xs, i, c.id))
                 && (forall t: nat :: !Carrying(s, t, c))
  {
    EveryInterleavingHolds(codec, first, xs);
    HistoryIsTrue(codec, first, xs, c.id);
    LossIsExact(codec, TakeAll(codec, Begin(first), xs), c);
  }

  /** Without readers nothing is stolen, so no event of a committed move is ever lost. */
  lemma NoReaderNoLoss(codec: Codec, first: Manifest, xs: seq<Turn>, c: Change)
    requires codec.Valid() && forall e :: codec.eventOk(e)
    requires forall i :: 0 <= i < |xs| ==> !Steals(TakeAll(codec, Begin(first), xs[..i]), xs[i], c.id)
    requires c in TakeAll(codec, Begin(first), xs).committed && c.from != c.to
    ensures exists more :: c in Told(codec, TakeAll(codec, TakeAll(codec, Begin(first), xs), more).disk.log)
  {
    var s := TakeAll(codec, Begin(first), xs);
    if c in Told(codec, s.disk.log) {
      assert TakeAll(codec, s, []) == s;
    } else {
      EventIsLostExactly(codec, first, xs, c);
    }
  }

  /** It happens: a reader reads the manifest, the writer records its change, the reader reads the record, the writer
      replaces the manifest, the reader takes the change for one that never started, and the writer loses power. */
  lemma ReaderMayLoseAChange(codec: Codec, first: Manifest, c: Change, next: Manifest) returns (xs: seq<Turn>)
    requires codec.Valid() && New(Begin(first), c) && c.from != c.to && next.status == c.to
    ensures Lost(codec, TakeAll(codec, Begin(first), xs), c)
    ensures TakeAll(codec, Begin(first), xs).committed == [c] && TakeAll(codec, Begin(first), xs).disk.log == ""
  {
    var s := Begin(first);
    xs := Journaling(codec, first, c);
    var s1 := TakeAll(codec, s, xs);
    NothingTold(codec);
    hide TakeAll, Told;
    xs := Then(codec, s, xs, Look(1));
    xs := Then(codec, s, xs, Replace(0, next));
    xs := Then(codec, s, xs, Act(1, 0, 0));
    xs := Then(codec, s, xs, Die(0));
  }

  lemma Loading(codec: Codec, first: Manifest) returns (xs: seq<Turn>)
    ensures TakeAll(codec, Begin(first), xs) == Begin(first).(lock := Some(0), threads := map[0 := HasLoaded])
  {
    var s := Begin(first);
    assert TakeAll(codec, s, []) == s;
    hide TakeAll;
    xs := Then(codec, s, [], Lock(0));
    xs := Then(codec, s, xs, Start(0));
    xs := Then(codec, s, xs, Look(0));
  }

  lemma Journaling(codec: Codec, first: Manifest, c: Change) returns (xs: seq<Turn>)
    requires New(Begin(first), c)
    ensures TakeAll(codec, Begin(first), xs) ==
            Begin(first).(disk := Begin(first).disk.(pending := Some(c)), used := {c.id}, lock := Some(0),
                          threads := map[0 := HasJournaled(c), 1 := HasManifest(first.status)])
  {
    hide TakeAll;
    xs := Loading(codec, first);
    xs := Then(codec, Begin(first), xs, Start(1));
    xs := Then(codec, Begin(first), xs, Journal(0, c));
  }
}
