/** The run store's status journal: a write-ahead record, the manifest, and the event that reports the change. */
module StoreJournal {
  import opened Base
  import opened StoreModel
  import opened RunLog

  /** The durable files of one run. */
  datatype Disk = Disk(manifest: Option<Manifest>, log: string, pending: Option<Change>, cancel: bool)

  datatype Write =
    | PutCancel
    | PutPending(change: Change)
    | Commit(next: Manifest)
    | Resave(same: Manifest)
    | Append(event: Event)
    | Repair(text: string)
    | DropPending

  function Apply(codec: Codec, d: Disk, w: Write): Disk
  {
    match w
    case PutCancel => d.(cancel := true)
    case PutPending(c) => d.(pending := Some(c))
    case Commit(m) => d.(manifest := Some(m))
    case Resave(m) => d.(manifest := Some(m))
    case Append(e) => d.(log := d.log + LineOf(codec, e))
    case Repair(t) => d.(log := t)
    case DropPending => d.(pending := None)
  }

  /** Replacements are atomic; an interrupted append may leave any proper piece of its line. */
  function Tear(codec: Codec, d: Disk, w: Write, cut: nat): Disk
  {
    if w.Append? && cut <= |codec.encode(w.event)| then d.(log := d.log + LineOf(codec, w.event)[..cut]) else d
  }

  function ApplyAll(codec: Codec, d: Disk, ws: seq<Write>): Disk
    decreases |ws|
  {
    if ws == [] then d else ApplyAll(codec, Apply(codec, d, ws[0]), ws[1..])
  }

  /** The writes in order, until the fuse of completed writes burns out. */
  function Persist(codec: Codec, d: Disk, ws: seq<Write>, fuse: nat, cut: nat): Disk
    decreases |ws|
  {
    if ws == [] then d
    else if fuse == 0 then Tear(codec, d, ws[0], cut)
    else Persist(codec, Apply(codec, d, ws[0]), ws[1..], fuse - 1, cut)
  }

  // ---- what each operation writes and answers --------------------------------------

  datatype Plan<+T> = Plan(writes: seq<Write>, result: Result<T>)

  predicate Logged(es: seq<Event>, id: string)
  {
    exists i :: 0 <= i < |es| && es[i].body.Moved? && es[i].body.change.id == id
  }

  function RepairPlan(codec: Codec, log: string): Plan<seq<Event>>
  {
    var reading := ReadLog(codec, log);
    Plan(if reading.text == log then [] else [Repair(reading.text)], reading.events)
  }

  function NextEvent(es: seq<Event>, body: Body): Event
  {
    Event(if es == [] then 1 else es[|es| - 1].sequence + 1, body)
  }

  /** Append an event; a transition already in the log is not appended again. */
  function LogPlan(codec: Codec, log: string, body: Body): Plan<bool>
  {
    var read := RepairPlan(codec, log);
    match read.result
    case Err => Plan(read.writes, Err)
    case Ok(es) =>
      if body.Moved? && Logged(es, body.change.id) then Plan(read.writes, Ok(false))
      else if !codec.eventOk(NextEvent(es, body)) then Plan(read.writes, Err)
      else Plan(read.writes + [Append(NextEvent(es, body))], Ok(true))
  }

  /** Report a change and, once reported, forget its record. */
  function ReportPlan(codec: Codec, log: string, c: Change): Plan<bool>
  {
    var logged := LogPlan(codec, log, Moved(c));
    Plan(logged.writes + (if logged.result.Ok? then [DropPending] else []), logged.result)
  }

  function RecoverPlan(codec: Codec, d: Disk, m: Manifest): Plan<bool>
  {
    match d.pending
    case None => Plan([], Ok(false))
    case Some(c) =>
      if m.status == c.from then Plan([DropPending], Ok(false))
      else if m.status != c.to then Plan([], Err)
      else ReportPlan(codec, d.log, c)
  }

  function LoadPlan(codec: Codec, d: Disk): Plan<Manifest>
  {
    match d.manifest
    case None => Plan([], Err)
    case Some(m) =>
      var recover := RecoverPlan(codec, d, m);
      Plan(recover.writes, if recover.result.Ok? then Ok(m) else Err)
  }

  datatype Request = Request(status: Status, phase: Option<string>, detail: string, id: string, timestamp: string)

  /** A pending cancellation turns every request but a cancelling one into Cancelled. */
  function Effective(cancel: bool, current: Status, requested: Status): Status
  {
    if (cancel || requested.Cancelling? || current.Cancelling?) && !requested.Cancelling? && !requested.Cancelled?
    then Cancelled else requested
  }

  function NextManifest(current: Manifest, caller: Manifest, effective: Status, phase: Option<string>): Manifest
  {
    var base := if effective.Cancelling? || effective.Cancelled? then current else caller;
    base.(status := effective, phase := phase, cancelled := base.cancelled || effective.Cancelled?)
  }

  /** Journal the change, replace the manifest, then report; a failed report keeps the record for recovery. */
  function ReplacePlan(codec: Codec, log: string, c: Change, next: Manifest): Plan<Status>
  {
    if !codec.manifestOk(next) then Plan([PutPending(c)], Err)
    else Plan([PutPending(c), Commit(next)] + ReportPlan(codec, log, c).writes, Ok(next.status))
  }

  function ChangePlan(codec: Codec, d: Disk, current: Manifest, caller: Manifest, r: Request): Plan<Status>
  {
    if Terminal(current.status) then Plan([], Ok(current.status))
    else
      var flag := if r.status.Cancelling? then [PutCancel] else [];
      var to := Effective(d.cancel, current.status, r.status);
      var next := NextManifest(current, caller, to, r.phase);
      var c := Change(r.id, r.timestamp, current.status, to, r.status, r.phase, r.detail);
      if !TransitionAllowed(current.status, to) then Plan(flag, Err)
      else
        var replace := ReplacePlan(codec, d.log, c, next);
        Plan(flag + replace.writes, replace.result)
  }

  function TransitionPlan(codec: Codec, d: Disk, caller: Manifest, r: Request): Plan<Status>
  {
    if d.manifest.None? then ChangePlan(codec, d, caller, caller, r)
    else
      var load := LoadPlan(codec, d);
      if load.result.Err? then Plan(load.writes, Err)
      else
        var change := ThenChange(codec, d, load, caller, r);
        Plan(load.writes + change.writes, change.result)
  }

  function ThenChange(codec: Codec, d: Disk, load: Plan<Manifest>, caller: Manifest, r: Request): Plan<Status>
    requires load.result.Ok?
  {
    ChangePlan(codec, ApplyAll(codec, d, load.writes), load.result.value, caller, r)
  }

  /** Saving in place yields to a finished, cancelling or cancelled run. */
  function SavePlan(codec: Codec, d: Disk, m: Manifest): Plan<bool>
  {
    if d.manifest.Some? && (Terminal(d.manifest.value.status) || d.manifest.value.status.Cancelling? || d.cancel) then
      Plan([], Ok(false))
    else if !codec.manifestOk(m) then Plan([], Err)
    else Plan([Resave(m)], Ok(true))
  }

  // ---- the code ----------------------------------------------------------------------

  datatype Outcome<+T> = Crashed | Finished(result: Result<T>)

  function Ended<T>(fuse: nat, plan: Plan<T>): Outcome<T>
  {
    if fuse < |plan.writes| then Crashed else Finished(plan.result)
  }

  function Burn(fuse: nat, ws: seq<Write>): nat
  {
    if fuse < |ws| then 0 else fuse - |ws|
  }

  lemma {:induction false} PersistSplit(codec: Codec, d: Disk, a: seq<Write>, b: seq<Write>, fuse: nat, cut: nat)
    ensures Persist(codec, d, a + b, fuse, cut) ==
            if fuse < |a| then Persist(codec, d, a, fuse, cut)
            else Persist(codec, ApplyAll(codec, d, a), b, fuse - |a|, cut)
    decreases |a|
  {
    if a == [] {
      assert a + b == b;
    } else if fuse > 0 {
      assert (a + b)[1..] == a[1..] + b;
      PersistSplit(codec, Apply(codec, d, a[0]), a[1..], b, fuse - 1, cut);
    }
  }

  lemma {:induction false} PersistWhole(codec: Codec, d: Disk, ws: seq<Write>, fuse: nat, cut: nat)
    requires |ws| <= fuse
    ensures Persist(codec, d, ws, fuse, cut) == ApplyAll(codec, d, ws)
    decreases |ws|
  {
    if ws != [] {
      PersistWhole(codec, Apply(codec, d, ws[0]), ws[1..], fuse - 1, cut);
    }
  }

  class RunStore {
    const codec: Codec
    var manifest: Option<Manifest>
    var log: string
    var pending: Option<Change>
    var cancel: bool
    /** Durable writes left before power is lost. */
    var fuse: nat

    ghost function Files(): Disk
      reads this
    {
      Disk(manifest, log, pending, cancel)
    }

    constructor (codec: Codec, d: Disk, fuse: nat)
      ensures this.codec == codec && Files() == d && this.fuse == fuse
    {
      this.codec, this.fuse := codec, fuse;
      manifest, log, pending, cancel := d.manifest, d.log, d.pending, d.cancel;
    }

    /** One durable write, or the loss of power while it was under way. */
    method Durable(w: Write, cut: nat) returns (alive: bool)
      modifies this
      ensures alive <==> old(fuse) > 0
      ensures fuse == Burn(old(fuse), [w])
      ensures Files() == if alive then Apply(codec, old(Files()), w) else Tear(codec, old(Files()), w, cut)
    {
      if fuse == 0 {
        if w.Append? && cut <= |codec.encode(w.event)| {
          log := log + LineOf(codec, w.event)[..cut];
        }
        return false;
      }
      fuse := fuse - 1;
      match w {
        case PutCancel => cancel := true;
        case PutPending(c) => pending := Some(c);
        case Commit(m) => manifest := Some(m);
        case Resave(m) => manifest := Some(m);
        case Append(e) => log := log + LineOf(codec, e);
        case Repair(t) => log := t;
        case DropPending => pending := None;
      }
      return true;
    }

    method ReadEvents(cut: nat) returns (r: Outcome<seq<Event>>)
      modifies this
      ensures var plan := RepairPlan(codec, old(log));
              && Files() == Persist(codec, old(Files()), plan.writes, old(fuse), cut)
              && fuse == Burn(old(fuse), plan.writes) && r == Ended(old(fuse), plan)
    {
      var end := CompleteEnd(log);
      var complete := DecodeComplete(codec, log[..end]);
      if complete.Err? {
        return Finished(Err);
      }
      var events := complete.value;
      var tail := log[end..];
      if tail != "" {
        var event := codec.decode(tail);
        ghost var text := ReadLog(codec, log).text;
        assert text != log by {
          assert |text| != |log|;
        }
        var alive: bool;
        if event.Some? {
          events := events + [event.value];
          alive := Durable(Repair(log + "\n"), cut);
        } else {
          alive := Durable(Repair(log[..end]), cut);
        }
        if !alive {
          return Crashed;
        }
      }
      return Finished(Checked(events));
    }

    method EventAt(body: Body, cut: nat) returns (r: Outcome<bool>)
      modifies this
      ensures var plan := LogPlan(codec, old(log), body);
              && Files() == Persist(codec, old(Files()), plan.writes, old(fuse), cut)
              && fuse == Burn(old(fuse), plan.writes) && r == Ended(old(fuse), plan)
    {
      ghost var repair := RepairPlan(codec, log).writes;
      ghost var start, power := Files(), fuse;
      var existing := ReadEvents(cut);
      if existing.Crashed? {
        assert LogPlan(codec, old(log), body).writes[..|repair|] == repair;
        CrashInFirst(codec, start, repair, LogPlan(codec, old(log), body).writes[|repair|..], power, cut);
        return Crashed;
      }
      if existing.result.Err? {
        return Finished(Err);
      }
      var events := existing.result.value;
      if body.Moved? && Logged(events, body.change.id) {
        return Finished(Ok(false));
      }
      var event := NextEvent(events, body);
      if !codec.eventOk(event) {
        return Finished(Err);
      }
      Chain(codec, start, repair, [Append(event)], power, cut);
      var alive := Durable(Append(event), cut);
      return if alive then Finished(Ok(true)) else Crashed;
    }

    method Report(c: Change, cut: nat) returns (r: Outcome<bool>)
      modifies this
      ensures var plan := ReportPlan(codec, old(log), c);
              && Files() == Persist(codec, old(Files()), plan.writes, old(fuse), cut)
              && fuse == Burn(old(fuse), plan.writes) && r == Ended(old(fuse), plan)
    {
      ghost var event := LogPlan(codec, log, Moved(c)).writes;
      ghost var start, power := Files(), fuse;
      r := EventAt(Moved(c), cut);
      if r.Crashed? {
        CrashInFirst(codec, start, event, [DropPending], power, cut);
        assert event + [] == event;
        return;
      }
      if r.result.Err? {
        assert event + [] == event;
        return;
      }
      Chain(codec, start, event, [DropPending], power, cut);
      var alive := Durable(DropPending, cut);
      r := if alive then r else Crashed;
    }

    method RecoverPendingTransition(m: Manifest, cut: nat) returns (r: Outcome<bool>)
      modifies this
      ensures var plan := RecoverPlan(codec, old(Files()), m);
              && Files() == Persist(codec, old(Files()), plan.writes, old(fuse), cut)
              && fuse == Burn(old(fuse), plan.writes) && r == Ended(old(fuse), plan)
    {
      if pending.None? {
        return Finished(Ok(false));
      }
      var change := pending.value;
      if m.status == change.from {
        var alive := Durable(DropPending, cut);
        return if alive then Finished(Ok(false)) else Crashed;
      }
      if m.status != change.to {
        return Finished(Err);
      }
      r := Report(change, cut);
    }

    method LoadManifest(cut: nat) returns (r: Outcome<Manifest>)
      modifies this
      ensures var plan := LoadPlan(codec, old(Files()));
              && Files() == Persist(codec, old(Files()), plan.writes, old(fuse), cut)
              && fuse == Burn(old(fuse), plan.writes) && r == Ended(old(fuse), plan)
    {
      if manifest.None? {
        return Finished(Err);
      }
      var m := manifest.value;
      var recovered := RecoverPendingTransition(m, cut);
      match recovered {
        case Crashed => return Crashed;
        case Finished(result) => return Finished(if result.Ok? then Ok(m) else Err);
      }
    }

    /** The part of a transition that follows loading: flag, record, manifest, event. */
    method ChangeStatus(current: Manifest, caller: Manifest, request: Request, cut: nat) returns (r: Outcome<Status>)
      modifies this
      ensures var plan := ChangePlan(codec, old(Files()), current, caller, request);
              && Files() == Persist(codec, old(Files()), plan.writes, old(fuse), cut)
              && fuse == Burn(old(fuse), plan.writes) && r == Ended(old(fuse), plan)
    {
      if Terminal(current.status) {
        return Finished(Ok(current.status));
      }
      ghost var plan := ChangePlan(codec, Files(), current, caller, request);
      ghost var start, power := Files(), fuse;
      ghost var done: seq<Write> := [];
      var alive := true;
      if request.status.Cancelling? {
        alive := Durable(PutCancel, cut);
        done := [PutCancel];
        if !alive {
          assert plan.writes[0] == PutCancel;
          return Crashed;
        }
      }
      assert Files() == Persist(codec, start, done, power, cut);
      var to := Effective(cancel, current.status, request.status);
      if !TransitionAllowed(current.status, to) {
        return Finished(Err);
      }
      var next := NextManifest(current, caller, to, request.phase);
      var change := Change(request.id, request.timestamp, current.status, to, request.status,
                                      request.phase, request.detail);
      ghost var replace := ReplacePlan(codec, start.log, change, next);
      assert to == Effective(start.cancel, current.status, request.status);
      assert plan == Plan(done + replace.writes, replace.result);
      Chain(codec, start, done, replace.writes, power, cut);
      r := Replace(change, next, cut);
    }

    method Replace(change: Change, next: Manifest, cut: nat) returns (r: Outcome<Status>)
      modifies this
      ensures var plan := ReplacePlan(codec, old(log), change, next);
              && Files() == Persist(codec, old(Files()), plan.writes, old(fuse), cut)
              && fuse == Burn(old(fuse), plan.writes) && r == Ended(old(fuse), plan)
    {
      ghost var start, power := Files(), fuse;
      var alive := Durable(PutPending(change), cut);
      if !alive {
        return Crashed;
      }
      if !codec.manifestOk(next) {
        return Finished(Err);
      }
      alive := Durable(Commit(next), cut);
      if !alive {
        return Crashed;
      }
      ghost var two := [PutPending(change), Commit(next)];
      ApplyPair(codec, start, PutPending(change), Commit(next));
      Chain(codec, start, two, ReportPlan(codec, start.log, change).writes, power, cut);
      var reported := Report(change, cut);
      return if reported.Crashed? then Crashed else Finished(Ok(next.status));
    }

    method Transition(caller: Manifest, request: Request, cut: nat) returns (r: Outcome<Status>)
      modifies this
      ensures var plan := TransitionPlan(codec, old(Files()), caller, request);
              && Files() == Persist(codec, old(Files()), plan.writes, old(fuse), cut)
              && fuse == Burn(old(fuse), plan.writes) && r == Ended(old(fuse), plan)
    {
      if manifest.None? {
        r := ChangeStatus(caller, caller, request, cut);
        return;
      }
      ghost var start, power := Files(), fuse;
      ghost var load := LoadPlan(codec, Files());
      var loaded := LoadManifest(cut);
      if loaded.Crashed? {
        if load.result.Ok? {
          CrashInFirst(codec, start, load.writes, ThenChange(codec, start, load, caller, request).writes, power, cut);
        }
        return Crashed;
      }
      if loaded.result.Err? {
        return Finished(Err);
      }
      ghost var rest := ThenChange(codec, start, load, caller, request);
      Chain(codec, start, load.writes, rest.writes, power, cut);
      r := ChangeStatus(loaded.result.value, caller, request, cut);
    }

    method SaveManifest(m: Manifest, cut: nat) returns (r: Outcome<bool>)
      modifies this
      ensures var plan := SavePlan(codec, old(Files()), m);
              && Files() == Persist(codec, old(Files()), plan.writes, old(fuse), cut)
              && fuse == Burn(old(fuse), plan.writes) && r == Ended(old(fuse), plan)
    {
      if manifest.Some? {
        var current := manifest.value;
        if Terminal(current.status) || current.status.Cancelling? || cancel {
          return Finished(Ok(false));
        }
      }
      if !codec.manifestOk(m) {
        return Finished(Err);
      }
      var alive := Durable(Resave(m), cut);
      return if alive then Finished(Ok(true)) else Crashed;
    }
  }

  lemma ApplyPair(codec: Codec, d: Disk, a: Write, b: Write)
    ensures ApplyAll(codec, d, [a, b]) == Apply(codec, Apply(codec, d, a), b)
  {
    assert [a, b][1..] == [b];
    assert ApplyAll(codec, Apply(codec, d, a), [b]) == Apply(codec, Apply(codec, d, a), b);
  }

  lemma CrashInFirst(codec: Codec, d: Disk, a: seq<Write>, b: seq<Write>, fuse: nat, cut: nat)
    requires fuse < |a|
    ensures Persist(codec, d, a + b, fuse, cut) == Persist(codec, d, a, fuse, cut)
  {
    PersistSplit(codec, d, a, b, fuse, cut);
  }

  lemma Chain(codec: Codec, d: Disk, a: seq<Write>, b: seq<Write>, fuse: nat, cut: nat)
    requires |a| <= fuse
    ensures Persist(codec, d, a, fuse, cut) == ApplyAll(codec, d, a)
    ensures Persist(codec, d, a + b, fuse, cut) == Persist(codec, ApplyAll(codec, d, a), b, fuse - |a|, cut)
  {
    PersistSplit(codec, d, a, b, fuse, cut);
    PersistWhole(codec, d, a, fuse, cut);
  }
}
