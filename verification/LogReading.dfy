/** What the event log's reader makes of any text, line by line, and what a load makes of any files. */
module LogReading {
  import opened Base
  import opened StoreModel
  import opened RunLog
  import opened StoreJournal

  /** Lines, each ended by its line feed. */
  function Joined(ls: seq<string>): string
  {
    if ls == [] then "" else Joined(ls[..|ls| - 1]) + ls[|ls| - 1] + "\n"
  }

  /** Every line is blank or parses as an event. */
  predicate Parse(codec: Codec, ls: seq<string>)
  {
    forall i :: 0 <= i < |ls| ==> ls[i] == "" || codec.decode(ls[i]).Some?
  }

  /** The events of the lines that are not blank, in order. */
  function Parsed(codec: Codec, ls: seq<string>): seq<Event>
    requires Parse(codec, ls)
  {
    if ls == [] then []
    else
      var line := ls[|ls| - 1];
      Parsed(codec, ls[..|ls| - 1]) + (if line == "" then [] else [codec.decode(line).value])
  }

  predicate NoLineFeeds(ls: seq<string>)
  {
    forall i :: 0 <= i < |ls| ==> '\n' !in ls[i]
  }

  lemma JoinedEnds(ls: seq<string>)
    ensures Joined(ls) == "" || Joined(ls)[|Joined(ls)| - 1] == '\n'
  {
  }

  lemma OneLine(codec: Codec, es: seq<Event>, line: string)
    requires '\n' !in line
    ensures DecodeLines(codec, es, line + "\n") == DecodeLine(codec, es, line)
  {
    FirstLineOf(line);
    assert (line + "\n")[..|line|] == line;
    assert AfterLine(line + "\n") == "";
  }

  lemma LastJoined(ls: seq<string>)
    requires ls != []
    ensures Joined(ls) == Joined(ls[..|ls| - 1]) + (ls[|ls| - 1] + "\n")
  {
    Regrouped(Joined(ls[..|ls| - 1]), ls[|ls| - 1]);
  }

  lemma Regrouped(lines: string, line: string)
    ensures lines + line + "\n" == lines + (line + "\n")
  {
  }

  lemma ParseMore(codec: Codec, ls: seq<string>)
    requires ls != []
    ensures var before, line := ls[..|ls| - 1], ls[|ls| - 1];
            && (Parse(codec, ls) <==> Parse(codec, before) && (line == "" || codec.decode(line).Some?))
            && (Parse(codec, ls) ==>
                  Parsed(codec, ls) == Parsed(codec, before) + (if line == "" then [] else [codec.decode(line).value]))
  {
    assert Parse(codec, ls) ==> Parse(codec, ls[..|ls| - 1]);
  }

  /** The complete lines decode exactly when each is blank or parses, and then to their events. */
  lemma {:induction false} LinesDecode(codec: Codec, ls: seq<string>)
    requires NoLineFeeds(ls)
    ensures DecodeLines(codec, [], Joined(ls)) == if Parse(codec, ls) then Ok(Parsed(codec, ls)) else Err
    decreases |ls|
  {
    if ls != [] {
      var before, line := ls[..|ls| - 1], ls[|ls| - 1];
      assert NoLineFeeds(before) && '\n' !in line;
      hide DecodeLines, Joined, Parse, Parsed, NoLineFeeds;
      LinesDecode(codec, before);
      JoinedEnds(before);
      LastJoined(ls);
      ParseMore(codec, ls);
      DecodeAppend(codec, [], Joined(before), line + "\n");
      if Parse(codec, before) {
        OneLine(codec, Parsed(codec, before), line);
        assert Parsed(codec, before) + [] == Parsed(codec, before);
      }
    }
  }

  predicate InSequence(es: seq<Event>)
  {
    forall i :: 0 <= i < |es| ==> es[i].sequence == i + 1
  }

  /** Any text is complete lines and a tail: the log is refused exactly when a complete line that is not blank does not
      parse, or the events are not numbered from 1; a tail that parses is the last event, and its line feed is supplied;
      a tail that does not is cut off. */
  lemma ReadingIsDecided(codec: Codec, ls: seq<string>, tail: string)
    requires NoLineFeeds(ls) && '\n' !in tail
    ensures var t := Joined(ls) + tail;
            if !Parse(codec, ls) then ReadLog(codec, t) == Reading(Err, t)
            else
              var whole := tail != "" && codec.decode(tail).Some?;
              var es := Parsed(codec, ls) + (if whole then [codec.decode(tail).value] else []);
              && ReadLog(codec, t).events == (if InSequence(es) then Ok(es) else Err)
              && ReadLog(codec, t).text == (if whole then t + "\n" else Joined(ls))
  {
    JoinedEnds(ls);
    CompleteEndOf(Joined(ls), tail);
    PartsRead(codec, Joined(ls), tail);
    LinesDecode(codec, ls);
    hide DecodeLines, Joined, Parse, Parsed, CompleteEnd, ReadLog;
    if Parse(codec, ls) {
      assert Parsed(codec, ls) + [] == Parsed(codec, ls);
    }
  }

  lemma PartsRead(codec: Codec, lines: string, tail: string)
    requires CompleteEnd(lines + tail) == |lines|
    ensures ReadLog(codec, lines + tail) ==
            match DecodeLines(codec, [], lines)
            case Err => Reading(Err, lines + tail)
            case Ok(es) =>
              if tail != "" && codec.decode(tail).Some? then
                Reading(Checked(es + [codec.decode(tail).value]), lines + tail + "\n")
              else Reading(Checked(es), lines)
  {
    var t := lines + tail;
    assert t[..|lines|] == lines && t[|lines|..] == tail;
    assert tail == "" ==> t == lines;
    hide DecodeLines, CompleteEnd, Checked;
  }

  /** Every text is of that form, in one way. */
  lemma {:induction false} EveryTextSplits(t: string) returns (ls: seq<string>, tail: string)
    ensures NoLineFeeds(ls) && '\n' !in tail && t == Joined(ls) + tail
    decreases |t|
  {
    if t == "" {
      ls, tail := [], "";
    } else {
      var before := t[..|t| - 1];
      ls, tail := EveryTextSplits(before);
      assert t == before + [t[|t| - 1]];
      if t[|t| - 1] == '\n' {
        var more := ls + [tail];
        assert more[..|ls|] == ls;
        assert t == Joined(ls) + tail + "\n" == Joined(more) + "";
        ls, tail := more, "";
      } else {
        tail := tail + [t[|t| - 1]];
      }
    }
  }

  /** A load of any files, with full power. It fails without a manifest, on a record that neither starts nor ends at the
      manifest's status, on a log that does not read, and on an event that fails its schema; a record of a change that was
      not committed is dropped, and one of a change that was is reported once and dropped. */
  lemma LoadIsDecided(codec: Codec, d: Disk)
    ensures var plan := LoadPlan(codec, d);
            var after, log := ApplyAll(codec, d, plan.writes), ReadLog(codec, d.log);
            if d.manifest == None then plan.result == Err && after == d
            else
              var m := d.manifest.value;
              if d.pending == None then plan.result == Ok(m) && after == d
              else
                var c := d.pending.value;
                if m.status == c.from then plan.result == Ok(m) && after == d.(pending := None)
                else if m.status != c.to || log.events == Err then
                  plan.result == Err && after == d.(log := if m.status == c.to then log.text else d.log)
                else
                  var es := log.events.value;
                  var e := Event(if es == [] then 1 else es[|es| - 1].sequence + 1, Moved(c));
                  if exists i :: 0 <= i < |es| && es[i].body.Moved? && es[i].body.change.id == c.id then
                    plan.result == Ok(m) && after == d.(log := log.text, pending := None)
                  else if codec.eventOk(e) then
                    plan.result == Ok(m) && after == d.(log := log.text + (codec.encode(e) + "\n"), pending := None)
                  else plan.result == Err && after == d.(log := log.text)
  {
    if d.manifest.Some? && d.pending.Some? {
      var c := d.pending.value;
      if d.manifest.value.status == c.from {
        OneWrite(codec, d, DropPending);
      } else if d.manifest.value.status == c.to {
        ReportIsDecided(codec, d, c);
      }
    }
  }

  lemma OneWrite(codec: Codec, d: Disk, w: Write)
    ensures ApplyAll(codec, d, [w]) == Apply(codec, d, w)
  {
    assert [w][1..] == [];
  }

  lemma {:induction false} WritesInOrder(codec: Codec, d: Disk, a: seq<Write>, b: seq<Write>)
    ensures ApplyAll(codec, d, a + b) == ApplyAll(codec, ApplyAll(codec, d, a), b)
    decreases |a|
  {
    if a == [] {
      assert a + b == b;
    } else {
      assert (a + b)[1..] == a[1..] + b;
      WritesInOrder(codec, Apply(codec, d, a[0]), a[1..], b);
    }
  }

  lemma RepairLeaves(codec: Codec, d: Disk)
    ensures ApplyAll(codec, d, RepairPlan(codec, d.log).writes) == d.(log := ReadLog(codec, d.log).text)
  {
    OneWrite(codec, d, Repair(ReadLog(codec, d.log).text));
  }

  lemma ReportIsDecided(codec: Codec, d: Disk, c: Change)
    ensures var plan := ReportPlan(codec, d.log, c);
            var after, log := ApplyAll(codec, d, plan.writes), ReadLog(codec, d.log);
            if log.events == Err then plan.result == Err && after == d.(log := log.text)
            else
              var es := log.events.value;
              var e := NextEvent(es, Moved(c));
              if Logged(es, c.id) then plan.result == Ok(false) && after == d.(log := log.text, pending := None)
              else if codec.eventOk(e) then
                plan.result == Ok(true) && after == d.(log := log.text + LineOf(codec, e), pending := None)
              else plan.result == Err && after == d.(log := log.text)
  {
    var read := RepairPlan(codec, d.log);
    var mid := d.(log := ReadLog(codec, d.log).text);
    RepairLeaves(codec, d);
    hide ReadLog;
    if read.result.Err? {
      assert read.writes + [] == read.writes;
    } else {
      var e := NextEvent(read.result.value, Moved(c));
      if Logged(read.result.value, c.id) {
        WritesInOrder(codec, d, read.writes, [DropPending]);
        OneWrite(codec, mid, DropPending);
      } else if codec.eventOk(e) {
        assert read.writes + [Append(e)] + [DropPending] == read.writes + [Append(e), DropPending];
        WritesInOrder(codec, d, read.writes, [Append(e), DropPending]);
        ApplyPair(codec, mid, Append(e), DropPending);
      } else {
        assert read.writes + [] == read.writes;
      }
    }
  }

  /** What reading leaves is complete lines, and they read back the same. */
  lemma TextIsLines(codec: Codec, t: string) returns (ls: seq<string>)
    requires ReadLog(codec, t).events.Ok?
    ensures NoLineFeeds(ls) && Parse(codec, ls) && ReadLog(codec, t) == Reading(Ok(Parsed(codec, ls)), Joined(ls))
    ensures InSequence(Parsed(codec, ls))
  {
    var tail: string;
    ls, tail := EveryTextSplits(t);
    ReadingIsDecided(codec, ls, tail);
    hide ReadLog, Joined, Parsed, NoLineFeeds;
    if tail != "" && codec.decode(tail).Some? {
      OneLineMore(codec, ls, tail);
      ls := ls + [tail];
    } else {
      assert Parse(codec, ls);
      assert Parsed(codec, ls) + [] == Parsed(codec, ls);
    }
  }

  lemma OneLineMore(codec: Codec, ls: seq<string>, line: string)
    requires NoLineFeeds(ls) && '\n' !in line && Parse(codec, ls) && line != "" && codec.decode(line).Some?
    ensures NoLineFeeds(ls + [line]) && Parse(codec, ls + [line]) && Joined(ls + [line]) == Joined(ls) + line + "\n"
    ensures Parsed(codec, ls + [line]) == Parsed(codec, ls) + [codec.decode(line).value]
  {
    assert (ls + [line])[..|ls|] == ls;
    ParseMore(codec, ls + [line]);
  }

  lemma LinesRead(codec: Codec, ls: seq<string>)
    requires NoLineFeeds(ls) && Parse(codec, ls) && InSequence(Parsed(codec, ls))
    ensures ReadLog(codec, Joined(ls)) == Reading(Ok(Parsed(codec, ls)), Joined(ls))
  {
    ReadingIsDecided(codec, ls, "");
    assert Joined(ls) + "" == Joined(ls) && Parsed(codec, ls) + [] == Parsed(codec, ls);
    hide ReadLog, Joined, Parsed;
  }

  /** An event for any log that reads: a transition whose id is in the log already is not recorded again, an event that
      fails its schema is refused, and any other is the last one from then on, with the number after the last. A log that
      does not read refuses every event. Nothing but the log is touched, and what is cut off is cut off in any case. */
  lemma EventIsRecorded(codec: Codec, d: Disk, body: Body)
    requires codec.Valid()
    ensures var plan, log := LogPlan(codec, d.log, body), ReadLog(codec, d.log);
            var after := ApplyAll(codec, d, plan.writes);
            && after == d.(log := after.log)
            && if log.events == Err then plan.result == Err && after.log == log.text
               else
                 var es := log.events.value;
                 var e := Event(|es| + 1, body);
                 var known := body.Moved? &&
                              exists i :: 0 <= i < |es| && es[i].body.Moved? && es[i].body.change.id == body.change.id;
                 && plan.result == (if known then Ok(false) else if codec.eventOk(e) then Ok(true) else Err)
                 && ReadLog(codec, after.log) == Reading(Ok(if plan.result == Ok(true) then es + [e] else es), after.log)
  {
    EventWrites(codec, d, body);
    hide ReadLog, Codec.Valid, LogPlan, ApplyAll;
    if ReadLog(codec, d.log).events.Ok? {
      var ls := TextIsLines(codec, d.log);
      LinesRead(codec, ls);
      hide Joined, Parsed, Parse, NoLineFeeds;
      LineReads(codec, ls, NextEvent(Parsed(codec, ls), body));
      assert NextEvent(Parsed(codec, ls), body) == Event(|Parsed(codec, ls)| + 1, body);
    }
  }

  lemma EventWrites(codec: Codec, d: Disk, body: Body)
    ensures var plan, log := LogPlan(codec, d.log, body), ReadLog(codec, d.log);
            var after := ApplyAll(codec, d, plan.writes);
            if log.events == Err then plan.result == Err && after == d.(log := log.text)
            else
              var e := NextEvent(log.events.value, body);
              if body.Moved? && Logged(log.events.value, body.change.id) then
                plan.result == Ok(false) && after == d.(log := log.text)
              else if codec.eventOk(e) then plan.result == Ok(true) && after == d.(log := log.text + LineOf(codec, e))
              else plan.result == Err && after == d.(log := log.text)
  {
    RepairLeaves(codec, d);
    var repair := RepairPlan(codec, d.log).writes;
    var log := ReadLog(codec, d.log);
    hide ReadLog;
    if log.events.Ok? {
      var e := NextEvent(log.events.value, body);
      WritesInOrder(codec, d, repair, [Append(e)]);
      OneWrite(codec, d.(log := log.text), Append(e));
    }
  }

  lemma LineReads(codec: Codec, ls: seq<string>, e: Event)
    requires codec.Valid() && NoLineFeeds(ls) && Parse(codec, ls)
    requires InSequence(Parsed(codec, ls)) && e.sequence == |Parsed(codec, ls)| + 1
    ensures ReadLog(codec, Joined(ls) + LineOf(codec, e)) ==
            Reading(Ok(Parsed(codec, ls) + [e]), Joined(ls) + LineOf(codec, e))
  {
    assert codec.Prints(e);
    OneLineMore(codec, ls, codec.encode(e));
    assert Joined(ls) + codec.encode(e) + "\n" == Joined(ls) + LineOf(codec, e);
    hide ReadLog, Joined, Parsed, Codec.Valid;
    LinesRead(codec, ls + [codec.encode(e)]);
  }
}
