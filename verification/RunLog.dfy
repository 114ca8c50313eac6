/** The append-only event log of a run, and the reader that repairs a torn tail. */
module RunLog {
  import opened Base
  import opened StoreModel

  // ---- the reader -----------------------------------------------------------------

  /** Where the last line feed ends: everything after it is an unfinished tail. */
  function CompleteEnd(t: string): (k: nat)
    ensures k <= |t|
  {
    if t == "" then 0 else if t[|t| - 1] == '\n' then |t| else CompleteEnd(t[..|t| - 1])
  }

  /** The length of the first line without its line feed. */
  function FirstLine(t: string): (k: nat)
    ensures k <= |t| && (k < |t| ==> t[k] == '\n')
  {
    if t == "" || t[0] == '\n' then 0 else 1 + FirstLine(t[1..])
  }

  function AfterLine(t: string): (rest: string)
    ensures t != "" ==> |rest| < |t|
  {
    if FirstLine(t) < |t| then t[FirstLine(t) + 1..] else ""
  }

  /** One line added to the events read so far; blank lines are skipped. */
  function DecodeLine(codec: Codec, es: seq<Event>, line: string): Result<seq<Event>>
  {
    if line == "" then Ok(es)
    else match codec.decode(line)
      case None => Err
      case Some(e) => Ok(es + [e])
  }

  /** The committed records; one bad record refuses the log. */
  function DecodeLines(codec: Codec, es: seq<Event>, t: string): Result<seq<Event>>
    decreases |t|
  {
    if t == "" then Ok(es)
    else match DecodeLine(codec, es, t[..FirstLine(t)])
      case Err => Err
      case Ok(more) => DecodeLines(codec, more, AfterLine(t))
  }

  predicate Numbered(es: seq<Event>)
  {
    forall i :: 0 <= i < |es| ==> es[i].sequence == i + 1
  }

  /** What reading yields, and the text the file holds afterwards. */
  datatype Reading = Reading(events: Result<seq<Event>>, text: string)

  function ReadLog(codec: Codec, t: string): Reading
  {
    var end := CompleteEnd(t);
    match DecodeLines(codec, [], t[..end])
    case Err => Reading(Err, t)
    case Ok(es) =>
      if t[end..] == "" then Reading(Checked(es), t)
      else match codec.decode(t[end..])
        case Some(e) => Reading(Checked(es + [e]), t + "\n")
        case None => Reading(Checked(es), t[..end])
  }

  function Checked(es: seq<Event>): Result<seq<Event>>
  {
    if Numbered(es) then Ok(es) else Err
  }

  /** The loop over the complete lines. */
  method DecodeComplete(codec: Codec, t: string) returns (r: Result<seq<Event>>)
    ensures r == DecodeLines(codec, [], t)
  {
    var events, rest := [], t;
    while rest != ""
      invariant DecodeLines(codec, [], t) == DecodeLines(codec, events, rest)
      decreases |rest|
    {
      var step := DecodeLine(codec, events, rest[..FirstLine(rest)]);
      if step.Err? {
        return Err;
      }
      events, rest := step.value, AfterLine(rest);
    }
    return Ok(events);
  }

  // ---- logs as written, and what a crash does to them ------------------------------------

  function LineOf(codec: Codec, e: Event): string
  {
    codec.encode(e) + "\n"
  }

  function LogText(codec: Codec, es: seq<Event>): string
  {
    if es == [] then "" else LogText(codec, es[..|es| - 1]) + LineOf(codec, es[|es| - 1])
  }

  /** What a crash can leave at the end of a log. */
  datatype Damage = Clean | Piece(torn: string) | NoLineFeed

  /** The file holds these events, up to damage at the end. */
  ghost predicate Holds(codec: Codec, t: string, es: seq<Event>, damage: Damage)
  {
    match damage
    case Clean => t == LogText(codec, es)
    case Piece(torn) =>
      torn != "" && '\n' !in torn && codec.decode(torn) == None && t == LogText(codec, es) + torn
    case NoLineFeed =>
      es != [] && t == LogText(codec, es[..|es| - 1]) + codec.encode(es[|es| - 1])
  }

  lemma CompleteEndOf(t: string, tail: string)
    requires t == "" || t[|t| - 1] == '\n'
    requires '\n' !in tail
    ensures CompleteEnd(t + tail) == |t|
  {
    if tail == "" {
      assert t + tail == t;
    } else {
      assert (t + tail)[..|t + tail| - 1] == t + tail[..|tail| - 1];
      CompleteEndOf(t, tail[..|tail| - 1]);
    }
  }

  lemma FirstLineOf(line: string)
    requires '\n' !in line
    ensures FirstLine(line + "\n") == |line|
  {
    if line != "" {
      assert (line + "\n")[1..] == line[1..] + "\n";
      FirstLineOf(line[1..]);
    }
  }

  lemma LogEnds(codec: Codec, es: seq<Event>)
    ensures var t := LogText(codec, es); t == "" || t[|t| - 1] == '\n'
  {
  }

  lemma LogGrows(codec: Codec, es: seq<Event>, e: Event)
    ensures LogText(codec, es + [e]) == LogText(codec, es) + LineOf(codec, e)
  {
    assert (es + [e])[..|es|] == es;
  }

  /** Decoding splits after any complete line. */
  lemma {:induction false} DecodeAppend(codec: Codec, es: seq<Event>, t: string, last: string)
    requires t == "" || t[|t| - 1] == '\n'
    ensures DecodeLines(codec, es, t + last) ==
            match DecodeLines(codec, es, t) case Err => Err case Ok(more) => DecodeLines(codec, more, last)
    decreases |t|
  {
    if t == "" {
      assert t + last == last;
    } else {
      FirstLineFound(t);
      Regroup(t, FirstLine(t), last);
      assert t + last != "";
      var step := DecodeLine(codec, es, t[..FirstLine(t)]);
      if step.Ok? {
        DecodeAppend(codec, step.value, AfterLine(t), last);
      }
    }
  }

  lemma DecodeOnly(codec: Codec, es: seq<Event>, line: string)
    requires line != "" && '\n' !in line
    ensures DecodeLines(codec, es, line + "\n") == DecodeLine(codec, es, line)
  {
    FirstLineOf(line);
    assert (line + "\n")[..|line|] == line;
    assert AfterLine(line + "\n") == "";
  }

  lemma FirstLineFound(t: string)
    requires t != "" && t[|t| - 1] == '\n'
    ensures FirstLine(t) < |t|
  {
    if t[0] != '\n' {
      FirstLineFound(t[1..]);
    }
  }

  lemma Regroup(t: string, k: nat, more: string)
    requires k == FirstLine(t) && k < |t|
    ensures FirstLine(t + more) == k
    ensures (t + more)[..k] == t[..k] && (t + more)[k + 1..] == t[k + 1..] + more
  {
    if t[0] != '\n' {
      assert (t + more)[1..] == t[1..] + more;
      Regroup(t[1..], k - 1, more);
    }
  }

  lemma DecodeLineOf(codec: Codec, es: seq<Event>, e: Event)
    requires codec.Prints(e)
    ensures DecodeLines(codec, es, LineOf(codec, e)) == Ok(es + [e])
  {
    DecodeOnly(codec, es, codec.encode(e));
  }

  /** The text of a log decodes to the log. */
  ghost predicate Decodes(codec: Codec, es: seq<Event>)
  {
    DecodeLines(codec, [], LogText(codec, es)) == Ok(es)
  }

  lemma DecodeOneMore(codec: Codec, before: seq<Event>, e: Event)
    requires codec.Valid() && Decodes(codec, before)
    ensures Decodes(codec, before + [e])
  {
    assert codec.Prints(e);
    LogEnds(codec, before);
    LogGrows(codec, before, e);
    DecodeAppend(codec, [], LogText(codec, before), LineOf(codec, e));
    DecodeLineOf(codec, before, e);
  }

  lemma DecodesNothing(codec: Codec)
    ensures Decodes(codec, [])
  {
  }

  lemma {:induction false} DecodesLog(codec: Codec, es: seq<Event>)
    requires codec.Valid()
    ensures Decodes(codec, es)
    decreases |es|
  {
    if es == [] {
      DecodesNothing(codec);
    } else {
      DecodesLog(codec, es[..|es| - 1]);
      DecodeOneMore(codec, es[..|es| - 1], es[|es| - 1]);
      assert es[..|es| - 1] + [es[|es| - 1]] == es;
    }
  }

  /** Whatever a crash left at the end, reading yields the events the log holds and leaves the file whole. */
  lemma ReadRepairs(codec: Codec, t: string, es: seq<Event>, damage: Damage)
    requires codec.Valid() && Numbered(es) && Holds(codec, t, es, damage)
    ensures ReadLog(codec, t) == Reading(Ok(es), LogText(codec, es))
  {
    match damage {
      case Clean =>
        DecodesLog(codec, es);
        ReadsTail(codec, es, "");
        assert t + "" == t;
      case Piece(torn) =>
        DecodesLog(codec, es);
        ReadsTail(codec, es, torn);
      case NoLineFeed =>
        ReadsWholeTail(codec, es[..|es| - 1], es[|es| - 1]);
        assert es[..|es| - 1] + [es[|es| - 1]] == es;
    }
  }

  lemma ReadsWholeTail(codec: Codec, before: seq<Event>, e: Event)
    requires codec.Valid() && Numbered(before + [e])
    ensures ReadLog(codec, LogText(codec, before) + codec.encode(e)) ==
            Reading(Ok(before + [e]), LogText(codec, before + [e]))
  {
    assert codec.Prints(e);
    DecodesLog(codec, before);
    LogGrows(codec, before, e);
    Join(LogText(codec, before), codec.encode(e));
    ReadsTail(codec, before, codec.encode(e));
  }

  lemma Join(t: string, line: string)
    ensures t + line + "\n" == t + (line + "\n")
  {
  }

  lemma ReadsTail(codec: Codec, es: seq<Event>, tail: string)
    requires '\n' !in tail && DecodeLines(codec, [], LogText(codec, es)) == Ok(es)
    ensures var t := LogText(codec, es) + tail;
            ReadLog(codec, t) ==
            if tail == "" then Reading(Checked(es), t)
            else match codec.decode(tail)
              case Some(e) => Reading(Checked(es + [e]), t + "\n")
              case None => Reading(Checked(es), LogText(codec, es))
  {
    LogEnds(codec, es);
    CompleteEndOf(LogText(codec, es), tail);
    var t := LogText(codec, es) + tail;
    assert t[..|LogText(codec, es)|] == LogText(codec, es) && t[|LogText(codec, es)|..] == tail;
  }

  /** An append cut anywhere leaves either the old events or the new ones, never anything else. */
  lemma TornAppend(codec: Codec, es: seq<Event>, e: Event, cut: nat) returns (damage: Damage)
    requires codec.Valid() && cut <= |codec.encode(e)|
    ensures Holds(codec, LogText(codec, es) + LineOf(codec, e)[..cut],
                  if cut == |codec.encode(e)| then es + [e] else es, damage)
  {
    var line := codec.encode(e);
    assert codec.Prints(e) && codec.RefusesPiece(e, cut);
    assert LineOf(codec, e)[..cut] == line[..cut];
    if cut == 0 {
      assert LogText(codec, es) + line[..0] == LogText(codec, es);
      damage := Clean;
    } else if cut == |line| {
      assert line[..cut] == line && (es + [e])[..|es|] == es;
      damage := NoLineFeed;
    } else {
      damage := Piece(line[..cut]);
    }
  }
}
