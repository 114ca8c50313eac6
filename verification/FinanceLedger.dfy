/** The hash-chained event ledger: what its reader accepts and what its tail determines. */
module FinanceLedger {
  import opened Base
  import opened Json
  import opened Canonical
  import CanonicalTheorems
  import opened FinanceModel

  datatype Ledger = Ledger(events: seq<Event>, lines: seq<string>, digests: seq<string>)

  function TailCheckpoint(l: Ledger): Option<Checkpoint>
  {
    if l.events != [] && l.digests != [] then
      Some(Checkpoint(l.events[|l.events| - 1].sequence, l.digests[|l.digests| - 1]))
    else None
  }

  // ---- the reader --------------------------------------------------------------

  /** The length of the first line, its line feed included. */
  function LineLength(t: string): (k: nat)
    requires t != ""
    ensures 0 < k <= |t|
  {
    if t[0] == '\n' || |t| == 1 then 1 else 1 + LineLength(t[1..])
  }

  function DecodeLine(env: Env, line: string): Option<Event>
  {
    match ParseStrict(line)
    case None => None
    case Some(v) => if env.eventSchema(v) then env.fromValue(v) else None
  }

  /** One line checked against the lines already read. */
  function ReadLine(env: Env, l: Ledger, line: string): Result<Ledger>
  {
    if line == "\n" then Err
    else match DecodeLine(env, line)
      case None => Err
      case Some(e) =>
        if EventLine(env, e) != Ok(line) then Err
        else if e.sequence != |l.events| then Err
        else if e.previousSha256 != (if l.digests == [] then None else Some(l.digests[|l.digests| - 1])) then Err
        else if l.events != [] && (e.runId != l.events[0].runId || e.genesis != l.events[0].genesis) then Err
        else Ok(Ledger(l.events + [e], l.lines + [line], l.digests + [env.hash(line)]))
  }

  function ReadLines(env: Env, l: Ledger, t: string): Result<Ledger>
    decreases |t|
  {
    if t == "" then Ok(l)
    else match ReadLine(env, l, t[..LineLength(t)])
      case Ok(l') => ReadLines(env, l', t[LineLength(t)..])
      case Err => Err
  }

  const EmptyLedger := Ledger([], [], [])

  function ReadSpec(env: Env, t: string): Result<Ledger>
  {
    if t != "" && t[|t| - 1] != '\n' then Err else ReadLines(env, EmptyLedger, t)
  }

  method ReadFinanceLedger(env: Env, bytes: string) returns (r: Result<Ledger>)
    ensures r == ReadSpec(env, bytes)
  {
    if bytes != "" && bytes[|bytes| - 1] != '\n' {
      return Err;
    }
    var ledger := EmptyLedger;
    var rest := bytes;
    while rest != ""
      invariant ReadLines(env, ledger, rest) == ReadLines(env, EmptyLedger, bytes)
      decreases |rest|
    {
      var k := LineLength(rest);
      var step := ReadLine(env, ledger, rest[..k]);
      if step.Err? {
        return Err;
      }
      ledger := step.value;
      rest := rest[k..];
    }
    return Ok(ledger);
  }

  // ---- chains of events --------------------------------------------------------

  function Lines(env: Env, es: seq<Event>): (r: seq<string>)
    ensures |r| == |es| && forall i :: 0 <= i < |es| ==> r[i] == LineText(env, es[i])
  {
    seq(|es|, i requires 0 <= i < |es| => LineText(env, es[i]))
  }

  function Digests(env: Env, es: seq<Event>): (r: seq<string>)
    ensures |r| == |es| && forall i :: 0 <= i < |es| ==> r[i] == env.hash(LineText(env, es[i]))
  {
    seq(|es|, i requires 0 <= i < |es| => env.hash(LineText(env, es[i])))
  }

  function ChainText(env: Env, es: seq<Event>): string
  {
    if es == [] then "" else ChainText(env, es[..|es| - 1]) + LineText(env, es[|es| - 1])
  }

  function LedgerOf(env: Env, es: seq<Event>): Ledger
  {
    Ledger(es, Lines(env, es), Digests(env, es))
  }

  /** Event number i is well linked: schema-valid, numbered i, hashing back to event i - 1, of the first event's run. */
  ghost predicate Linked(env: Env, es: seq<Event>, i: nat)
    requires i < |es|
  {
    && env.eventSchema(env.toValue(es[i]))
    && es[i].sequence == i
    && es[i].previousSha256 == (if i == 0 then None else Some(env.hash(LineText(env, es[i - 1]))))
    && es[i].runId == es[0].runId
    && es[i].genesis == es[0].genesis
  }

  ghost predicate IsChain(env: Env, es: seq<Event>)
  {
    forall i :: 0 <= i < |es| ==> Linked(env, es, i)
  }

  lemma ChainPrefix(env: Env, es: seq<Event>, k: nat)
    requires IsChain(env, es) && k <= |es|
    ensures IsChain(env, es[..k])
  {
    forall i | 0 <= i < k ensures Linked(env, es[..k], i) {
      assert Linked(env, es, i);
    }
  }

  lemma ChainExtend(env: Env, es: seq<Event>, e: Event)
    requires IsChain(env, es) && Linked(env, es + [e], |es|)
    ensures IsChain(env, es + [e])
  {
    forall i | 0 <= i < |es| + 1 ensures Linked(env, es + [e], i) {
      if i < |es| {
        assert Linked(env, es, i);
      }
    }
  }

  lemma ExtendText(env: Env, es: seq<Event>, e: Event)
    ensures ChainText(env, es + [e]) == ChainText(env, es) + LineText(env, e)
    ensures LedgerOf(env, es + [e]) ==
            Ledger(es + [e], Lines(env, es) + [LineText(env, e)], Digests(env, es) + [env.hash(LineText(env, e))])
  {
    assert (es + [e])[..|es|] == es;
  }

  // ---- one line ------------------------------------------------------------------

  lemma LineShape(env: Env, e: Event, rest: string)
    ensures LineText(env, e) != "\n" && LineText(env, e) != ""
    ensures LineText(env, e)[|LineText(env, e)| - 1] == '\n'
    ensures LineLength(LineText(env, e) + rest) == |LineText(env, e)|
  {
    var body := CanonicalText(env.toValue(e));
    TextHead(Norm(env.toValue(e)));
    CanonicalTheorems.TextIsPrintable(Norm(env.toValue(e)));
    FirstLineFeed(body, rest);
  }

  lemma FirstLineFeed(body: string, rest: string)
    requires CanonicalTheorems.Printable(body)
    ensures LineLength(body + "\n" + rest) == |body| + 1
  {
    if body != "" {
      assert (body + "\n" + rest)[1..] == body[1..] + "\n" + rest;
      FirstLineFeed(body[1..], rest);
    }
  }

  /** A line decodes to the event it was written for. */
  lemma LineDecodes(env: Env, e: Event)
    requires env.Faithful() && env.eventSchema(env.toValue(e))
    ensures DecodeLine(env, LineText(env, e)) == Some(e)
  {
    CanonicalTheorems.ParserInvertsLine(env.toValue(e));
  }

  lemma LineIsInjective(env: Env, e: Event, f: Event)
    requires env.Faithful() && LineText(env, e) == LineText(env, f)
    ensures e == f
  {
    CanonicalTheorems.ParserInvertsLine(env.toValue(e));
    CanonicalTheorems.ParserInvertsLine(env.toValue(f));
  }

  lemma ReadsOneMore(env: Env, es: seq<Event>, e: Event)
    requires env.Faithful()
    ensures Linked(env, es + [e], |es|) ==>
              ReadLine(env, LedgerOf(env, es), LineText(env, e)) == Ok(LedgerOf(env, es + [e]))
  {
    LineShape(env, e, "");
    ExtendText(env, es, e);
    if env.eventSchema(env.toValue(e)) {
      LineDecodes(env, e);
    }
  }

  // ---- the reader accepts exactly the chains ---------------------------------------

  lemma {:induction false} ReadsRest(env: Env, es: seq<Event>, k: nat, rest: string)
    requires env.Faithful() && IsChain(env, es) && k <= |es|
    requires ChainText(env, es[..k]) + rest == ChainText(env, es)
    ensures ReadLines(env, LedgerOf(env, es[..k]), rest) == Ok(LedgerOf(env, es))
    decreases |es| - k
  {
    if k == |es| {
      assert es[..k] == es;
      assert rest == "" by { assert |rest| == 0; }
    } else {
      var rest' := TextAfter(env, es, k + 1);
      ReadsAt(env, es, k, rest, rest');
      ReadsRest(env, es, k + 1, rest');
    }
  }

  lemma ReadsAt(env: Env, es: seq<Event>, k: nat, rest: string, rest': string)
    requires env.Faithful() && IsChain(env, es) && k < |es|
    requires ChainText(env, es[..k]) + rest == ChainText(env, es)
    requires ChainText(env, es[..k + 1]) + rest' == ChainText(env, es)
    ensures ReadLines(env, LedgerOf(env, es[..k]), rest) == ReadLines(env, LedgerOf(env, es[..k + 1]), rest')
  {
    var e, line := es[k], LineText(env, es[k]);
    assert es[..k] + [e] == es[..k + 1];
    ExtendText(env, es[..k], e);
    CutPrefix3(ChainText(env, es[..k]), rest, line, rest');
    LineShape(env, e, rest');
    assert rest[..|line|] == line && rest[|line|..] == rest';
    assert Linked(env, es, k);
    assert Linked(env, es[..k] + [e], k);
    ReadsOneMore(env, es[..k], e);
  }

  lemma CutPrefix3(a: string, x: string, line: string, y: string)
    requires a + x == a + line + y
    ensures x == line + y
  {
    assert a + line + y == a + (line + y);
    CutPrefix(a, x, line + y);
  }

  lemma CutPrefix(a: string, x: string, y: string)
    requires a + x == a + y
    ensures x == y
  {
    assert x == (a + x)[|a|..] && y == (a + y)[|a|..];
  }

  lemma TextAfter(env: Env, es: seq<Event>, k: nat) returns (rest: string)
    requires k <= |es|
    ensures ChainText(env, es[..k]) + rest == ChainText(env, es)
    decreases |es| - k
  {
    hide ChainText, LineText;
    if k == |es| {
      assert es[..k] == es;
      rest := "";
    } else {
      var more := TextAfter(env, es, k + 1);
      assert es[..k] + [es[k]] == es[..k + 1];
      ExtendText(env, es[..k], es[k]);
      rest := LineText(env, es[k]) + more;
      assert ChainText(env, es[..k]) + rest == ChainText(env, es[..k]) + LineText(env, es[k]) + more;
    }
  }

  /** Reading back a chain returns its events, lines and digests. */
  lemma ReaderAcceptsChains(env: Env, es: seq<Event>)
    requires env.Faithful() && IsChain(env, es)
    ensures ReadSpec(env, ChainText(env, es)) == Ok(LedgerOf(env, es))
  {
    if es != [] {
      LineShape(env, es[|es| - 1], "");
    }
    assert es[..0] == [];
    assert LedgerOf(env, []) == EmptyLedger;
    ReadsRest(env, es, 0, ChainText(env, es));
  }

  lemma AcceptedLine(env: Env, es: seq<Event>, line: string) returns (e: Event)
    requires env.Faithful() && IsChain(env, es)
    requires ReadLine(env, LedgerOf(env, es), line).Ok?
    ensures line == LineText(env, e)
    ensures IsChain(env, es + [e])
    ensures ReadLine(env, LedgerOf(env, es), line) == Ok(LedgerOf(env, es + [e]))
  {
    e := DecodeLine(env, line).value;
    assert EventLine(env, e) == Ok(line);
    if es != [] {
      assert Linked(env, es, 0);
    }
    assert Linked(env, es + [e], |es|);
    ChainExtend(env, es, e);
    ExtendText(env, es, e);
  }

  lemma ReadLinesStep(env: Env, l: Ledger, rest: string)
    requires rest != "" && ReadLines(env, l, rest).Ok?
    ensures ReadLine(env, l, rest[..LineLength(rest)]).Ok?
    ensures ReadLines(env, l, rest) ==
            ReadLines(env, ReadLine(env, l, rest[..LineLength(rest)]).value, rest[LineLength(rest)..])
  {
  }

  lemma {:induction false} AcceptedRest(env: Env, es: seq<Event>, rest: string) returns (fs: seq<Event>)
    requires env.Faithful() && IsChain(env, es)
    requires ReadLines(env, LedgerOf(env, es), rest).Ok?
    ensures IsChain(env, fs)
    ensures ReadLines(env, LedgerOf(env, es), rest) == Ok(LedgerOf(env, fs))
    ensures ChainText(env, fs) == ChainText(env, es) + rest
    decreases |rest|
  {
    if rest == "" {
      fs := es;
    } else {
      var k := LineLength(rest);
      ReadLinesStep(env, LedgerOf(env, es), rest);
      var e := AcceptedLine(env, es, rest[..k]);
      ExtendText(env, es, e);
      fs := AcceptedRest(env, es + [e], rest[k..]);
      Reassemble(ChainText(env, es), rest, k);
    }
  }

  lemma Reassemble(a: string, rest: string, k: nat)
    requires k <= |rest|
    ensures a + rest[..k] + rest[k..] == a + rest
  {
    assert rest == rest[..k] + rest[k..];
  }

  /** The reader accepts exactly the byte strings that are the text of a hash chain, and returns that chain. */
  lemma ReaderIsExact(env: Env, t: string, l: Ledger)
    requires env.Faithful()
    ensures ReadSpec(env, t) == Ok(l) <==>
            IsChain(env, l.events) && l == LedgerOf(env, l.events) && t == ChainText(env, l.events)
  {
    if ReadSpec(env, t) == Ok(l) {
      assert LedgerOf(env, []) == EmptyLedger;
      var fs := AcceptedRest(env, [], t);
      assert ChainText(env, []) + t == t;
    }
    if IsChain(env, l.events) && l == LedgerOf(env, l.events) && t == ChainText(env, l.events) {
      ReaderAcceptsChains(env, l.events);
    }
  }

  // ---- a torn append is never read as a shorter or longer ledger ---------------------

  /** A ledger followed by a proper, non-empty piece of one more line is refused. */
  lemma TornLineIsRefused(env: Env, es: seq<Event>, e: Event, cut: nat)
    requires 0 < cut < |LineText(env, e)|
    ensures ReadSpec(env, ChainText(env, es) + LineText(env, e)[..cut]).Err?
  {
    var body := CanonicalText(env.toValue(e));
    CanonicalTheorems.TextIsPrintable(Norm(env.toValue(e)));
    var t := ChainText(env, es) + LineText(env, e)[..cut];
    assert t[|t| - 1] == LineText(env, e)[cut - 1] == body[cut - 1];
    assert body[cut - 1] >= ' ';
  }

  // ---- the tail determines the history ------------------------------------------------

  /** Walking two chains of one length back from equal digests: the same events, or a collision. */
  lemma {:induction false} WalkBack(env: Env, es: seq<Event>, fs: seq<Event>) returns (x: string, y: string)
    requires env.Faithful() && IsChain(env, es) && IsChain(env, fs) && |es| == |fs|
    requires es != [] ==> env.hash(LineText(env, es[|es| - 1])) == env.hash(LineText(env, fs[|fs| - 1]))
    ensures es == fs || Collision(env.hash, x, y)
    decreases |es|
  {
    x, y := "", "";
    if es != [] {
      var n := |es| - 1;
      x, y := LineText(env, es[n]), LineText(env, fs[n]);
      if x == y {
        LineIsInjective(env, es[n], fs[n]);
        assert Linked(env, es, n) && Linked(env, fs, n);
        ChainPrefix(env, es, n);
        ChainPrefix(env, fs, n);
        x, y := WalkBack(env, es[..n], fs[..n]);
        assert es == es[..n] + [es[n]] && fs == fs[..n] + [fs[n]];
      }
    }
  }

  lemma TailOfChain(env: Env, es: seq<Event>)
    requires IsChain(env, es)
    ensures TailCheckpoint(LedgerOf(env, es)) ==
            if es == [] then None else Some(Checkpoint(|es| - 1, env.hash(LineText(env, es[|es| - 1]))))
  {
    if es != [] {
      assert Linked(env, es, |es| - 1);
    }
  }

  /** Two accepted ledgers with the same tail checkpoint are byte-identical, or their chains exhibit a collision. */
  lemma TailDeterminesHistory(env: Env, t: string, u: string) returns (x: string, y: string)
    requires env.Faithful()
    requires ReadSpec(env, t).Ok? && ReadSpec(env, u).Ok?
    requires TailCheckpoint(ReadSpec(env, t).value) == TailCheckpoint(ReadSpec(env, u).value)
    ensures t == u || Collision(env.hash, x, y)
  {
    var l, k := ReadSpec(env, t).value, ReadSpec(env, u).value;
    ReaderIsExact(env, t, l);
    ReaderIsExact(env, u, k);
    TailOfChain(env, l.events);
    TailOfChain(env, k.events);
    x, y := WalkBack(env, l.events, k.events);
  }
}
