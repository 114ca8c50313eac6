/** The terminal's incremental key parser, and why it does not matter how its input is cut into chunks. */
module KeyParser {
  import opened Base
  import opened Utf8

  datatype Key =
    | Char(c: char) | Enter | Backspace | Delete | Left | Right | Up | Down | Home | End | CtrlC | CtrlD

  const ESC: byte := 0x1b
  const PASTE_START: seq<byte> := [0x1b, 0x5b, 0x32, 0x30, 0x30, 0x7e]
  const PASTE_END: seq<byte> := [0x1b, 0x5b, 0x32, 0x30, 0x31, 0x7e]

  predicate Param(b: byte)
  {
    0x30 <= b <= 0x39 || b == 0x3b
  }

  /** The number of leading parameter bytes. */
  function Params(t: seq<byte>): (n: nat)
    ensures n <= |t| && (n < |t| ==> !Param(t[n]))
    ensures forall k :: 0 <= k < n ==> Param(t[k])
  {
    if t != [] && Param(t[0]) then 1 + Params(t[1..]) else 0
  }

  function CsiKey(params: seq<byte>, final: byte): Option<Key>
  {
    if final == 0x41 then Some(Up)
    else if final == 0x42 then Some(Down)
    else if final == 0x43 then Some(Right)
    else if final == 0x44 then Some(Left)
    else if final == 0x48 then Some(Home)
    else if final == 0x46 then Some(End)
    else if final == 0x7e then
      if params == [0x31] || params == [0x37] then Some(Home)
      else if params == [0x34] || params == [0x38] then Some(End)
      else if params == [0x33] then Some(Delete)
      else None
    else None
  }

  /** What the next bytes call for: more input, or some bytes taken for at most one key. */
  datatype Next = Wait | Take(key: Option<Key>, len: nat, inPaste: bool)

  /** A control sequence after ESC [ or ESC O. */
  function Csi(t: seq<byte>): (r: Next)
    requires |t| >= 2
    ensures r.Take? ==> 2 < r.len <= |t|
  {
    var n := Params(t[2..]);
    if n == |t| - 2 then Wait else Take(CsiKey(t[2..2 + n], t[2 + n]), n + 3, false)
  }

  function NextPasted(t: seq<byte>): (r: Next)
    requires t != []
    ensures r.Take? ==> 0 < r.len <= |t|
  {
    if PASTE_END <= t then Take(None, |PASTE_END|, false)
    else if t[0] == ESC then Wait
    else match ConsumeChar(t)
      case None => Wait
      case Some(r) => Take(Some(Char(if r.c == '\r' || r.c == '\n' then ' ' else r.c)), r.len, true)
  }

  function NextTyped(t: seq<byte>): (r: Next)
    requires t != []
    ensures r.Take? ==> 0 < r.len <= |t|
  {
    var b := t[0];
    if b == ESC then
      if PASTE_START <= t then Take(None, |PASTE_START|, true)
      else if |t| == 1 then Wait
      else if t[1] == 0x5b || t[1] == 0x4f then Csi(t)
      else Take(None, 1, false)
    else if b == 0x0d || b == 0x0a then Take(Some(Enter), 1, false)
    else if b == 0x03 then Take(Some(CtrlC), 1, false)
    else if b == 0x04 then Take(Some(CtrlD), 1, false)
    else if b == 0x7f then Take(Some(Backspace), 1, false)
    else if b < 0x20 then Take(None, 1, false)
    else match ConsumeChar(t)
      case None => Wait
      case Some(r) => Take(Some(Char(r.c)), r.len, false)
  }

  function NextOf(t: seq<byte>, inPaste: bool): (r: Next)
    requires t != []
    ensures r.Take? ==> 0 < r.len <= |t|
  {
    if inPaste then NextPasted(t) else NextTyped(t)
  }

  datatype Parsed = Parsed(keys: seq<Key>, rest: seq<byte>, inPaste: bool)

  function Keys(k: Option<Key>): seq<Key>
  {
    if k.Some? then [k.value] else []
  }

  function ParseFrom(keys: seq<Key>, t: seq<byte>, inPaste: bool): Parsed
    decreases |t|
  {
    if t == [] then Parsed(keys, t, inPaste)
    else match NextOf(t, inPaste)
      case Wait => Parsed(keys, t, inPaste)
      case Take(k, len, p) => ParseFrom(keys + Keys(k), t[len..], p)
  }

  // ---- the code -------------------------------------------------------------------------

  method ParseCsi(t: seq<byte>) returns (r: Next)
    requires |t| >= 2
    ensures r == Csi(t)
  {
    var j := 2;
    while j < |t| && Param(t[j])
      invariant 2 <= j <= |t|
      invariant Params(t[2..]) == j - 2 + Params(t[j..])
    {
      assert t[j..][1..] == t[j + 1..];
      j := j + 1;
    }
    if j >= |t| {
      return Wait;
    }
    return Take(CsiKey(t[2..j], t[j]), j + 1, false);
  }

  class Parser {
    var pending: seq<byte>
    var inPaste: bool

    constructor ()
      ensures pending == [] && !inPaste
    {
      pending, inPaste := [], false;
    }

    method Feed(bytes: seq<byte>) returns (keys: seq<Key>)
      modifies this
      ensures Parsed(keys, pending, inPaste) == ParseFrom([], old(pending) + bytes, old(inPaste))
    {
      pending := pending + bytes;
      keys := Parse();
    }

    /** A lone ESC is given up; anything else that is pending is parsed again. */
    method Flush() returns (keys: seq<Key>)
      modifies this
      ensures var t := if old(pending) == [ESC] then [] else old(pending);
              Parsed(keys, pending, inPaste) == ParseFrom([], t, old(inPaste))
    {
      if pending == [ESC] {
        pending := [];
      }
      keys := Parse();
    }

    method Parse() returns (keys: seq<Key>)
      modifies this
      ensures Parsed(keys, pending, inPaste) == ParseFrom([], old(pending), old(inPaste))
    {
      keys := [];
      var rest := pending;
      ghost var whole := ParseFrom([], rest, inPaste);
      ghost var tail := rest;
      pending := [];
      var i := 0;
      while i < |rest|
        invariant 0 <= i <= |rest| && pending == [] && tail == rest[i..]
        invariant ParseFrom(keys, tail, inPaste) == whole
      {
        var next := ReadNext(rest[i..]);
        ParseStep(keys, tail, inPaste);
        if next.Wait? {
          pending := rest[i..];
          return;
        }
        keys := keys + Keys(next.key);
        inPaste := next.inPaste;
        i := i + next.len;
        tail := tail[next.len..];
      }
    }

    method ReadNext(t: seq<byte>) returns (next: Next)
      requires t != []
      ensures next == NextOf(t, inPaste)
    {
      if inPaste {
        next := ReadPasted(t);
      } else {
        next := ReadTyped(t);
      }
    }

    method ReadPasted(t: seq<byte>) returns (next: Next)
      requires t != []
      ensures next == NextPasted(t)
    {
      if PASTE_END <= t {
        return Take(None, |PASTE_END|, false);
      }
      if t[0] == ESC {
        return Wait;
      }
      var c := ConsumeChar(t);
      if c.None? {
        return Wait;
      }
      return Take(Some(Char(if c.value.c == '\r' || c.value.c == '\n' then ' ' else c.value.c)), c.value.len, true);
    }

    method ReadTyped(t: seq<byte>) returns (next: Next)
      requires t != []
      ensures next == NextTyped(t)
    {
      var b := t[0];
      if b == ESC {
        if PASTE_START <= t {
          return Take(None, |PASTE_START|, true);
        }
        if |t| == 1 {
          return Wait;
        }
        if t[1] == 0x5b || t[1] == 0x4f {
          next := ParseCsi(t);
          return;
        }
        return Take(None, 1, false);
      }
      if b == 0x0d || b == 0x0a {
        return Take(Some(Enter), 1, false);
      }
      if b == 0x03 {
        return Take(Some(CtrlC), 1, false);
      }
      if b == 0x04 {
        return Take(Some(CtrlD), 1, false);
      }
      if b == 0x7f {
        return Take(Some(Backspace), 1, false);
      }
      if b < 0x20 {
        return Take(None, 1, false);
      }
      var c := ConsumeChar(t);
      return if c.None? then Wait else Take(Some(Char(c.value.c)), c.value.len, false);
    }
  }

  lemma ParseStep(keys: seq<Key>, t: seq<byte>, inPaste: bool)
    requires t != []
    ensures var next := NextOf(t, inPaste);
            ParseFrom(keys, t, inPaste) ==
            if next.Wait? then Parsed(keys, t, inPaste)
            else ParseFrom(keys + Keys(next.key), t[next.len..], next.inPaste)
  {
  }

  // ---- chunks ---------------------------------------------------------------------------------

  lemma ParamsStable(t: seq<byte>, more: seq<byte>)
    requires Params(t) < |t|
    ensures Params(t + more) == Params(t)
  {
    if Param(t[0]) {
      assert (t + more)[1..] == t[1..] + more;
      ParamsStable(t[1..], more);
    }
  }

  lemma CsiStable(t: seq<byte>, more: seq<byte>)
    requires |t| >= 2 && Csi(t).Take?
    ensures Csi(t + more) == Csi(t)
  {
    assert (t + more)[2..] == t[2..] + more;
    ParamsStable(t[2..], more);
    var n := Params(t[2..]);
    assert (t + more)[2..2 + n] == t[2..2 + n];
  }

  lemma ParamsAll(t: seq<byte>)
    requires forall k :: 0 <= k < |t| ==> Param(t[k])
    ensures Params(t) == |t|
  {
  }

  /** An unfinished paste marker waits. */
  lemma MarkerWaits(t: seq<byte>)
    requires 2 <= |t| < |PASTE_START| && t == PASTE_START[..|t|]
    ensures Csi(t) == Wait
  {
    forall k | 0 <= k < |t[2..]| ensures Param(t[2..][k]) {
      assert t[2..][k] == PASTE_START[k + 2];
    }
    ParamsAll(t[2..]);
  }

  /** So a sequence that is already taken does not turn into a marker. */
  lemma MarkerIsDecided(t: seq<byte>, more: seq<byte>)
    requires |t| >= 2 && Csi(t).Take?
    ensures PASTE_START <= t + more <==> PASTE_START <= t
  {
    if |t| < |PASTE_START| {
      assert PASTE_START <= t + more ==> t == PASTE_START[..|t|];
      if t == PASTE_START[..|t|] {
        MarkerWaits(t);
      }
    } else {
      assert (t + more)[..|PASTE_START|] == t[..|PASTE_START|];
    }
  }

  /** More input never changes what has been decided. */
  lemma NextIsStable(t: seq<byte>, more: seq<byte>, inPaste: bool)
    requires t != [] && NextOf(t, inPaste).Take?
    ensures NextOf(t + more, inPaste) == NextOf(t, inPaste)
  {
    if inPaste {
      PastedIsStable(t, more);
    } else if t[0] == ESC {
      EscapeIsStable(t, more);
    } else if ConsumeChar(t).Some? {
      ConsumeIsStable(t, more);
    }
  }

  lemma PastedIsStable(t: seq<byte>, more: seq<byte>)
    requires t != [] && NextPasted(t).Take?
    ensures NextPasted(t + more) == NextPasted(t)
  {
    if PASTE_END <= t {
      assert PASTE_END <= t + more by {
        assert t + more == PASTE_END + (t[|PASTE_END|..] + more);
      }
    } else {
      assert (t + more)[0] == t[0] && t[0] != PASTE_END[0];
      assert !(PASTE_END <= t + more);
      ConsumeIsStable(t, more);
    }
  }

  lemma EscapeIsStable(t: seq<byte>, more: seq<byte>)
    requires t != [] && t[0] == ESC && NextTyped(t).Take?
    ensures NextTyped(t + more) == NextTyped(t)
  {
    if PASTE_START <= t {
      assert PASTE_START <= t + more by {
        assert t + more == PASTE_START + (t[|PASTE_START|..] + more);
      }
    } else {
      assert (t + more)[0] == t[0] && (t + more)[1] == t[1];
      if t[1] == 0x5b || t[1] == 0x4f {
        CsiStable(t, more);
        MarkerIsDecided(t, more);
      } else {
        assert PASTE_START[1] != t[1];
        assert !(PASTE_START <= t + more);
      }
    }
  }

  /** Parsing goes on where it stopped. */
  lemma {:induction false} ParseResumes(keys: seq<Key>, t: seq<byte>, more: seq<byte>, inPaste: bool)
    ensures var first := ParseFrom(keys, t, inPaste);
            ParseFrom(keys, t + more, inPaste) == ParseFrom(first.keys, first.rest + more, first.inPaste)
    decreases |t|
  {
    if t != [] && NextOf(t, inPaste).Take? {
      var next := NextOf(t, inPaste);
      NextIsStable(t, more, inPaste);
      assert (t + more)[next.len..] == t[next.len..] + more;
      ParseResumes(keys + Keys(next.key), t[next.len..], more, next.inPaste);
    }
  }

  function Prepend(keys: seq<Key>, p: Parsed): Parsed
  {
    Parsed(keys + p.keys, p.rest, p.inPaste)
  }

  lemma {:induction false} KeysAccumulate(front: seq<Key>, keys: seq<Key>, t: seq<byte>, inPaste: bool)
    ensures ParseFrom(front + keys, t, inPaste) == Prepend(front, ParseFrom(keys, t, inPaste))
    decreases |t|
  {
    if t != [] && NextOf(t, inPaste).Take? {
      var next := NextOf(t, inPaste);
      assert (front + keys) + Keys(next.key) == front + (keys + Keys(next.key));
      KeysAccumulate(front, keys + Keys(next.key), t[next.len..], next.inPaste);
    }
  }

  /** The parser's state, and one chunk fed to it. */
  datatype State = State(pending: seq<byte>, inPaste: bool)

  function FeedAll(s: State, chunks: seq<seq<byte>>): Parsed
  {
    if chunks == [] then Parsed([], s.pending, s.inPaste)
    else
      var first := FeedAll(s, chunks[..|chunks| - 1]);
      Prepend(first.keys, ParseFrom([], first.rest + chunks[|chunks| - 1], first.inPaste))
  }

  function Joined(chunks: seq<seq<byte>>): seq<byte>
  {
    if chunks == [] then [] else Joined(chunks[..|chunks| - 1]) + chunks[|chunks| - 1]
  }

  /** Chunk invariance: any number of chunks gives the keys, pending bytes and paste mode of one big chunk. */
  lemma {:induction false} ChunksDoNotMatter(s: State, chunks: seq<seq<byte>>)
    requires chunks != []
    ensures FeedAll(s, chunks) == ParseFrom([], s.pending + Joined(chunks), s.inPaste)
    decreases |chunks|
  {
    var before, last := chunks[..|chunks| - 1], chunks[|chunks| - 1];
    if before == [] {
      var r := ParseFrom([], s.pending + last, s.inPaste);
      assert Joined(chunks) == last && [] + r.keys == r.keys;
    } else {
      ChunksDoNotMatter(s, before);
      TwoChunks(s.pending + Joined(before), last, s.inPaste);
      assert s.pending + Joined(chunks) == (s.pending + Joined(before)) + last;
    }
  }

  lemma TwoChunks(t: seq<byte>, more: seq<byte>, inPaste: bool)
    ensures var first := ParseFrom([], t, inPaste);
            ParseFrom([], t + more, inPaste) == Prepend(first.keys, ParseFrom([], first.rest + more, first.inPaste))
  {
    var first := ParseFrom([], t, inPaste);
    ParseResumes([], t, more, inPaste);
    KeysAccumulate(first.keys, [], first.rest + more, first.inPaste);
    assert first.keys + [] == first.keys;
  }

  /** What is left pending holds no key: parsing it again changes nothing. */
  lemma {:induction false} LeftoverHoldsNoKey(keys: seq<Key>, t: seq<byte>, inPaste: bool)
    ensures var r := ParseFrom(keys, t, inPaste);
            ParseFrom([], r.rest, r.inPaste) == Parsed([], r.rest, r.inPaste)
    decreases |t|
  {
    if t != [] && NextOf(t, inPaste).Take? {
      var next := NextOf(t, inPaste);
      LeftoverHoldsNoKey(keys + Keys(next.key), t[next.len..], next.inPaste);
    }
  }

  // ---- text -------------------------------------------------------------------------------------

  predicate Printable(c: char)
  {
    c >= ' ' && c != 0x7f as char
  }

  function TypedKeys(s: string): seq<Key>
  {
    if s == "" then [] else [Char(s[0])] + TypedKeys(s[1..])
  }

  function PastedKeys(s: string): seq<Key>
  {
    if s == "" then [] else [Char(if s[0] == '\r' || s[0] == '\n' then ' ' else s[0])] + PastedKeys(s[1..])
  }

  lemma EncodeHead(c: char, rest: seq<byte>)
    ensures Encode(c) != [] && Encode(c) + rest != []
    ensures (c as int) < 0x80 ==> (Encode(c) + rest)[0] as int == c as int
    ensures (c as int) >= 0x80 ==> (Encode(c) + rest)[0] >= 0xC0
  {
  }

  lemma OneKey(t: seq<byte>, tail: seq<byte>, k: Option<Key>, len: nat, inPaste: bool, after: bool)
    requires t != [] && NextOf(t, inPaste) == Take(k, len, after) && t[len..] == tail
    ensures ParseFrom([], t, inPaste) == Prepend(Keys(k), ParseFrom([], tail, after))
  {
    assert [] + Keys(k) == Keys(k) && Keys(k) + [] == Keys(k);
    KeysAccumulate(Keys(k), [], tail, after);
  }

  lemma OneTyped(c: char, tail: seq<byte>)
    requires Printable(c)
    ensures ParseFrom([], Encode(c) + tail, false) == Prepend([Char(c)], ParseFrom([], tail, false))
  {
    EncodeHead(c, tail);
    DecodesEncoded(c, tail);
    OneKey(Encode(c) + tail, tail, Some(Char(c)), |Encode(c)|, false, false);
  }

  lemma OnePasted(c: char, tail: seq<byte>)
    requires c as int != ESC as int
    ensures ParseFrom([], Encode(c) + tail, true) ==
            Prepend([Char(if c == '\r' || c == '\n' then ' ' else c)], ParseFrom([], tail, true))
  {
    EncodeHead(c, tail);
    DecodesEncoded(c, tail);
    OneKey(Encode(c) + tail, tail, Some(Char(if c == '\r' || c == '\n' then ' ' else c)), |Encode(c)|, true, true);
  }

  lemma PrependTwice(a: seq<Key>, b: seq<Key>, p: Parsed)
    ensures Prepend(a, Prepend(b, p)) == Prepend(a + b, p)
  {
    assert a + (b + p.keys) == (a + b) + p.keys;
  }

  /** Typed text comes out as its characters, whatever follows it. */
  lemma {:induction false} TypedTextIsRead(s: string, more: seq<byte>, t: seq<byte>)
    requires (forall i :: 0 <= i < |s| ==> Printable(s[i])) && t == EncodeAll(s) + more
    ensures ParseFrom([], t, false) == Prepend(TypedKeys(s), ParseFrom([], more, false))
    decreases |s|
  {
    if s == "" {
      assert t == more;
    } else {
      var tail := EncodeAll(s[1..]) + more;
      assert t == Encode(s[0]) + tail;
      OneTyped(s[0], tail);
      TypedTextIsRead(s[1..], more, tail);
      PrependTwice([Char(s[0])], TypedKeys(s[1..]), ParseFrom([], more, false));
    }
  }

  /** Pasted text without ESC comes out as characters only, line ends as spaces, up to and past the end marker. */
  lemma {:induction false} PastedTextIsRead(s: string, more: seq<byte>, t: seq<byte>)
    requires (forall i :: 0 <= i < |s| ==> s[i] as int != ESC as int) && t == EncodeAll(s) + PASTE_END + more
    ensures ParseFrom([], t, true) == Prepend(PastedKeys(s), ParseFrom([], more, false))
    decreases |s|
  {
    if s == "" {
      assert t == PASTE_END + more;
      OneKey(t, more, None, |PASTE_END|, true, false);
    } else {
      var tail := EncodeAll(s[1..]) + PASTE_END + more;
      assert t == Encode(s[0]) + tail;
      OnePasted(s[0], tail);
      PastedTextIsRead(s[1..], more, tail);
      PrependTwice([Char(if s[0] == '\r' || s[0] == '\n' then ' ' else s[0])], PastedKeys(s[1..]),
                   ParseFrom([], more, false));
    }
  }

  predicate NoSubmit(keys: seq<Key>)
  {
    forall k :: k in keys ==> k.Char? && k.c != '\r' && k.c != '\n'
  }

  /** The first n bytes of a paste gave these keys: all there is so far, or all before and with the end marker. */
  ghost predicate PastedUpTo(t: seq<byte>, pasted: seq<Key>, n: nat)
  {
    && n <= |t|
    && (|| ParseFrom([], t, true) == Parsed(pasted, t[n..], true)
        || (&& |PASTE_END| <= n && t[n - |PASTE_END|..n] == PASTE_END
            && ParseFrom([], t, true) == Prepend(pasted, ParseFrom([], t[n..], false))))
  }

  lemma PastedStep(t: seq<byte>, key: Option<Key>, len: nat, more: seq<Key>, m: nat)
    requires t != [] && NextPasted(t) == Take(key, len, true) && PastedUpTo(t[len..], more, m)
    ensures PastedUpTo(t, Keys(key) + more, len + m)
  {
    hide NextPasted, ParseFrom;
    OneKey(t, t[len..], key, len, true, true);
    assert t[len..][m..] == t[len + m..];
    PrependTwice(Keys(key), more, ParseFrom([], t[len + m..], false));
    assert |PASTE_END| <= m ==> t[len..][m - |PASTE_END|..m] == t[len + m - |PASTE_END|..len + m];
  }

  lemma PastedNothing(t: seq<byte>)
    requires t == [] || !NextPasted(t).Take?
    ensures PastedUpTo(t, [], 0)
  {
  }

  lemma PastedEnd(t: seq<byte>)
    requires PASTE_END <= t
    ensures PastedUpTo(t, [], |PASTE_END|)
  {
    OneKey(t, t[|PASTE_END|..], None, |PASTE_END|, true, false);
  }

  lemma PastedKey(t: seq<byte>)
    requires t != [] && NextPasted(t).Take?
    ensures NextPasted(t).inPaste ==> NoSubmit(Keys(NextPasted(t).key))
    ensures !NextPasted(t).inPaste ==> PASTE_END <= t
  {
  }

  /** Inside a paste nothing submits: up to the end marker every key is a character, and no line end. */
  lemma {:induction false} PasteNeverSubmits(t: seq<byte>) returns (pasted: seq<Key>, n: nat)
    ensures NoSubmit(pasted) && PastedUpTo(t, pasted, n)
    decreases |t|
  {
    hide PastedUpTo, NextPasted;
    pasted, n := [], 0;
    if t == [] || !NextPasted(t).Take? {
      PastedNothing(t);
    } else {
      var next := NextPasted(t);
      PastedKey(t);
      if next.inPaste {
        var more, m := PasteNeverSubmits(t[next.len..]);
        PastedStep(t, next.key, next.len, more, m);
        pasted, n := Keys(next.key) + more, next.len + m;
      } else {
        PastedEnd(t);
        n := |PASTE_END|;
      }
    }
  }

  // ---- input that nothing that follows completes ------------------------------------------------------

  /** What a caller can see of it: an ESC inside a paste that is no front of the end marker, or, anywhere else, bytes
      that are no front of a UTF-8 encoding. */
  predicate Stuck(t: seq<byte>, inPaste: bool)
    requires t != []
  {
    if t[0] == ESC then inPaste && !(t <= PASTE_END) && !(PASTE_END <= t) else !Begins(t)
  }

  /** Bytes that finish what is pending. */
  function Completion(t: seq<byte>, inPaste: bool): seq<byte>
    requires t != []
  {
    if t[0] != ESC then Missing(t)
    else if inPaste then (if t <= PASTE_END then PASTE_END[|t|..] else [])
    else if |t| == 1 then [0x5b, 0x41]
    else [0x41]
  }

  lemma MarkerGrows(marker: seq<byte>, t: seq<byte>, more: seq<byte>)
    requires marker <= t + more
    ensures marker <= t || t <= marker
  {
    if |marker| <= |t| {
      assert marker == (t + more)[..|marker|] == t[..|marker|];
    } else {
      assert t == (t + more)[..|t|] == marker[..|t|];
    }
  }

  lemma OtherHead(marker: seq<byte>, t: seq<byte>)
    requires marker != [] && t != [] && t[0] != marker[0]
    ensures !(marker <= t)
  {
  }

  lemma NoMarkerYet(t: seq<byte>)
    requires !(PASTE_START <= t)
    ensures !(PASTE_START <= t + [0x41])
  {
    var n := |PASTE_START|;
    assert |t| >= n ==> (t + [0x41])[..n] == t[..n];
    assert |t| == n - 1 ==> (t + [0x41])[n - 1] == 0x41;
  }

  lemma StuckWaits(t: seq<byte>, more: seq<byte>, inPaste: bool)
    requires t != [] && Stuck(t, inPaste)
    ensures NextOf(t + more, inPaste).Wait?
  {
    var whole := t + more;
    assert whole[0] == t[0];
    if t[0] == ESC {
      if PASTE_END <= whole {
        MarkerGrows(PASTE_END, t, more);
      }
    } else {
      OtherHead(PASTE_END, whole);
      if ConsumeChar(whole).Some? {
        ConsumedBegins(t, more);
      }
    }
  }

  lemma EscapeCompletes(t: seq<byte>)
    requires t != [] && t[0] == ESC && NextTyped(t).Wait?
    ensures NextTyped(t + Completion(t, false)).Take?
    ensures NextTyped(t + Completion(t, false)).len == |t + Completion(t, false)|
  {
    var whole := t + Completion(t, false);
    if |t| == 1 {
      assert whole == [ESC, 0x5b, 0x41];
      assert whole[2..] == [0x41];
    } else {
      assert whole[0] == ESC && whole[1] == t[1] && whole[|t|] == 0x41;
      NoMarkerYet(t);
      assert whole[2..] == t[2..] + [0x41];
      ParamsEnd(t[2..]);
    }
  }

  lemma ParamsEnd(t: seq<byte>)
    requires Params(t) == |t|
    ensures Params(t + [0x41]) == |t|
  {
    if t != [] {
      assert (t + [0x41])[1..] == t[1..] + [0x41];
      ParamsEnd(t[1..]);
    }
  }

  lemma Completes(t: seq<byte>, inPaste: bool)
    requires t != [] && NextOf(t, inPaste).Wait? && !Stuck(t, inPaste)
    ensures var whole := t + Completion(t, inPaste);
            NextOf(whole, inPaste).Take? && NextOf(whole, inPaste).len == |whole|
  {
    var whole := t + Completion(t, inPaste);
    assert whole[0] == t[0];
    if t[0] != ESC {
      MissingCompletes(t);
      OtherHead(PASTE_END, whole);
    } else if inPaste {
      assert whole == PASTE_END;
    } else {
      EscapeCompletes(t);
    }
  }

  /** The exact condition under which no further input decides what pending bytes mean. */
  lemma StuckIsExact(t: seq<byte>, inPaste: bool)
    requires t != []
    ensures (forall more :: NextOf(t + more, inPaste).Wait?) <==> Stuck(t, inPaste)
  {
    if Stuck(t, inPaste) {
      forall more ensures NextOf(t + more, inPaste).Wait? {
        StuckWaits(t, more, inPaste);
      }
    } else if NextOf(t, inPaste).Wait? {
      Completes(t, inPaste);
      assert NextOf(t + Completion(t, inPaste), inPaste).Take?;
    } else {
      assert t + [] == t;
      assert NextOf(t + [], inPaste).Take?;
    }
  }

  /** What has been read so far is all that will ever be read, whatever follows, exactly when the bytes left pending
      are stuck. */
  lemma StreamStopsExactly(t: seq<byte>, inPaste: bool)
    ensures var r := ParseFrom([], t, inPaste);
            (forall more :: ParseFrom([], t + more, inPaste).keys == r.keys)
            <==> r.rest != [] && Stuck(r.rest, r.inPaste)
  {
    var r := ParseFrom([], t, inPaste);
    if r.rest != [] && Stuck(r.rest, r.inPaste) {
      forall more ensures ParseFrom([], t + more, inPaste).keys == r.keys {
        TwoChunks(t, more, inPaste);
        StuckWaits(r.rest, more, r.inPaste);
      }
    } else {
      LeftoverWaits([], t, inPaste);
      var more := MoreKeys(r.rest, r.inPaste);
      TwoChunks(t, more, inPaste);
      assert ParseFrom([], t + more, inPaste).keys != r.keys;
    }
  }

  lemma {:induction false} LeftoverWaits(keys: seq<Key>, t: seq<byte>, inPaste: bool)
    ensures var r := ParseFrom(keys, t, inPaste);
            r.rest == [] || NextOf(r.rest, r.inPaste).Wait?
    decreases |t|
  {
    if t != [] && NextOf(t, inPaste).Take? {
      var next := NextOf(t, inPaste);
      LeftoverWaits(keys + Keys(next.key), t[next.len..], next.inPaste);
    }
  }

  lemma MoreKeys(t: seq<byte>, inPaste: bool) returns (more: seq<byte>)
    requires t == [] || (NextOf(t, inPaste).Wait? && !Stuck(t, inPaste))
    ensures ParseFrom([], t + more, inPaste).keys != []
  {
    if t == [] {
      more := [0x61];
      assert t + more == [0x61];
      LetterIsRead(inPaste);
    } else {
      Completes(t, inPaste);
      var whole := t + Completion(t, inPaste);
      var next := NextOf(whole, inPaste);
      more := Completion(t, inPaste) + [0x61];
      assert t + more == whole + [0x61];
      NextIsStable(whole, [0x61], inPaste);
      LetterIsRead(next.inPaste);
      OneKey(whole + [0x61], [0x61], next.key, next.len, inPaste, next.inPaste);
    }
  }

  lemma LetterIsRead(inPaste: bool)
    ensures ParseFrom([], [0x61], inPaste).keys == [Char('a')]
  {
    OtherHead(PASTE_END, [0x61]);
    DecodesEncoded('a', []);
    assert Encode('a') + [] == [0x61];
    OneKey([0x61], [], Some(Char('a')), 1, inPaste, inPaste);
  }

  /** What can happen to the parser: input, or the timeout that flushes it. */
  datatype Call = Fed(bytes: seq<byte>) | Flushed

  function CallOne(s: State, c: Call): Parsed
  {
    match c
    case Fed(bytes) => ParseFrom([], s.pending + bytes, s.inPaste)
    case Flushed => ParseFrom([], if s.pending == [ESC] then [] else s.pending, s.inPaste)
  }

  function CallAll(s: State, calls: seq<Call>): Parsed
  {
    if calls == [] then Parsed([], s.pending, s.inPaste)
    else
      var first := CallAll(s, calls[..|calls| - 1]);
      Prepend(first.keys, CallOne(State(first.rest, first.inPaste), calls[|calls| - 1]))
  }

  /** Stuck bytes stop the parser for good: no sequence of feeds and flushes yields another key or leaves the mode. */
  lemma {:induction false} StuckForGood(s: State, calls: seq<Call>)
    requires s.pending != [] && Stuck(s.pending, s.inPaste)
    ensures var r := CallAll(s, calls);
            r.keys == [] && r.inPaste == s.inPaste && s.pending <= r.rest && Stuck(r.rest, r.inPaste)
    decreases |calls|
  {
    if calls != [] {
      StuckForGood(s, calls[..|calls| - 1]);
      var first := CallAll(s, calls[..|calls| - 1]);
      var bytes := if calls[|calls| - 1].Fed? then calls[|calls| - 1].bytes else [];
      StuckWaits(first.rest, bytes, s.inPaste);
      StuckGrows(first.rest, bytes, s.inPaste);
      assert first.rest + [] == first.rest;
    }
  }

  lemma StuckGrows(t: seq<byte>, more: seq<byte>, inPaste: bool)
    requires t != [] && Stuck(t, inPaste)
    ensures Stuck(t + more, inPaste)
  {
    forall rest ensures NextOf(t + more + rest, inPaste).Wait? {
      assert t + more + rest == t + (more + rest);
      StuckWaits(t, more + rest, inPaste);
    }
    StuckIsExact(t + more, inPaste);
  }

  /** Two such inputs: a byte that is in no UTF-8 text, in either mode, and an ESC inside a paste that is no marker. */
  lemma StuckExamples(more: seq<byte>, inPaste: bool)
    ensures ParseFrom([], [0xff] + more, inPaste) == Parsed([], [0xff] + more, inPaste)
    ensures ParseFrom([], [ESC, 0x61] + more, true) == Parsed([], [ESC, 0x61] + more, true)
  {
    StuckWaits([0xff], more, inPaste);
    OtherSecond();
    StuckWaits([ESC, 0x61], more, true);
  }

  lemma OtherSecond()
    ensures Stuck([ESC, 0x61], true)
  {
    assert [ESC, 0x61][1] != PASTE_END[1];
  }
}
