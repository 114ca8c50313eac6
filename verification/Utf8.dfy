/** UTF-8 as RFC 3629 defines it: the encoder, and the strict decoder of one character. */
module Utf8 {
  import opened Base

  newtype byte = x: int | 0 <= x < 256

  predicate Continuation(b: byte)
  {
    0x80 <= b < 0xC0
  }

  function Encode(c: char): seq<byte>
  {
    var n := c as int;
    if n < 0x80 then [n as byte]
    else if n < 0x800 then [(0xC0 + n / 64) as byte, (0x80 + n % 64) as byte]
    else if n < 0x10000 then [(0xE0 + n / 64 / 64) as byte, (0x80 + n / 64 % 64) as byte, (0x80 + n % 64) as byte]
    else [(0xF0 + n / 64 / 64 / 64) as byte, (0x80 + n / 64 / 64 % 64) as byte, (0x80 + n / 64 % 64) as byte, (0x80 + n % 64) as byte]
  }

  function EncodeAll(s: string): seq<byte>
  {
    if s == "" then [] else Encode(s[0]) + EncodeAll(s[1..])
  }

  /** The length a first byte announces; bytes that start no character count as one. */
  function Announced(first: byte): (len: nat)
    ensures 1 <= len <= 4
  {
    if 0xC0 <= first < 0xE0 then 2 else if 0xE0 <= first < 0xF0 then 3 else if 0xF0 <= first < 0xF8 then 4 else 1
  }

  function Decode2(a: byte, b: byte): Option<char>
  {
    if a >= 0xC2 && a < 0xE0 && Continuation(b) then Some(((a as int - 0xC0) * 64 + (b as int - 0x80)) as char) else None
  }

  function Decode3(a: byte, b: byte, c: byte): Option<char>
  {
    if a < 0xE0 || a >= 0xF0 || !Continuation(b) || !Continuation(c) then None
    else if (a == 0xE0 && b < 0xA0) || (a == 0xED && b >= 0xA0) then None
    else
      var n := ((a as int - 0xE0) * 64 + (b as int - 0x80)) * 64 + (c as int - 0x80);
      Some(n as char)
  }

  function Decode4(a: byte, b: byte, c: byte, d: byte): Option<char>
  {
    if a < 0xF0 || a >= 0xF5 || !Continuation(b) || !Continuation(c) || !Continuation(d) then None
    else if (a == 0xF0 && b < 0x90) || (a == 0xF4 && b >= 0x90) then None
    else
      var n := (((a as int - 0xF0) * 64 + (b as int - 0x80)) * 64 + (c as int - 0x80)) * 64 + (d as int - 0x80);
      Some(n as char)
  }

  datatype Consumed = Consumed(c: char, len: nat)

  /** The first character of the bytes, if its announced bytes are all there and well formed. */
  function ConsumeChar(t: seq<byte>): Option<Consumed>
    requires t != []
  {
    var len := Announced(t[0]);
    if len > |t| then None
    else
      var c := if len == 1 then (if t[0] < 0x80 then Some(t[0] as char) else None)
               else if len == 2 then Decode2(t[0], t[1])
               else if len == 3 then Decode3(t[0], t[1], t[2])
               else Decode4(t[0], t[1], t[2], t[3]);
      if c.Some? then Some(Consumed(c.value, len)) else None
  }

  lemma DecodesEncoded(c: char, rest: seq<byte>)
    ensures ConsumeChar(Encode(c) + rest) == Some(Consumed(c, |Encode(c)|))
  {
    var n := c as int;
    var t := Encode(c) + rest;
    Digit(n);
    Digit(n / 64);
    Digit(n / 64 / 64);
    if n < 0x80 {
    } else if n < 0x800 {
      assert t[0] as int == 0xC0 + n / 64 && t[1] as int == 0x80 + n % 64;
    } else if n < 0x10000 {
      assert t[0] as int == 0xE0 + n / 64 / 64 && t[1] as int == 0x80 + n / 64 % 64 && t[2] as int == 0x80 + n % 64;
    } else {
      assert t[0] as int == 0xF0 + n / 64 / 64 / 64 && t[1] as int == 0x80 + n / 64 / 64 % 64;
      assert t[2] as int == 0x80 + n / 64 % 64 && t[3] as int == 0x80 + n % 64;
    }
  }

  lemma Digit(n: nat)
    ensures n == (n / 64) * 64 + n % 64
  {
  }

  /** The number under the marks: six bits of each continuation byte, after the low bits of the first. */
  function Unmarked(first: nat, more: seq<byte>): nat
  {
    if more == [] then first else Unmarked(first, more[..|more| - 1]) * 64 + more[|more| - 1] as int % 64
  }

  /** The table of section 3 of RFC 3629: how many bytes, which marks, and that the bits under them are the code point. */
  lemma EncodingIsMarked(c: char)
    ensures var n, e := c as int, Encode(c);
            && |e| == (if n <= 0x7F then 1 else if n <= 0x7FF then 2 else if n <= 0xFFFF then 3 else 4)
            && (|e| == 1 ==> e[0] <= 0x7F)
            && (|e| == 2 ==> 0xC0 <= e[0] <= 0xDF) && (|e| == 3 ==> 0xE0 <= e[0] <= 0xEF) && (|e| == 4 ==> 0xF0 <= e[0] <= 0xF7)
            && (forall i :: 1 <= i < |e| ==> 0x80 <= e[i] <= 0xBF)
            && Unmarked(e[0] as int - [0, 0xC0, 0xE0, 0xF0][|e| - 1], e[1..]) == n
  {
    var n, e := c as int, Encode(c);
    Digit(n);
    Digit(n / 64);
    Digit(n / 64 / 64);
    if |e| > 1 {
      var tail, x := e[1..], 0x80 as byte;
      UnmarkedBytes(e[0] as int - [0, 0xC0, 0xE0, 0xF0][|e| - 1], e[1], if |e| > 2 then e[2] else x,
                    if |e| > 3 then e[3] else x);
      assert tail == if |e| == 2 then [e[1]] else if |e| == 3 then [e[1], e[2]] else [e[1], e[2], e[3]];
    }
  }

  lemma UnmarkedBytes(first: nat, a: byte, b: byte, c: byte)
    requires Continuation(a) && Continuation(b) && Continuation(c)
    ensures Unmarked(first, [a]) == first * 64 + (a as int - 0x80)
    ensures Unmarked(first, [a, b]) == (first * 64 + (a as int - 0x80)) * 64 + (b as int - 0x80)
    ensures Unmarked(first, [a, b, c]) ==
            ((first * 64 + (a as int - 0x80)) * 64 + (b as int - 0x80)) * 64 + (c as int - 0x80)
  {
    assert [a][..0] == [] && [a, b][..1] == [a] && [a, b, c][..2] == [a, b];
  }

  lemma Split(high: nat, low: nat)
    requires low < 64
    ensures (high * 64 + low) / 64 == high && (high * 64 + low) % 64 == low
  {
  }

  lemma Encodes2(a: byte, b: byte)
    requires Decode2(a, b).Some?
    ensures Encode(Decode2(a, b).value) == [a, b]
  {
    Split(a as int - 0xC0, b as int - 0x80);
  }

  lemma Encodes3(a: byte, b: byte, c: byte)
    requires Decode3(a, b, c).Some?
    ensures Encode(Decode3(a, b, c).value) == [a, b, c]
  {
    Split(a as int - 0xE0, b as int - 0x80);
    Split((a as int - 0xE0) * 64 + (b as int - 0x80), c as int - 0x80);
  }

  lemma Encodes4(a: byte, b: byte, c: byte, d: byte)
    requires Decode4(a, b, c, d).Some?
    ensures Encode(Decode4(a, b, c, d).value) == [a, b, c, d]
  {
    var high := (a as int - 0xF0) * 64 + (b as int - 0x80);
    Split(a as int - 0xF0, b as int - 0x80);
    Split(high, c as int - 0x80);
    Split(high * 64 + (c as int - 0x80), d as int - 0x80);
  }

  /** Only the encoding of a character decodes to it: no overlong form, no surrogate, nothing above U+10FFFF. */
  lemma EncodesDecoded(t: seq<byte>)
    requires t != [] && ConsumeChar(t).Some?
    ensures var r := ConsumeChar(t).value; r.len <= |t| && t[..r.len] == Encode(r.c)
  {
    hide Decode2, Decode3, Decode4;
    var len := Announced(t[0]);
    if len == 2 {
      Encodes2(t[0], t[1]);
    } else if len == 3 {
      Encodes3(t[0], t[1], t[2]);
    } else if len == 4 {
      Encodes4(t[0], t[1], t[2], t[3]);
    }
  }

  /** A character consumed from a prefix is consumed from the whole. */
  lemma ConsumeIsStable(t: seq<byte>, more: seq<byte>)
    requires t != [] && ConsumeChar(t).Some?
    ensures ConsumeChar(t + more) == ConsumeChar(t)
  {
  }

  // ---- bytes that no continuation makes a character ------------------------------------------------

  /** The second byte a first byte admits: no overlong form, no surrogate, nothing above U+10FFFF. */
  predicate Second(first: byte, b: byte)
  {
    if first == 0xE0 then 0xA0 <= b < 0xC0
    else if first == 0xED then 0x80 <= b < 0xA0
    else if first == 0xF0 then 0x90 <= b < 0xC0
    else if first == 0xF4 then 0x80 <= b < 0x90
    else Continuation(b)
  }

  /** The bytes can begin a character: each of the announced ones that is there is admitted. */
  predicate Begins(t: seq<byte>)
    requires t != []
  {
    && (t[0] < 0x80 || 0xC2 <= t[0] < 0xF5)
    && (Announced(t[0]) >= 2 && |t| >= 2 ==> Second(t[0], t[1]))
    && (Announced(t[0]) >= 3 && |t| >= 3 ==> Continuation(t[2]))
    && (Announced(t[0]) >= 4 && |t| >= 4 ==> Continuation(t[3]))
  }

  /** The announced bytes that are still missing, in one admitted form. */
  function Missing(t: seq<byte>): (more: seq<byte>)
    requires t != []
  {
    var len := Announced(t[0]);
    var second: byte := if t[0] == 0xE0 then 0xA0 else if t[0] == 0xF0 then 0x90 else 0x80;
    if |t| >= len then []
    else if |t| == 1 then [second, 0x80, 0x80][..len - 1]
    else [0x80, 0x80][..len - |t|]
  }

  lemma MissingCompletes(t: seq<byte>)
    requires t != [] && Begins(t)
    ensures ConsumeChar(t + Missing(t)).Some?
    ensures ConsumeChar(t).None? ==> ConsumeChar(t + Missing(t)).value.len == |t + Missing(t)|
  {
    var whole := t + Missing(t);
    assert whole[0] == t[0];
    if |t| < Announced(t[0]) {
      assert |whole| == Announced(t[0]);
      assert Second(whole[0], whole[1]);
      assert |whole| >= 3 ==> Continuation(whole[2]);
      assert |whole| == 4 ==> Continuation(whole[3]);
    } else {
      assert whole == t;
    }
  }

  lemma ConsumedBegins(t: seq<byte>, more: seq<byte>)
    requires t != [] && ConsumeChar(t + more).Some?
    ensures Begins(t)
  {
    assert (t + more)[0] == t[0];
    assert |t| >= 2 ==> (t + more)[1] == t[1];
    assert |t| >= 3 ==> (t + more)[2] == t[2];
    assert |t| >= 4 ==> (t + more)[3] == t[3];
  }

  /** Bytes can begin a character exactly when they are the front of some encoding or have one in front. */
  lemma BeginsIsExact(t: seq<byte>)
    requires t != []
    ensures Begins(t) <==> exists c :: t <= Encode(c) || Encode(c) <= t
  {
    hide Encode, ConsumeChar, Begins, Missing;
    if Begins(t) {
      MissingCompletes(t);
      var whole := t + Missing(t);
      EncodesDecoded(whole);
      var r := ConsumeChar(whole).value;
      assert t <= Encode(r.c) || Encode(r.c) <= t;
    }
    if c :| t <= Encode(c) || Encode(c) <= t {
      if t <= Encode(c) {
        DecodesEncoded(c, []);
        assert t + Encode(c)[|t|..] == Encode(c) + [];
        ConsumedBegins(t, Encode(c)[|t|..]);
      } else {
        DecodesEncoded(c, t[|Encode(c)|..]);
        assert Encode(c) + t[|Encode(c)|..] == t + [];
        ConsumedBegins(t, []);
      }
    }
  }

  /** Different texts have different bytes. */
  lemma {:induction false} EncodeAllIsInjective(s: string, t: string)
    requires EncodeAll(s) == EncodeAll(t)
    ensures s == t
    decreases |s|
  {
    if s != "" {
      DecodesEncoded(s[0], EncodeAll(s[1..]));
    }
    if t != "" {
      DecodesEncoded(t[0], EncodeAll(t[1..]));
    }
    if s != "" && t != "" {
      var n := |Encode(s[0])|;
      assert EncodeAll(s)[n..] == EncodeAll(s[1..]);
      assert EncodeAll(t)[n..] == EncodeAll(t[1..]);
      EncodeAllIsInjective(s[1..], t[1..]);
      assert s == [s[0]] + s[1..] && t == [t[0]] + t[1..];
    }
  }
}
