/** Which bytes are which key, whatever comes after them. */
module KeyCodes {
  import opened Base
  import opened Utf8
  import opened KeyParser

  const CONTROLS: map<byte, Key> :=
    map[0x0d := Enter, 0x0a := Enter, 0x03 := CtrlC, 0x04 := CtrlD, 0x7f := Backspace]

  const FINALS: map<byte, Key> :=
    map[0x41 := Up, 0x42 := Down, 0x43 := Right, 0x44 := Left, 0x48 := Home, 0x46 := End]

  const NUMBERED: map<seq<byte>, Key> :=
    map[[0x31] := Home, [0x37] := Home, [0x34] := End, [0x38] := End, [0x33] := Delete]

  /** The key of a control sequence: by its final byte, or, before a tilde, by its one number. */
  function Named(params: seq<byte>, final: byte): seq<Key>
  {
    if final in FINALS then [FINALS[final]]
    else if final == 0x7e && params in NUMBERED then [NUMBERED[params]]
    else []
  }

  /** The bytes of a parameter: digits and semicolons. */
  predicate Parameters(params: seq<byte>)
  {
    forall i :: 0 <= i < |params| ==> 0x30 <= params[i] <= 0x39 || params[i] == 0x3b
  }

  /** One control byte is its key, or none, and the parser goes on with the rest. */
  lemma ControlByteIsKey(keys: seq<Key>, b: byte, more: seq<byte>)
    requires (b < 0x20 || b == 0x7f) && b != 0x1b
    ensures ParseFrom(keys, [b] + more, false) ==
            ParseFrom(keys + (if b in CONTROLS then [CONTROLS[b]] else []), more, false)
  {
    ParseStep(keys, [b] + more, false);
    assert ([b] + more)[1..] == more;
  }

  /** An ESC that introduces no control sequence is dropped. */
  lemma StrayEscIsDropped(keys: seq<Key>, b: byte, more: seq<byte>)
    requires b != 0x5b && b != 0x4f
    ensures ParseFrom(keys, [0x1b, b] + more, false) == ParseFrom(keys, [b] + more, false)
  {
    var t := [0x1b, b] + more;
    assert t[0] == ESC && t[1] == b && !(PASTE_START <= t);
    ParseStep(keys, t, false);
    assert t[1..] == [b] + more && keys + [] == keys;
  }

  lemma ParamsRun(params: seq<byte>, final: byte, more: seq<byte>)
    requires Parameters(params) && !Parameters([final])
    ensures Params(params + [final] + more) == |params|
  {
    if params == [] {
      assert (params + [final] + more)[0] == final && [final][0] == final;
    } else {
      assert (params + [final] + more)[1..] == params[1..] + [final] + more;
      ParamsRun(params[1..], final, more);
    }
  }

  lemma MarkerIsSequence(intro: byte, params: seq<byte>, final: byte, more: seq<byte>)
    requires Parameters(params) && !Parameters([final])
    ensures PASTE_START <= [0x1b, intro] + params + [final] + more ==>
              intro == 0x5b && params == [0x32, 0x30, 0x30] && final == 0x7e
  {
    var t := [0x1b, intro] + params + [final] + more;
    if PASTE_START <= t {
      var digits: seq<byte> := [0x32, 0x30, 0x30];
      var tilde: seq<byte> := [0x7e];
      assert t[1] == intro && t[2..] == params + [final] + more;
      assert t[2..] == digits + tilde + t[6..];
      assert tilde[0] == 0x7e;
      SameRun(params, final, more, digits, 0x7e, t[6..]);
    }
  }

  /** Parameters and the byte that ends them are found in one way only. */
  lemma SameRun(params: seq<byte>, final: byte, more: seq<byte>, digits: seq<byte>, last: byte, rest: seq<byte>)
    requires Parameters(params) && !Parameters([final]) && Parameters(digits) && !Parameters([last])
    requires params + [final] + more == digits + [last] + rest
    ensures params == digits && final == last
  {
    ParamsRun(params, final, more);
    ParamsRun(digits, last, rest);
    hide Params, Parameters;
    var u, v := params + [final] + more, digits + [last] + rest;
    assert u[..|params|] == params && v[..|digits|] == digits;
    assert u[|params|] == final && v[|digits|] == last;
  }

  lemma NamedIsKey(params: seq<byte>, final: byte)
    ensures Keys(CsiKey(params, final)) == Named(params, final)
  {
  }

  lemma TakesSequence(intro: byte, params: seq<byte>, final: byte, more: seq<byte>)
    requires (intro == 0x5b || intro == 0x4f) && Parameters(params) && !Parameters([final])
    requires !(intro == 0x5b && params == [0x32, 0x30, 0x30] && final == 0x7e)
    ensures NextOf([0x1b, intro] + params + [final] + more, false) == Take(CsiKey(params, final), |params| + 3, false)
  {
    var t := [0x1b, intro] + params + [final] + more;
    MarkerIsSequence(intro, params, final, more);
    ParamsRun(params, final, more);
    hide CsiKey, ConsumeChar, Parameters, Params;
    assert t[0] == 0x1b && t[1] == intro;
    assert t[2..] == params + [final] + more;
    var n := |params|;
    assert t[2..2 + n] == params && t[2 + n] == final;
  }

  /** ESC [ or ESC O, parameters and a final byte are taken whole for the named key, or none, and the parser goes on with
      the rest; only ESC [ 200 ~ is something else. */
  lemma SequenceIsKey(keys: seq<Key>, intro: byte, params: seq<byte>, final: byte, more: seq<byte>)
    requires (intro == 0x5b || intro == 0x4f) && Parameters(params) && !Parameters([final])
    requires !(intro == 0x5b && params == [0x32, 0x30, 0x30] && final == 0x7e)
    ensures ParseFrom(keys, [0x1b, intro] + params + [final] + more, false) ==
            ParseFrom(keys + Named(params, final), more, false)
  {
    var t := [0x1b, intro] + params + [final] + more;
    TakesSequence(intro, params, final, more);
    NamedIsKey(params, final);
    assert t[|params| + 3..] == more;
    hide CsiKey, Named, NextOf, Parameters;
    ParseStep(keys, t, false);
  }

  /** ESC [ 200 ~ begins a paste and ESC [ 201 ~ ends it. */
  lemma MarkersSwitchMode(keys: seq<Key>, more: seq<byte>)
    ensures ParseFrom(keys, [0x1b, 0x5b, 0x32, 0x30, 0x30, 0x7e] + more, false) == ParseFrom(keys, more, true)
    ensures ParseFrom(keys, [0x1b, 0x5b, 0x32, 0x30, 0x31, 0x7e] + more, true) == ParseFrom(keys, more, false)
  {
    var s, e := [0x1b, 0x5b, 0x32, 0x30, 0x30, 0x7e] + more, [0x1b, 0x5b, 0x32, 0x30, 0x31, 0x7e] + more;
    assert PASTE_START <= s && PASTE_END <= e && s[6..] == more && e[6..] == more && keys + [] == keys;
    ParseStep(keys, s, false);
    ParseStep(keys, e, true);
  }

  /** A control sequence cut short waits for its final byte, and yields nothing yet. */
  lemma UnfinishedSequenceWaits(keys: seq<Key>, intro: byte, params: seq<byte>)
    requires (intro == 0x5b || intro == 0x4f) && Parameters(params)
    ensures ParseFrom(keys, [0x1b, intro] + params, false) == Parsed(keys, [0x1b, intro] + params, false)
    ensures ParseFrom(keys, [0x1b], false) == Parsed(keys, [0x1b], false)
  {
    var t := [0x1b, intro] + params;
    assert t[2..] == params;
    assert |t| > 5 ==> t[5] == params[3] && t[5] != PASTE_START[5];
    assert !(PASTE_START <= t);
    ParamsAll(params);
    ParseStep(keys, t, false);
    ParseStep(keys, [0x1b], false);
  }
}
