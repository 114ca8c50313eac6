/** Strict JSON texts, of any number form and depth, pass the key repair unchanged. */
module StrictText {
  import opened Base
  import opened Json
  import opened Chars
  import opened TextRepair
  import opened TextRepairTheorems

  // ---- the grammar of RFC 8259, as a recogniser -------------------------------------------

  predicate HeadIs(t: string, c: char)
  {
    t != "" && t[0] == c
  }

  function ReadExponent(t: string): (r: Option<string>)
    ensures r.Some? ==> |r.value| <= |t|
  {
    if HeadIs(t, 'e') || HeadIs(t, 'E') then
      var v := if HeadIs(t[1..], '+') || HeadIs(t[1..], '-') then t[2..] else t[1..];
      if DigitRun(v) == 0 then None else Some(v[DigitRun(v)..])
    else Some(t)
  }

  function ReadFraction(t: string): (r: Option<string>)
    ensures r.Some? ==> |r.value| <= |t|
  {
    if HeadIs(t, '.') then
      var k := DigitRun(t[1..]);
      if k == 0 then None else ReadExponent(t[1 + k..])
    else ReadExponent(t)
  }

  function ReadNumber(t: string): (r: Option<string>)
    ensures r.Some? ==> |r.value| < |t|
  {
    var u := if HeadIs(t, '-') then t[1..] else t;
    var k := DigitRun(u);
    if k == 0 || (k > 1 && u[0] == '0') then None else ReadFraction(u[k..])
  }

  function ReadString(t: string): (r: Option<string>)
    ensures r.Some? ==> |r.value| < |t|
  {
    if HeadIs(t, '"') && ParseChars(t[1..], true).Got? then Some(ParseChars(t[1..], true).rest) else None
  }

  function ReadScalar(t: string): (r: Option<string>)
    ensures r.Some? ==> |r.value| < |t|
  {
    if "null" <= t || "true" <= t then Some(t[4..])
    else if "false" <= t then Some(t[5..])
    else if HeadIs(t, '"') then ReadString(t)
    else ReadNumber(t)
  }

  function ReadValue(t: string): (r: Option<string>)
    ensures r.Some? ==> |r.value| < |t|
    decreases |t|, 0
  {
    var u := SkipWs(t);
    if HeadIs(u, '[') then
      (if HeadIs(SkipWs(u[1..]), ']') then Some(SkipWs(u[1..])[1..]) else ReadElements(u[1..]))
    else if HeadIs(u, '{') then
      (if HeadIs(SkipWs(u[1..]), '}') then Some(SkipWs(u[1..])[1..]) else ReadMembers(u[1..]))
    else ReadScalar(u)
  }

  function ReadElements(t: string): (r: Option<string>)
    ensures r.Some? ==> |r.value| < |t|
    decreases |t|, 1
  {
    match ReadValue(t)
    case None => None
    case Some(rest) =>
      var u := SkipWs(rest);
      if HeadIs(u, ']') then Some(u[1..]) else if HeadIs(u, ',') then ReadElements(u[1..]) else None
  }

  function ReadName(t: string): (r: Option<string>)
    ensures r.Some? ==> |r.value| < |t|
  {
    match ReadString(SkipWs(t))
    case None => None
    case Some(rest) => if HeadIs(SkipWs(rest), ':') then Some(SkipWs(rest)[1..]) else None
  }

  function ReadMembers(t: string): (r: Option<string>)
    ensures r.Some? ==> |r.value| < |t|
    decreases |t|, 1
  {
    match ReadName(t)
    case None => None
    case Some(value) =>
      match ReadValue(value)
      case None => None
      case Some(rest) =>
        var u := SkipWs(rest);
        if HeadIs(u, '}') then Some(u[1..]) else if HeadIs(u, ',') then ReadMembers(u[1..]) else None
  }

  /** One JSON value and nothing but white space around it. */
  predicate IsStrict(t: string)
  {
    ReadValue(t).Some? && SkipWs(ReadValue(t).value) == ""
  }

  // ---- passing through ---------------------------------------------------------------------

  /** The repair copies the text up to the given rest. */
  predicate Passes(t: string, rest: string)
  {
    |rest| <= |t| && t[|t| - |rest|..] == rest && QuoteKeys(t) == t[..|t| - |rest|] + QuoteKeys(rest)
  }

  lemma PassAll(t: string)
    ensures Passes(t, t)
  {
  }

  lemma SuffixesJoin(t: string, u: string, v: string)
    requires |v| <= |u| <= |t| && t[|t| - |u|..] == u && u[|u| - |v|..] == v
    ensures t[|t| - |v|..] == v
    ensures t[..|t| - |v|] == t[..|t| - |u|] + u[..|u| - |v|]
  {
  }

  lemma PassOn(t: string, u: string, v: string)
    requires Passes(t, u) && Passes(u, v)
    ensures Passes(t, v)
  {
    SuffixesJoin(t, u, v);
    Append(t[..|t| - |u|], u[..|u| - |v|], QuoteKeys(v));
  }

  lemma PassPiece(t: string, piece: string, rest: string)
    requires t == piece + rest && QuoteKeys(t) == piece + QuoteKeys(rest)
    ensures Passes(t, rest)
  {
    assert t[|t| - |rest|..] == rest && t[..|t| - |rest|] == piece;
  }

  lemma PassOne(t: string)
    requires t != "" && t[0] != '"' && !WordStart(t[0])
    ensures Passes(t, t[1..])
  {
    OneOther(t[0], t[1..]);
    assert t == [t[0]] + t[1..];
    PassPiece(t, [t[0]], t[1..]);
  }

  lemma {:induction false} PassWs(t: string)
    ensures Passes(t, SkipWs(t))
  {
    if t != "" && IsSpace(t[0]) {
      PassOne(t);
      PassWs(t[1..]);
      PassOn(t, t[1..], SkipWs(t[1..]));
    } else {
      PassAll(t);
    }
  }

  lemma {:induction false} PassDigits(t: string)
    ensures Passes(t, t[DigitRun(t)..])
  {
    if t != "" && AsciiDigit(t[0]) {
      PassOne(t);
      PassDigits(t[1..]);
      assert t[DigitRun(t)..] == t[1..][DigitRun(t[1..])..];
      PassOn(t, t[1..], t[1..][DigitRun(t[1..])..]);
    } else {
      assert t[0..] == t;
      PassAll(t);
    }
  }

  // ---- strings ----------------------------------------------------------------------------------

  lemma HexEnd(t: string)
    requires Hex4(t).Got?
    ensures StringEnd(t, false) == 4 + StringEnd(t[4..], false)
  {
    assert forall i :: 0 <= i < 4 ==> t[i] != '"' && t[i] != '\\';
    assert t[1..][1..] == t[2..] && t[2..][1..] == t[3..] && t[3..][1..] == t[4..];
    assert StringEnd(t, false) == 1 + StringEnd(t[1..], false);
    assert StringEnd(t[1..], false) == 1 + StringEnd(t[2..], false);
    assert StringEnd(t[2..], false) == 1 + StringEnd(t[3..], false);
    assert StringEnd(t[3..], false) == 1 + StringEnd(t[4..], false);
  }

  lemma UnicodeEnd(t: string)
    requires ParseUnicode(t).Got?
    ensures var rest := ParseUnicode(t).rest;
            t[|t| - |rest|..] == rest && StringEnd(t, false) == |t| - |rest| + StringEnd(rest, false)
  {
    HexEnd(t);
    var rest := t[4..];
    if ParseUnicode(t).rest != rest {
      HexEnd(rest[2..]);
      assert rest[1..][1..] == rest[2..];
      assert StringEnd(rest, false) == 1 + StringEnd(rest[1..], true);
      assert StringEnd(rest[1..], true) == 1 + StringEnd(rest[2..], false);
    }
  }

  lemma EscapedChar(t: string)
    requires t != ""
    ensures StringEnd(t, true) == 1 + StringEnd(t[1..], false)
  {
  }

  lemma SuffixOf(t: string, n: nat, rest: string)
    requires n <= |t| && |rest| <= |t| - n && t[n..][|t| - n - |rest|..] == rest
    ensures t[|t| - |rest|..] == rest
  {
  }

  lemma EscapeRest(t: string)
    requires ParseEscape(t).Got?
    ensures ParseEscape(t).rest == if t[0] == 'u' then ParseUnicode(t[1..]).rest else t[1..]
    ensures t[0] == 'u' ==> ParseUnicode(t[1..]).Got?
  {
  }

  lemma EscapeEnd(t: string, rest: string)
    requires ParseEscape(t).Got? && rest == ParseEscape(t).rest
    ensures t[|t| - |rest|..] == rest && StringEnd(t, true) == |t| - |rest| + StringEnd(rest, false)
  {
    EscapedChar(t);
    EscapeRest(t);
    if t[0] == 'u' {
      UnicodeEnd(t[1..]);
      SuffixOf(t, 1, rest);
    }
  }

  /** A string ends for the repair where it ends for the parser. */
  lemma {:induction false} CharsEnd(t: string)
    requires ParseChars(t, true).Got?
    ensures var rest := ParseChars(t, true).rest;
            t[|t| - |rest|..] == rest && StringEnd(t, false) == |t| - |rest|
    decreases |t|
  {
    if t[0] == '"' {
    } else if t[0] == '\\' {
      EscapeEnd(t[1..], ParseEscape(t[1..]).rest);
      CharsEnd(ParseEscape(t[1..]).rest);
    } else {
      CharsEnd(t[1..]);
    }
  }

  lemma PassString(t: string)
    requires ReadString(t).Some?
    ensures Passes(t, ReadString(t).value)
  {
    var rest := ReadString(t).value;
    CharsEnd(t[1..]);
    var n := StringEnd(t[1..], false);
    assert t[1 + n..] == rest;
    assert NextToken(t) == Literal(t[..1 + n]);
    assert t == t[..1 + n] + rest;
    PassPiece(t, t[..1 + n], rest);
  }

  // ---- words and numbers ----------------------------------------------------------------------------

  /** What may follow a number or a literal name. */
  predicate Follow(rest: string)
  {
    (rest == "" || !WordChar(rest[0])) && !ColonNext(rest)
  }

  lemma PassWord(t: string, name: string, rest: string)
    requires t == name + rest && Follow(rest)
    requires name != "" && WordStart(name[0]) && forall i :: 0 <= i < |name| ==> WordChar(name[i])
    ensures Passes(t, rest)
  {
    WordStands(name, rest);
    PassPiece(t, name, rest);
  }

  lemma PassSigned(t: string)
    requires t != "" && (t[0] == 'e' || t[0] == 'E') && (HeadIs(t[1..], '+') || HeadIs(t[1..], '-'))
    ensures Passes(t, t[2..])
  {
    var signed := t[1..];
    assert t == [t[0]] + signed && signed[1..] == t[2..];
    assert WhiteLength(signed) == 0;
    PassWord(t, [t[0]], signed);
    PassOne(signed);
    PassOn(t, signed, t[2..]);
  }

  lemma PassUnsigned(t: string, k: nat)
    requires t != "" && (t[0] == 'e' || t[0] == 'E') && k == DigitRun(t[1..]) && Follow(t[1 + k..])
    ensures Passes(t, t[1 + k..])
  {
    assert t == t[..1 + k] + t[1 + k..];
    assert forall i :: 0 < i < 1 + k ==> t[i] == t[1..][i - 1];
    PassWord(t, t[..1 + k], t[1 + k..]);
  }

  lemma PassExponent(t: string)
    requires ReadExponent(t).Some? && Follow(ReadExponent(t).value)
    ensures Passes(t, ReadExponent(t).value)
  {
    if HeadIs(t, 'e') || HeadIs(t, 'E') {
      if HeadIs(t[1..], '+') || HeadIs(t[1..], '-') {
        PassSigned(t);
        PassDigits(t[2..]);
        PassOn(t, t[2..], ReadExponent(t).value);
      } else {
        var k := DigitRun(t[1..]);
        assert t[1..][k..] == t[1 + k..];
        PassUnsigned(t, k);
      }
    } else {
      PassAll(t);
    }
  }

  lemma PassPoint(t: string, k: nat)
    requires HeadIs(t, '.') && k == DigitRun(t[1..])
    ensures Passes(t, t[1 + k..])
  {
    PassOne(t);
    PassDigits(t[1..]);
    assert t[1..][k..] == t[1 + k..];
    PassOn(t, t[1..], t[1 + k..]);
  }

  lemma PassFraction(t: string)
    requires ReadFraction(t).Some? && Follow(ReadFraction(t).value)
    ensures Passes(t, ReadFraction(t).value)
  {
    if HeadIs(t, '.') {
      var k := DigitRun(t[1..]);
      PassPoint(t, k);
      PassExponent(t[1 + k..]);
      PassOn(t, t[1 + k..], ReadFraction(t).value);
    } else {
      PassExponent(t);
    }
  }

  lemma PassUnsignedNumber(u: string, rest: string)
    requires ReadFraction(u[DigitRun(u)..]) == Some(rest) && Follow(rest)
    ensures Passes(u, rest)
  {
    PassDigits(u);
    PassFraction(u[DigitRun(u)..]);
    PassOn(u, u[DigitRun(u)..], rest);
  }

  lemma PassNumber(t: string)
    requires ReadNumber(t).Some? && Follow(ReadNumber(t).value)
    ensures Passes(t, ReadNumber(t).value)
  {
    if HeadIs(t, '-') {
      PassOne(t);
      PassUnsignedNumber(t[1..], ReadNumber(t).value);
      PassOn(t, t[1..], ReadNumber(t).value);
    } else {
      PassUnsignedNumber(t, ReadNumber(t).value);
    }
  }

  lemma PassScalar(t: string)
    requires ReadScalar(t).Some? && Follow(ReadScalar(t).value)
    ensures Passes(t, ReadScalar(t).value)
  {
    if "null" <= t || "true" <= t {
      PassWord(t, t[..4], t[4..]);
    } else if "false" <= t {
      PassWord(t, t[..5], t[5..]);
    } else if HeadIs(t, '"') {
      PassString(t);
    } else {
      PassNumber(t);
    }
  }

  // ---- values -----------------------------------------------------------------------------------------

  lemma {:induction false} SkipWhiteAlike(t: string)
    ensures ColonNext(SkipWs(t)) <==> ColonNext(t)
  {
    if t != "" && IsSpace(t[0]) {
      SkipWhiteAlike(t[1..]);
      ColonAfterWhite(t[0], t[1..]);
      assert t == [t[0]] + t[1..];
    }
  }

  /** After white space comes nothing, or a comma or closing bracket: then a value may end here. */
  lemma FollowsValue(rest: string)
    requires SkipWs(rest) == "" || SkipWs(rest)[0] in {',', ']', '}'}
    ensures Follow(rest)
  {
    SkipWhiteAlike(rest);
    assert rest != "" && !IsSpace(rest[0]) ==> SkipWs(rest) == rest;
  }

  /** Past white space and one character behind it. */
  lemma PassWsOne(t: string)
    requires SkipWs(t) != "" && SkipWs(t)[0] != '"' && !WordStart(SkipWs(t)[0])
    ensures Passes(t, SkipWs(t)[1..])
  {
    PassWs(t);
    PassOne(SkipWs(t));
    PassOn(t, SkipWs(t), SkipWs(t)[1..]);
  }

  lemma {:induction false} PassValue(t: string)
    requires ReadValue(t).Some? && Follow(ReadValue(t).value)
    ensures Passes(t, ReadValue(t).value)
    decreases |t|, 0
  {
    var u, rest := SkipWs(t), ReadValue(t).value;
    if HeadIs(u, '[') {
      PassWsOne(t);
      if HeadIs(SkipWs(u[1..]), ']') {
        PassWsOne(u[1..]);
      } else {
        PassElements(u[1..]);
      }
      PassOn(t, u[1..], rest);
    } else if HeadIs(u, '{') {
      PassWsOne(t);
      if HeadIs(SkipWs(u[1..]), '}') {
        PassWsOne(u[1..]);
      } else {
        PassMembers(u[1..]);
      }
      PassOn(t, u[1..], rest);
    } else {
      PassWs(t);
      PassScalar(u);
      PassOn(t, u, rest);
    }
  }

  lemma {:induction false} PassElements(t: string)
    requires ReadElements(t).Some?
    ensures Passes(t, ReadElements(t).value)
    decreases |t|, 1
  {
    var rest := ReadValue(t).value;
    FollowsValue(rest);
    PassValue(t);
    PassClosing(t, rest);
    var u := SkipWs(rest);
    if HeadIs(u, ',') {
      PassElements(u[1..]);
      PassOn(t, u[1..], ReadElements(t).value);
    }
  }

  /** From the end of a value past the comma or bracket behind it. */
  lemma PassClosing(t: string, rest: string)
    requires Passes(t, rest) && SkipWs(rest) != "" && SkipWs(rest)[0] in {',', ']', '}'}
    ensures Passes(t, SkipWs(rest)[1..])
  {
    PassWsOne(rest);
    PassOn(t, rest, SkipWs(rest)[1..]);
  }

  lemma PassWsString(t: string)
    requires ReadString(SkipWs(t)).Some?
    ensures Passes(t, ReadString(SkipWs(t)).value)
  {
    PassWs(t);
    PassString(SkipWs(t));
    PassOn(t, SkipWs(t), ReadString(SkipWs(t)).value);
  }

  lemma PassName(t: string)
    requires ReadName(t).Some?
    ensures Passes(t, ReadName(t).value)
  {
    var rest := ReadString(SkipWs(t)).value;
    PassWsString(t);
    PassWsOne(rest);
    PassOn(t, rest, SkipWs(rest)[1..]);
  }

  lemma {:induction false} PassMembers(t: string)
    requires ReadMembers(t).Some?
    ensures Passes(t, ReadMembers(t).value)
    decreases |t|, 1
  {
    var value := ReadName(t).value;
    var rest := ReadValue(value).value;
    PassName(t);
    FollowsValue(rest);
    PassValue(value);
    PassOn(t, value, rest);
    PassClosing(t, rest);
    var u := SkipWs(rest);
    if HeadIs(u, ',') {
      PassMembers(u[1..]);
      PassOn(t, u[1..], ReadMembers(t).value);
    }
  }

  /** Every strict JSON text, whatever its numbers, names and depth, is left exactly as it is. */
  lemma StrictTextStands(t: string)
    requires IsStrict(t)
    ensures QuoteKeys(t) == t
  {
    var rest := ReadValue(t).value;
    FollowsValue(rest);
    PassValue(t);
    PassWs(rest);
    PassOn(t, rest, "");
    assert t[..|t|] == t && t + "" == t;
  }

  // ---- what the duplicate-free parser accepts is strict ------------------------------------------------

  lemma NumberIsRead(t: string)
    requires ParseNumber(t).Got?
    ensures ReadNumber(t) == Some(ParseNumber(t).rest)
  {
    var u := if HeadIs(t, '-') then t[1..] else t;
    assert ParseNat(u).Got?;
    assert ReadFraction(u[DigitRun(u)..]) == Some(u[DigitRun(u)..]);
  }

  lemma {:induction false} ValueIsRead(t: string)
    requires ParseValue(t).Got?
    ensures ReadValue(t) == Some(ParseValue(t).rest)
    decreases |t|, 0
  {
    var u := SkipWs(t);
    if HeadIs(u, '[') {
      if !HeadIs(SkipWs(u[1..]), ']') {
        ElementsAreRead(u[1..]);
      }
    } else if HeadIs(u, '{') {
      if !HeadIs(SkipWs(u[1..]), '}') {
        MembersAreRead(u[1..], {});
      }
    } else if ParseNumber(u).Got? {
      NumberIsRead(u);
    }
  }

  lemma {:induction false} ElementsAreRead(t: string)
    requires ParseElements(t).Got?
    ensures ReadElements(t) == Some(ParseElements(t).rest)
    decreases |t|, 1
  {
    ValueIsRead(t);
    var u := SkipWs(ParseValue(t).rest);
    if HeadIs(u, ',') {
      ElementsAreRead(u[1..]);
    }
  }

  lemma NameIsRead(t: string)
    requires ParseName(t).Got?
    ensures ReadName(t) == Some(ParseName(t).rest)
  {
  }

  lemma {:induction false} MembersAreRead(t: string, seen: set<string>)
    requires ParseMembers(t, seen).Got?
    ensures ReadMembers(t) == Some(ParseMembers(t, seen).rest)
    decreases |t|, 1
  {
    var name := ParseName(t);
    NameIsRead(t);
    ValueIsRead(name.rest);
    var u := SkipWs(ParseValue(name.rest).rest);
    if HeadIs(u, ',') {
      MembersAreRead(u[1..], seen + {name.value});
    }
  }

  lemma ParsedTextIsStrict(t: string)
    requires ParseStrict(t).Some?
    ensures IsStrict(t) && QuoteKeys(t) == t
  {
    ValueIsRead(t);
    StrictTextStands(t);
  }
}
