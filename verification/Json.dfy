/** Strict JSON values: the duplicate-free value domain, its member order, and the strict parser. */
module Json {
  import opened Base
  import opened Chars

  datatype Json =
    | Null
    | Bool(b: bool)
    | Num(n: int)
    | Str(s: string)
    | Arr(items: seq<Json>)
    | Obj(members: seq<Member>)

  datatype Member = Member(name: string, value: Json)

  ghost predicate DistinctNames(ms: seq<Member>)
  {
    forall i, j :: 0 <= i < j < |ms| ==> ms[i].name != ms[j].name
  }

  /** No object, at any depth, repeats a member name (RFC 7493, section 2.3). */
  ghost predicate Unique(v: Json)
  {
    match v
    case Arr(items) => forall i :: 0 <= i < |items| ==> Unique(items[i])
    case Obj(ms) => DistinctNames(ms) && forall i :: 0 <= i < |ms| ==> Unique(ms[i].value)
    case _ => true
  }

  /** Equality of JSON values up to the order of members, at every depth. */
  ghost predicate Equiv(v: Json, w: Json)
    decreases v
  {
    match (v, w)
    case (Arr(x), Arr(y)) =>
      |x| == |y| && forall i :: 0 <= i < |x| ==> Equiv(x[i], y[i])
    case (Obj(x), Obj(y)) =>
      |x| == |y| && forall i :: 0 <= i < |x| ==> MatchedIn(x[i], y)
    case _ => v == w
  }

  ghost predicate MatchedIn(m: Member, ms: seq<Member>)
    decreases m
  {
    exists j :: 0 <= j < |ms| && ms[j].name == m.name && Equiv(m.value, ms[j].value)
  }

  // ---- parsing -------------------------------------------------------------

  datatype Parse<+T> = Fail | Got(value: T, rest: string)

  predicate IsSpace(c: char) { c == ' ' || c == '\n' || c == '\t' || c == '\r' }

  function SkipWs(t: string): (r: string)
    ensures |r| <= |t|
    ensures r != "" ==> !IsSpace(r[0])
  {
    if t != "" && IsSpace(t[0]) then SkipWs(t[1..]) else t
  }

  function DigitRun(t: string): (k: nat)
    ensures k <= |t|
    ensures forall i :: 0 <= i < k ==> AsciiDigit(t[i])
    ensures k < |t| ==> !AsciiDigit(t[k])
  {
    if t != "" && AsciiDigit(t[0]) then 1 + DigitRun(t[1..]) else 0
  }

  function NatOf(digits: string): (n: int)
    requires forall i :: 0 <= i < |digits| ==> AsciiDigit(digits[i])
    ensures 0 <= n
  {
    if digits == "" then 0
    else
      var last := digits[|digits| - 1];
      assert AsciiDigit(last);
      NatOf(digits[..|digits| - 1]) * 10 + (last as int - '0' as int)
  }

  /** Integers only: fractions and exponents are outside the modelled number domain. */
  function ParseNat(t: string): (r: Parse<int>)
    ensures r.Got? ==> |r.rest| < |t| && 0 <= r.value
  {
    var k := DigitRun(t);
    if k == 0 || (k > 1 && t[0] == '0') then Fail
    else if k < |t| && (t[k] == '.' || t[k] == 'e' || t[k] == 'E') then Fail
    else Got(NatOf(t[..k]), t[k..])
  }

  function ParseNumber(t: string): (r: Parse<Json>)
    ensures r.Got? ==> |r.rest| < |t|
  {
    if t != "" && t[0] == '-' then
      match ParseNat(t[1..])
      case Got(n, rest) => if n == 0 then Fail else Got(Num(-n), rest)
      case Fail => Fail
    else
      match ParseNat(t)
      case Got(n, rest) => Got(Num(n), rest)
      case Fail => Fail
  }

  function HexValue(c: char): (n: int)
    ensures -1 <= n < 16
  {
    if '0' <= c <= '9' then c as int - '0' as int
    else if 'a' <= c <= 'f' then c as int - 'a' as int + 10
    else if 'A' <= c <= 'F' then c as int - 'A' as int + 10
    else -1
  }

  function Hex4(t: string): (r: Parse<int>)
    ensures r.Got? ==> |r.rest| < |t| && 0 <= r.value < 0x1_0000
  {
    if |t| < 4 then Fail
    else
      var a, b, c, d := HexValue(t[0]), HexValue(t[1]), HexValue(t[2]), HexValue(t[3]);
      if a < 0 || b < 0 || c < 0 || d < 0 then Fail
      else Got(((a * 16 + b) * 16 + c) * 16 + d, t[4..])
  }

  /** One escape of RFC 8259, section 7, after its backslash; a surrogate pair is one scalar. */
  function ParseEscape(t: string): (r: Parse<char>)
    ensures r.Got? ==> |r.rest| < |t|
  {
    if t == "" then Fail
    else match t[0]
      case '"' => Got('"', t[1..])
      case '\\' => Got('\\', t[1..])
      case '/' => Got('/', t[1..])
      case 'b' => Got(8 as char, t[1..])
      case 'f' => Got(12 as char, t[1..])
      case 'n' => Got('\n', t[1..])
      case 'r' => Got('\r', t[1..])
      case 't' => Got('\t', t[1..])
      case 'u' => ParseUnicode(t[1..])
      case _ => Fail
  }

  function ParseUnicode(t: string): (r: Parse<char>)
    ensures r.Got? ==> |r.rest| < |t|
  {
    match Hex4(t)
    case Fail => Fail
    case Got(hi, rest) =>
      if hi < 0xD800 || 0xE000 <= hi then Got(hi as char, rest)
      else if hi < 0xDC00 && |rest| >= 2 && rest[0] == '\\' && rest[1] == 'u' then
        match Hex4(rest[2..])
        case Got(lo, rest') =>
          if 0xDC00 <= lo < 0xE000 then
            Got((0x1_0000 + (hi - 0xD800) * 0x400 + (lo - 0xDC00)) as char, rest')
          else Fail
        case Fail => Fail
      else Fail
  }

  /** The text after an opening quote, up to and including the closing quote.
      A strict reader refuses raw control characters; a lenient one takes them as themselves. */
  function ParseChars(t: string, strict: bool): (r: Parse<string>)
    ensures r.Got? ==> |r.rest| < |t|
  {
    if t == "" then Fail
    else if t[0] == '"' then Got("", t[1..])
    else if t[0] == '\\' then
      match ParseEscape(t[1..])
      case Fail => Fail
      case Got(c, rest) => Prepend(c, ParseChars(rest, strict))
    else if strict && t[0] < ' ' then Fail
    else Prepend(t[0], ParseChars(t[1..], strict))
  }

  function Prepend(c: char, r: Parse<string>): Parse<string>
  {
    match r
    case Fail => Fail
    case Got(s, rest) => Got([c] + s, rest)
  }

  /** A literal, a string or a number. */
  function ParseScalar(u: string): (r: Parse<Json>)
    ensures r.Got? ==> |r.rest| < |u| && Unique(r.value)
  {
    if "null" <= u then Got(Null, u[4..])
    else if "true" <= u then Got(Bool(true), u[4..])
    else if "false" <= u then Got(Bool(false), u[5..])
    else if u != "" && u[0] == '"' then
      match ParseChars(u[1..], true)
      case Got(s, rest) => Got(Str(s), rest)
      case Fail => Fail
    else ParseNumber(u)
  }

  function ParseValue(t: string): (r: Parse<Json>)
    ensures r.Got? ==> |r.rest| < |t|
    decreases |t|, 0
  {
    var u := SkipWs(t);
    if u != "" && u[0] == '[' then ParseArray(u[1..])
    else if u != "" && u[0] == '{' then ParseObject(u[1..])
    else ParseScalar(u)
  }

  function ParseArray(t: string): (r: Parse<Json>)
    ensures r.Got? ==> |r.rest| < |t|
    decreases |t|, 2
  {
    var w := SkipWs(t);
    if w != "" && w[0] == ']' then Got(Arr([]), w[1..])
    else match ParseElements(t)
      case Got(items, rest) => Got(Arr(items), rest)
      case Fail => Fail
  }

  function ParseObject(t: string): (r: Parse<Json>)
    ensures r.Got? ==> |r.rest| < |t|
    decreases |t|, 2
  {
    var w := SkipWs(t);
    if w != "" && w[0] == '}' then Got(Obj([]), w[1..])
    else match ParseMembers(t, {})
      case Got(ms, rest) => Got(Obj(ms), rest)
      case Fail => Fail
  }

  /** One or more comma-separated values and the closing bracket. */
  function ParseElements(t: string): (r: Parse<seq<Json>>)
    ensures r.Got? ==> |r.rest| < |t|
    decreases |t|, 1
  {
    match ParseValue(t)
    case Fail => Fail
    case Got(v, rest) =>
      var u := SkipWs(rest);
      if u == "" then Fail
      else if u[0] == ']' then Got([v], u[1..])
      else if u[0] != ',' then Fail
      else match ParseElements(u[1..])
        case Got(vs, rest') => Got([v] + vs, rest')
        case Fail => Fail
  }

  /** One or more members and the closing brace; a name already seen is refused. */
  function ParseMembers(t: string, seen: set<string>): (r: Parse<seq<Member>>)
    ensures r.Got? ==> |r.rest| < |t|
    decreases |t|, 1
  {
    match ParseMember(t, seen)
    case Fail => Fail
    case Got(m, rest) =>
      var u := SkipWs(rest);
      if u == "" then Fail
      else if u[0] == '}' then Got([m], u[1..])
      else if u[0] != ',' then Fail
      else match ParseMembers(u[1..], seen + {m.name})
        case Got(ms, rest') => Got([m] + ms, rest')
        case Fail => Fail
  }

  function ParseMember(t: string, seen: set<string>): (r: Parse<Member>)
    ensures r.Got? ==> |r.rest| < |t|
    decreases |t|, 0
  {
    match ParseName(t)
    case Fail => Fail
    case Got(name, rest) =>
      if name in seen then Fail
      else match ParseValue(rest)
        case Got(v, rest') => Got(Member(name, v), rest')
        case Fail => Fail
  }

  /** A member name and the colon after it. */
  function ParseName(t: string): (r: Parse<string>)
    ensures r.Got? ==> |r.rest| < |t|
  {
    var q := SkipWs(t);
    if q == "" || q[0] != '"' then Fail
    else match ParseChars(q[1..], true)
      case Fail => Fail
      case Got(name, rest) =>
        var c := SkipWs(rest);
        if c == "" || c[0] != ':' then Fail else Got(name, c[1..])
  }

  /** A whole document: one value and nothing but white space after it. */
  function ParseStrict(t: string): Option<Json>
  {
    match ParseValue(t)
    case Got(v, rest) => if SkipWs(rest) == "" then Some(v) else None
    case Fail => None
  }

  // ---- what the parser accepts ---------------------------------------------

  lemma {:induction false} ParsedValueIsUnique(t: string)
    ensures ParseValue(t).Got? ==> Unique(ParseValue(t).value)
    decreases |t|, 0
  {
    var u := SkipWs(t);
    if u != "" && u[0] == '[' {
      ParsedElementsAreUnique(u[1..]);
    } else if u != "" && u[0] == '{' {
      ParsedMembersAreUnique(u[1..], {});
    }
  }

  lemma {:induction false} ParsedElementsAreUnique(t: string)
    ensures ParseElements(t).Got? ==>
              forall i :: 0 <= i < |ParseElements(t).value| ==> Unique(ParseElements(t).value[i])
    decreases |t|, 1
  {
    if ParseElements(t).Got? {
      ParsedValueIsUnique(t);
      var u := SkipWs(ParseValue(t).rest);
      ParsedElementsAreUnique(u[1..]);
    }
  }

  ghost predicate FreshMembers(ms: seq<Member>, seen: set<string>)
  {
    && DistinctNames(ms)
    && forall i :: 0 <= i < |ms| ==> ms[i].name !in seen && Unique(ms[i].value)
  }

  lemma FreshCons(m: Member, ms: seq<Member>, seen: set<string>)
    requires m.name !in seen && Unique(m.value) && FreshMembers(ms, seen + {m.name})
    ensures FreshMembers([m] + ms, seen)
  {
    var all := [m] + ms;
    forall i | 0 <= i < |all| ensures all[i].name !in seen && Unique(all[i].value) {
      assert i > 0 ==> all[i] == ms[i - 1];
    }
    forall i, j | 0 <= i < j < |all| ensures all[i].name != all[j].name {
      assert all[j] == ms[j - 1];
      assert i > 0 ==> all[i] == ms[i - 1];
    }
  }

  lemma {:induction false} ParsedMemberIsUnique(t: string, seen: set<string>)
    ensures ParseMember(t, seen).Got? ==>
              ParseMember(t, seen).value.name !in seen && Unique(ParseMember(t, seen).value.value)
    decreases |t|, 0
  {
    if ParseName(t).Got? {
      ParsedValueIsUnique(ParseName(t).rest);
    }
  }

  lemma {:induction false} ParsedMembersAreUnique(t: string, seen: set<string>)
    ensures ParseMembers(t, seen).Got? ==> FreshMembers(ParseMembers(t, seen).value, seen)
    decreases |t|, 1
  {
    if ParseMembers(t, seen).Got? {
      var Got(m, rest) := ParseMember(t, seen);
      ParsedMemberIsUnique(t, seen);
      var u := SkipWs(rest);
      if u[0] == '}' {
        FreshCons(m, [], seen);
      } else {
        ParsedMembersAreUnique(u[1..], seen + {m.name});
        FreshCons(m, ParseMembers(u[1..], seen + {m.name}).value, seen);
      }
    }
  }

  /** Every document the strict parser accepts is duplicate-free at every depth. */
  lemma StrictParseIsUnique(t: string)
    ensures ParseStrict(t).Some? ==> Unique(ParseStrict(t).value)
  {
    ParsedValueIsUnique(t);
  }
}
