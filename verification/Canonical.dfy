/** The canonical JSON writer and the domain-separated digest preimage. */
module Canonical {
  import opened Base
  import opened Chars
  import opened Json

  // ---- member order ----------------------------------------------------------

  /** Strict order of Rust strings: by Unicode scalar value, a proper prefix first. */
  predicate Before(a: string, b: string)
  {
    b != "" && (a == "" || a[0] < b[0] || (a[0] == b[0] && Before(a[1..], b[1..])))
  }

  lemma BeforeTotal(a: string, b: string)
    ensures a == b || Before(a, b) || Before(b, a)
  {
    if a != "" && b != "" && a[0] == b[0] {
      BeforeTotal(a[1..], b[1..]);
      assert a == [a[0]] + a[1..] && b == [b[0]] + b[1..];
    }
  }

  lemma BeforeAsymmetric(a: string, b: string)
    requires Before(a, b)
    ensures !Before(b, a) && a != b
  {
    if a != "" && a[0] == b[0] {
      BeforeAsymmetric(a[1..], b[1..]);
    }
  }

  lemma BeforeTransitive(a: string, b: string, c: string)
    requires Before(a, b) && Before(b, c)
    ensures Before(a, c)
  {
    if a != "" && a[0] == b[0] == c[0] {
      BeforeTransitive(a[1..], b[1..], c[1..]);
    }
  }

  ghost predicate SortedMembers(ms: seq<Member>)
  {
    forall i, j :: 0 <= i < j < |ms| ==> Before(ms[i].name, ms[j].name)
  }

  function InsertMember(m: Member, ms: seq<Member>): (r: seq<Member>)
    ensures |r| == |ms| + 1
  {
    if ms == [] then [m]
    else if Before(m.name, ms[0].name) then [m] + ms
    else [ms[0]] + InsertMember(m, ms[1..])
  }

  function SortMembers(ms: seq<Member>): (r: seq<Member>)
    ensures |r| == |ms|
  {
    if ms == [] then [] else InsertMember(ms[0], SortMembers(ms[1..]))
  }

  lemma InInserted(m: Member, ms: seq<Member>, x: Member)
    ensures x in InsertMember(m, ms) <==> x == m || x in ms
  {
    if ms != [] && !Before(m.name, ms[0].name) {
      InInserted(m, ms[1..], x);
      assert ms == [ms[0]] + ms[1..];
    }
  }

  /** Sorting keeps exactly the members. */
  lemma InSorted(ms: seq<Member>, x: Member)
    ensures x in SortMembers(ms) <==> x in ms
  {
    if ms != [] {
      InSorted(ms[1..], x);
      InInserted(ms[0], SortMembers(ms[1..]), x);
      assert ms == [ms[0]] + ms[1..];
    }
  }

  lemma InsertKeepsSorted(m: Member, ms: seq<Member>)
    requires SortedMembers(ms)
    requires forall i :: 0 <= i < |ms| ==> ms[i].name != m.name
    ensures SortedMembers(InsertMember(m, ms))
  {
    if ms == [] {
    } else if Before(m.name, ms[0].name) {
      forall j | 0 < j < |ms| ensures Before(m.name, ms[j].name) {
        BeforeTransitive(m.name, ms[0].name, ms[j].name);
      }
    } else {
      InsertKeepsSorted(m, ms[1..]);
      BeforeTotal(m.name, ms[0].name);
      var r := InsertMember(m, ms[1..]);
      forall j | 0 <= j < |r| ensures Before(ms[0].name, r[j].name) {
        InInserted(m, ms[1..], r[j]);
      }
    }
  }

  lemma SortSorts(ms: seq<Member>)
    requires DistinctNames(ms)
    ensures SortedMembers(SortMembers(ms))
  {
    if ms != [] {
      SortSorts(ms[1..]);
      var r := SortMembers(ms[1..]);
      forall i | 0 <= i < |r| ensures r[i].name != ms[0].name {
        InSorted(ms[1..], r[i]);
      }
      InsertKeepsSorted(ms[0], r);
    }
  }

  /** A sorted member list is determined by its members. */
  lemma SortedUnique(a: seq<Member>, b: seq<Member>)
    requires SortedMembers(a) && SortedMembers(b) && |a| == |b|
    requires forall m :: m in a <==> m in b
    ensures a == b
  {
    if a != [] {
      assert a[0] in b && b != [];
      assert b[0] in a;
      if a[0] != b[0] {
        var i :| 0 <= i < |b| && b[i] == a[0];
        var j :| 0 <= j < |a| && a[j] == b[0];
        BeforeAsymmetric(b[0].name, b[i].name);
        assert false;
      }
      forall m ensures m in a[1..] <==> m in b[1..] {
        TailMember(a, m);
        TailMember(b, m);
      }
      SortedUnique(a[1..], b[1..]);
      assert a == [a[0]] + a[1..] && b == [b[0]] + b[1..];
    }
  }

  lemma TailMember(a: seq<Member>, m: Member)
    requires a != [] && SortedMembers(a)
    ensures m in a[1..] <==> m in a && m != a[0]
  {
    if m in a[1..] {
      var i :| 0 <= i < |a[1..]| && a[1..][i] == m;
      assert a[i + 1] == m;
      BeforeAsymmetric(a[0].name, a[i + 1].name);
    }
    if m in a && m != a[0] {
      var i :| 0 <= i < |a| && a[i] == m;
      assert a[1..][i - 1] == m;
    }
  }

  // ---- normal form and text ---------------------------------------------------

  function NormMembers(ms: seq<Member>): (r: seq<Member>)
    ensures |r| == |ms|
    ensures forall i :: 0 <= i < |ms| ==> r[i].name == ms[i].name && r[i].value == Norm(ms[i].value)
  {
    if ms == [] then [] else [Member(ms[0].name, Norm(ms[0].value))] + NormMembers(ms[1..])
  }

  function NormItems(vs: seq<Json>): (r: seq<Json>)
    ensures |r| == |vs|
    ensures forall i :: 0 <= i < |vs| ==> r[i] == Norm(vs[i])
  {
    if vs == [] then [] else [Norm(vs[0])] + NormItems(vs[1..])
  }

  /** The same value with every object's members in order. */
  function Norm(v: Json): Json
  {
    match v
    case Arr(items) => Arr(NormItems(items))
    case Obj(ms) => Obj(SortMembers(NormMembers(ms)))
    case _ => v
  }

  function HexDigit(n: int): char
    requires 0 <= n < 16
  {
    if n < 10 then ('0' as int + n) as char else ('a' as int + n - 10) as char
  }

  /** RFC 8259, section 7, in the writer's choice of escapes. */
  function EscapeChar(c: char): string
  {
    if c == '"' then "\\\""
    else if c == '\\' then "\\\\"
    else if c == 8 as char then "\\b"
    else if c == 12 as char then "\\f"
    else if c == '\n' then "\\n"
    else if c == '\r' then "\\r"
    else if c == '\t' then "\\t"
    else if c < ' ' then ['\\', 'u', '0', '0', HexDigit(c as int / 16), HexDigit(c as int % 16)]
    else [c]
  }

  function EscapeBody(s: string): string
  {
    if s == "" then "" else EscapeChar(s[0]) + EscapeBody(s[1..])
  }

  function Quoted(s: string): string
  {
    "\"" + EscapeBody(s) + "\""
  }

  function Decimal(n: nat): (s: string)
    ensures s != "" && forall i :: 0 <= i < |s| ==> AsciiDigit(s[i])
  {
    var last := ('0' as int + n % 10) as char;
    if n < 10 then [last] else Decimal(n / 10) + [last]
  }

  function NumberText(n: int): string
  {
    if n < 0 then "-" + Decimal(-n) else Decimal(n)
  }

  /** The compact text of a value, members in stored order. */
  function Text(v: Json): string
  {
    match v
    case Null => "null"
    case Bool(b) => if b then "true" else "false"
    case Num(n) => NumberText(n)
    case Str(s) => Quoted(s)
    case Arr(items) => "[" + ItemsText(items) + "]"
    case Obj(ms) => "{" + MembersText(ms) + "}"
  }

  function ItemsText(vs: seq<Json>): string
  {
    if vs == [] then ""
    else if |vs| == 1 then Text(vs[0])
    else Text(vs[0]) + "," + ItemsText(vs[1..])
  }

  function MemberText(m: Member): string
  {
    Quoted(m.name) + ":" + Text(m.value)
  }

  function MembersText(ms: seq<Member>): string
  {
    if ms == [] then ""
    else if |ms| == 1 then MemberText(ms[0])
    else MemberText(ms[0]) + "," + MembersText(ms[1..])
  }

  function CanonicalText(v: Json): string
  {
    Text(Norm(v))
  }

  // ---- the strict parser inverts the writer -----------------------------------

  lemma {:induction false} CharsParse(s: string, rest: string)
    ensures ParseChars(EscapeBody(s) + "\"" + rest, true) == Got(s, rest)
  {
    if s == "" {
      assert EscapeBody(s) + "\"" + rest == "\"" + rest;
    } else {
      var tail := EscapeBody(s[1..]) + "\"" + rest;
      assert EscapeBody(s) + "\"" + rest == EscapeChar(s[0]) + tail;
      EscapeParses(s[0], tail);
      CharsParse(s[1..], rest);
      assert s == [s[0]] + s[1..];
    }
  }

  lemma EscapeParses(c: char, tail: string)
    ensures ParseChars(EscapeChar(c) + tail, true) == Prepend(c, ParseChars(tail, true))
  {
    var t := EscapeChar(c) + tail;
    if |EscapeChar(c)| == 1 {
      PlainStep(t, c, tail);
    } else {
      if |EscapeChar(c)| == 2 {
        ShortEscape(c, tail);
      } else {
        ControlParses(c, tail);
      }
      assert t[1..] == EscapeChar(c)[1..] + tail;
      EscapedStep(t, c, tail);
    }
  }

  lemma PlainStep(t: string, c: char, tail: string)
    requires t == [c] + tail && c != '"' && c != '\\' && c >= ' '
    ensures ParseChars(t, true) == Prepend(c, ParseChars(tail, true))
  {
    assert t[1..] == tail;
  }

  lemma EscapedStep(t: string, c: char, tail: string)
    requires t != "" && t[0] == '\\' && ParseEscape(t[1..]) == Got(c, tail)
    ensures ParseChars(t, true) == Prepend(c, ParseChars(tail, true))
  {
  }

  lemma ShortEscape(c: char, tail: string)
    requires |EscapeChar(c)| == 2
    ensures ParseEscape(EscapeChar(c)[1..] + tail) == Got(c, tail)
  {
    var u := EscapeChar(c)[1..] + tail;
    assert u[1..] == tail;
  }

  lemma ControlParses(c: char, tail: string)
    requires c < ' ' && |EscapeChar(c)| == 6
    ensures ParseEscape(EscapeChar(c)[1..] + tail) == Got(c, tail)
  {
    var h, l := HexDigit(c as int / 16), HexDigit(c as int % 16);
    HexDigitValue(c as int / 16);
    HexDigitValue(c as int % 16);
    var t := EscapeChar(c)[1..] + tail;
    var u := ['0', '0', h, l] + tail;
    assert t[1..] == u;
    assert u[4..] == tail;
    assert Hex4(u) == Got(c as int, tail);
  }

  lemma HexDigitValue(n: int)
    requires 0 <= n < 16
    ensures HexValue(HexDigit(n)) == n
  {
  }

  lemma {:induction false} DecimalValue(n: nat)
    ensures NatOf(Decimal(n)) == n
    ensures Decimal(n)[0] == '0' ==> n == 0 && |Decimal(n)| == 1
  {
    if n >= 10 {
      DecimalValue(n / 10);
      var s := Decimal(n);
      assert s[..|s| - 1] == Decimal(n / 10);
    } else {
      var s := Decimal(n);
      assert s[..|s| - 1] == "";
    }
  }

  lemma {:induction false} RunIsExact(digits: string, rest: string)
    requires forall i :: 0 <= i < |digits| ==> AsciiDigit(digits[i])
    requires rest == "" || !AsciiDigit(rest[0])
    ensures DigitRun(digits + rest) == |digits|
  {
    if digits == "" {
      assert digits + rest == rest;
    } else {
      assert (digits + rest)[1..] == digits[1..] + rest;
      RunIsExact(digits[1..], rest);
    }
  }

  /** What may follow a value so that a number does not run on into it. */
  predicate Delimited(rest: string)
  {
    rest == "" || !(AsciiDigit(rest[0]) || rest[0] == '.' || rest[0] == 'e' || rest[0] == 'E')
  }

  lemma NatParses(m: nat, rest: string)
    requires Delimited(rest)
    ensures ParseNat(Decimal(m) + rest) == Got(m, rest)
  {
    var d := Decimal(m);
    var t := d + rest;
    RunIsExact(d, rest);
    DecimalValue(m);
    assert t[..|d|] == d;
    assert t[|d|..] == rest;
    assert t[0] == d[0];
  }

  lemma NegativeParses(d: string, m: int, rest: string)
    requires m > 0 && ParseNat(d + rest) == Got(m, rest)
    ensures ParseNumber("-" + d + rest) == Got(Num(-m), rest)
  {
    assert ("-" + d + rest)[1..] == d + rest;
  }

  lemma NumberParses(n: int, rest: string)
    requires Delimited(rest)
    ensures ParseNumber(NumberText(n) + rest) == Got(Num(n), rest)
  {
    if n < 0 {
      NatParses(-n, rest);
      NegativeParses(Decimal(-n), -n, rest);
    } else {
      NatParses(n, rest);
      HeadIsDigit(Decimal(n), rest);
    }
  }

  lemma HeadIsDigit(d: string, rest: string)
    requires d != "" && forall i :: 0 <= i < |d| ==> AsciiDigit(d[i])
    ensures d + rest != "" && AsciiDigit((d + rest)[0])
  {
    assert (d + rest)[0] == d[0];
  }

  lemma TextHead(v: Json)
    ensures Text(v) != "" && !IsSpace(Text(v)[0]) && Text(v)[0] != ']' && Text(v)[0] != '}'
  {
    if v.Num? {
      var d := Decimal(if v.n < 0 then -v.n else v.n);
      assert AsciiDigit(d[0]);
    }
  }

  lemma SkipNothing(t: string)
    requires t == "" || !IsSpace(t[0])
    ensures SkipWs(t) == t
  {
  }

  // How the parser dispatches on the first character.

  lemma DispatchString(body: string)
    ensures ParseValue("\"" + body) ==
            match ParseChars(body, true) case Got(s, rest) => Got(Str(s), rest) case Fail => Fail
  {
    var t := "\"" + body;
    SkipNothing(t);
    assert t[1..] == body;
  }

  lemma DispatchArray(body: string)
    ensures ParseValue("[" + body) == ParseArray(body)
  {
    var t := "[" + body;
    SkipNothing(t);
    assert t[1..] == body;
  }

  lemma DispatchObject(body: string)
    ensures ParseValue("{" + body) == ParseObject(body)
  {
    var t := "{" + body;
    SkipNothing(t);
    assert t[1..] == body;
  }

  lemma DispatchNumber(t: string)
    requires t != "" && (t[0] == '-' || AsciiDigit(t[0]))
    ensures ParseValue(t) == ParseNumber(t)
  {
    SkipNothing(t);
  }

  lemma DispatchLiteral(v: Json, rest: string)
    requires v.Null? || v.Bool?
    ensures ParseValue(Text(v) + rest) == Got(v, rest)
  {
    var t := Text(v) + rest;
    SkipNothing(t);
    assert t[|Text(v)|..] == rest;
    assert ParseScalar(t) == Got(v, rest);
  }

  lemma ScalarParses(v: Json, rest: string)
    requires !v.Arr? && !v.Obj? && Delimited(rest)
    ensures ParseValue(Text(v) + rest) == Got(v, rest)
  {
    match v
    case Num(n) =>
      NumberHead(n, rest);
      DispatchNumber(Text(v) + rest);
      NumberParses(n, rest);
    case Str(s) =>
      Regroup3("\"", EscapeBody(s), "\"", rest, "");
      assert Text(v) + rest == "\"" + (EscapeBody(s) + "\"" + rest);
      DispatchString(EscapeBody(s) + "\"" + rest);
      CharsParse(s, rest);
    case _ => DispatchLiteral(v, rest);
  }

  lemma {:induction false} TextParses(v: Json, rest: string)
    requires Unique(v) && Delimited(rest)
    ensures ParseValue(Text(v) + rest) == Got(v, rest)
    decreases v, 0
  {
    match v
    case Arr(items) =>
      assert Text(v) + rest == "[" + (ItemsText(items) + "]" + rest);
      DispatchArray(ItemsText(items) + "]" + rest);
      ArrayParses(items, rest);
    case Obj(ms) =>
      assert Text(v) + rest == "{" + (MembersText(ms) + "}" + rest);
      DispatchObject(MembersText(ms) + "}" + rest);
      ObjectParses(ms, rest);
    case _ => ScalarParses(v, rest);
  }

  lemma NumberHead(n: int, rest: string)
    ensures NumberText(n)[0] == '-' || AsciiDigit(NumberText(n)[0])
  {
    var d := Decimal(if n < 0 then -n else n);
    assert AsciiDigit(d[0]);
  }

  lemma {:induction false} ArrayParses(items: seq<Json>, rest: string)
    requires forall i :: 0 <= i < |items| ==> Unique(items[i])
    ensures ParseArray(ItemsText(items) + "]" + rest) == Got(Arr(items), rest)
    decreases items, 2
  {
    var t := ItemsText(items) + "]" + rest;
    if items == [] {
      assert t == "]" + rest;
      SkipNothing(t);
    } else {
      ItemsHead(items);
      SkipNothing(t);
      ItemsParse(items, rest);
    }
  }

  lemma ItemsHead(items: seq<Json>)
    requires items != []
    ensures ItemsText(items) != "" && !IsSpace(ItemsText(items)[0]) && ItemsText(items)[0] != ']'
  {
    TextHead(items[0]);
  }

  /** What follows the first item: the separator and the other items, or the end. */
  function AfterItem(items: seq<Json>, rest: string): string
    requires items != []
  {
    if |items| == 1 then "]" + rest else "," + (ItemsText(items[1..]) + "]" + rest)
  }

  lemma SplitItems(items: seq<Json>, rest: string)
    requires items != []
    ensures ItemsText(items) + "]" + rest == Text(items[0]) + AfterItem(items, rest)
  {
  }

  lemma ElementsStep(t: string, v: Json, after: string)
    requires ParseValue(t) == Got(v, after) && after != "" && !IsSpace(after[0])
    ensures after[0] == ']' ==> ParseElements(t) == Got([v], after[1..])
    ensures after[0] == ',' && ParseElements(after[1..]).Got? ==>
              ParseElements(t) == Got([v] + ParseElements(after[1..]).value, ParseElements(after[1..]).rest)
  {
    SkipNothing(after);
  }

  lemma ItemsStep(items: seq<Json>, rest: string)
    requires items != []
    requires ParseValue(Text(items[0]) + AfterItem(items, rest)) == Got(items[0], AfterItem(items, rest))
    requires |items| > 1 ==> ParseElements(ItemsText(items[1..]) + "]" + rest) == Got(items[1..], rest)
    ensures ParseElements(ItemsText(items) + "]" + rest) == Got(items, rest)
  {
    hide ParseElements, ParseValue, Text, ItemsText;
    var after := AfterItem(items, rest);
    SplitItems(items, rest);
    ElementsStep(Text(items[0]) + after, items[0], after);
    if |items| == 1 {
      assert after[1..] == rest && items == [items[0]];
    } else {
      assert after[1..] == ItemsText(items[1..]) + "]" + rest;
      assert items == [items[0]] + items[1..];
    }
  }

  lemma {:induction false} ItemsParse(items: seq<Json>, rest: string)
    requires items != [] && forall i :: 0 <= i < |items| ==> Unique(items[i])
    ensures ParseElements(ItemsText(items) + "]" + rest) == Got(items, rest)
    decreases items, 1
  {
    TextParses(items[0], AfterItem(items, rest));
    if |items| > 1 {
      ItemsParse(items[1..], rest);
    }
    ItemsStep(items, rest);
  }

  lemma {:induction false} ObjectParses(ms: seq<Member>, rest: string)
    requires DistinctNames(ms) && forall i :: 0 <= i < |ms| ==> Unique(ms[i].value)
    ensures ParseObject(MembersText(ms) + "}" + rest) == Got(Obj(ms), rest)
    decreases ms, 2
  {
    var t := MembersText(ms) + "}" + rest;
    if ms == [] {
      assert t == "}" + rest;
      SkipNothing(t);
    } else {
      SplitMembers(ms, rest);
      assert Quoted(ms[0].name)[0] == '"';
      SkipNothing(t);
      MembersParse(ms, {}, rest);
    }
  }

  lemma NameParses(name: string, after: string)
    ensures ParseName(Quoted(name) + ":" + after) == Got(name, after)
  {
    var t := Quoted(name) + ":" + after;
    SkipNothing(t);
    assert t[1..] == EscapeBody(name) + "\"" + (":" + after);
    CharsParse(name, ":" + after);
    SkipNothing(":" + after);
    assert (":" + after)[1..] == after;
  }

  function AfterMember(ms: seq<Member>, rest: string): string
    requires ms != []
  {
    if |ms| == 1 then "}" + rest else "," + (MembersText(ms[1..]) + "}" + rest)
  }

  lemma Regroup(a: string, b: string, c: string, d: string)
    ensures a + b + c + d == a + b + (c + d)
  {
  }

  lemma SplitMembers(ms: seq<Member>, rest: string)
    requires ms != []
    ensures MembersText(ms) + "}" + rest ==
            Quoted(ms[0].name) + ":" + (Text(ms[0].value) + AfterMember(ms, rest))
  {
    var m, after := ms[0], AfterMember(ms, rest);
    if |ms| == 1 {
      Regroup2(MemberText(m), "}", rest);
    } else {
      Regroup3(MemberText(m), ",", MembersText(ms[1..]), "}", rest);
    }
    assert MembersText(ms) + "}" + rest == MemberText(m) + after;
    Regroup(Quoted(m.name), ":", Text(m.value), after);
  }

  lemma Regroup2(a: string, b: string, c: string)
    ensures a + b + c == a + (b + c)
  {
  }

  lemma Regroup3(a: string, b: string, c: string, d: string, e: string)
    ensures a + b + c + d + e == a + (b + (c + d + e))
  {
  }

  lemma MembersStep(t: string, m: Member, after: string, seen: set<string>)
    requires ParseMember(t, seen) == Got(m, after) && after != "" && !IsSpace(after[0])
    ensures after[0] == '}' ==> ParseMembers(t, seen) == Got([m], after[1..])
    ensures after[0] == ',' && ParseMembers(after[1..], seen + {m.name}).Got? ==>
              var tail := ParseMembers(after[1..], seen + {m.name});
              ParseMembers(t, seen) == Got([m] + tail.value, tail.rest)
  {
    SkipNothing(after);
  }

  lemma FirstName(ms: seq<Member>, rest: string)
    requires ms != []
    ensures ParseName(MembersText(ms) + "}" + rest) == Got(ms[0].name, Text(ms[0].value) + AfterMember(ms, rest))
  {
    SplitMembers(ms, rest);
    NameParses(ms[0].name, Text(ms[0].value) + AfterMember(ms, rest));
  }

  lemma AfterMemberTail(ms: seq<Member>, rest: string)
    requires ms != []
    ensures var after := AfterMember(ms, rest);
            && after != ""
            && after[0] == (if |ms| == 1 then '}' else ',')
            && after[1..] == if |ms| == 1 then rest else MembersText(ms[1..]) + "}" + rest
  {
  }

  lemma FreshTail(ms: seq<Member>, seen: set<string>)
    requires ms != [] && FreshMembers(ms, seen)
    ensures ms[0].name !in seen && Unique(ms[0].value) && FreshMembers(ms[1..], seen + {ms[0].name})
  {
  }

  lemma MemberParses(ms: seq<Member>, seen: set<string>, rest: string)
    requires ms != [] && ms[0].name !in seen
    requires ParseValue(Text(ms[0].value) + AfterMember(ms, rest)) == Got(ms[0].value, AfterMember(ms, rest))
    ensures ParseMember(MembersText(ms) + "}" + rest, seen) == Got(ms[0], AfterMember(ms, rest))
  {
    FirstName(ms, rest);
  }

  lemma MembersWhole(t: string, after: string, ms: seq<Member>, seen: set<string>, rest: string)
    requires ms != [] && ParseMember(t, seen) == Got(ms[0], after)
    requires after != "" && after[0] == (if |ms| == 1 then '}' else ',')
    requires |ms| == 1 ==> after[1..] == rest
    requires |ms| > 1 ==> ParseMembers(after[1..], seen + {ms[0].name}) == Got(ms[1..], rest)
    ensures ParseMembers(t, seen) == Got(ms, rest)
  {
    MembersStep(t, ms[0], after, seen);
    if |ms| == 1 {
      assert ms == [ms[0]];
    } else {
      assert ms == [ms[0]] + ms[1..];
    }
  }

  lemma {:induction false} MembersParse(ms: seq<Member>, seen: set<string>, rest: string)
    requires ms != [] && FreshMembers(ms, seen)
    ensures ParseMembers(MembersText(ms) + "}" + rest, seen) == Got(ms, rest)
    decreases ms, 1
  {
    FreshTail(ms, seen);
    TextParses(ms[0].value, AfterMember(ms, rest));
    MemberParses(ms, seen, rest);
    if |ms| > 1 {
      MembersParse(ms[1..], seen + {ms[0].name}, rest);
    }
    AfterMemberTail(ms, rest);
    MembersWhole(MembersText(ms) + "}" + rest, AfterMember(ms, rest), ms, seen, rest);
  }
}
