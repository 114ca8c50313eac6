/** The writer as the program runs it, and what canonical bytes and digest preimages determine. */
module CanonicalTheorems {
  import opened Base
  import opened Json
  import opened Canonical
  import opened Chars
  import Utf8

  // ---- normal forms ------------------------------------------------------------

  lemma SortedAreDistinct(ms: seq<Member>)
    requires SortedMembers(ms)
    ensures DistinctNames(ms)
  {
    forall i, j | 0 <= i < j < |ms| ensures ms[i].name != ms[j].name {
      BeforeAsymmetric(ms[i].name, ms[j].name);
    }
  }

  lemma {:induction false} NormIsUnique(v: Json)
    requires Unique(v)
    ensures Unique(Norm(v))
    decreases v
  {
    match v
    case Arr(items) =>
      forall i | 0 <= i < |items| ensures Unique(NormItems(items)[i]) {
        NormIsUnique(items[i]);
      }
    case Obj(ms) =>
      var norm := NormMembers(ms);
      var sorted := SortMembers(norm);
      SortSorts(norm);
      SortedAreDistinct(sorted);
      forall i | 0 <= i < |sorted| ensures Unique(sorted[i].value) {
        InSorted(norm, sorted[i]);
        var j :| 0 <= j < |norm| && norm[j] == sorted[i];
        NormIsUnique(ms[j].value);
      }
    case _ =>
  }

  /** The strict parser inverts the canonical writer. */
  lemma ParserInvertsWriter(v: Json)
    requires Unique(v)
    ensures ParseStrict(CanonicalText(v)) == Some(Norm(v))
  {
    NormIsUnique(v);
    TextParses(Norm(v), "");
    assert CanonicalText(v) + "" == CanonicalText(v);
  }

  /** The same with white space after the value, as a ledger line has. */
  lemma ParserInvertsLine(v: Json)
    requires Unique(v)
    ensures ParseStrict(CanonicalText(v) + "\n") == Some(Norm(v))
  {
    NormIsUnique(v);
    TextParses(Norm(v), "\n");
    assert SkipWs("\n") == SkipWs("\n"[1..]);
  }

  // ---- normal forms decide equality up to member order -----------------------------

  lemma {:induction false} EquivGivesNorm(v: Json, w: Json)
    requires Unique(v) && Unique(w) && Equiv(v, w)
    ensures Norm(v) == Norm(w)
    decreases v
  {
    match (v, w)
    case (Arr(x), Arr(y)) =>
      forall i | 0 <= i < |x| ensures NormItems(x)[i] == NormItems(y)[i] {
        EquivGivesNorm(x[i], y[i]);
      }
      assert NormItems(x) == NormItems(y);
    case (Obj(x), Obj(y)) =>
      forall i | 0 <= i < |x| ensures NormMembers(x)[i] in NormMembers(y) {
        assert MatchedIn(x[i], y);
        var j :| 0 <= j < |y| && x[i].name == y[j].name && Equiv(x[i].value, y[j].value);
        EquivGivesNorm(x[i].value, y[j].value);
        assert NormMembers(y)[j] == NormMembers(x)[i];
      }
      SameMembersSortAlike(NormMembers(x), NormMembers(y));
    case _ =>
  }

  lemma MatchingMember(x: seq<Member>, y: seq<Member>, i: nat) returns (j: nat)
    requires i < |x| && SortMembers(NormMembers(x)) == SortMembers(NormMembers(y))
    ensures j < |y| && x[i].name == y[j].name && Norm(x[i].value) == Norm(y[j].value)
  {
    var m := NormMembers(x)[i];
    InSorted(NormMembers(x), m);
    InSorted(NormMembers(y), m);
    j :| 0 <= j < |y| && NormMembers(y)[j] == m;
  }

  lemma {:induction false} NormGivesEquiv(v: Json, w: Json)
    requires Unique(v) && Unique(w) && Norm(v) == Norm(w)
    ensures Equiv(v, w)
    decreases v, 0
  {
    match (v, w)
    case (Arr(x), Arr(y)) => NormGivesItems(x, y);
    case (Obj(x), Obj(y)) => NormGivesMembers(x, y);
    case _ =>
  }

  lemma {:induction false} NormGivesItems(x: seq<Json>, y: seq<Json>)
    requires Unique(Arr(x)) && Unique(Arr(y)) && NormItems(x) == NormItems(y)
    ensures Equiv(Arr(x), Arr(y))
    decreases x, 1
  {
    assert |x| == |NormItems(x)| == |y|;
    forall i | 0 <= i < |x| ensures Equiv(x[i], y[i]) {
      assert NormItems(x)[i] == NormItems(y)[i];
      NormGivesEquiv(x[i], y[i]);
    }
  }

  lemma {:induction false} NormGivesMembers(x: seq<Member>, y: seq<Member>)
    requires Unique(Obj(x)) && Unique(Obj(y))
    requires SortMembers(NormMembers(x)) == SortMembers(NormMembers(y))
    ensures Equiv(Obj(x), Obj(y))
    decreases x, 1
  {
    assert |x| == |NormMembers(x)| == |SortMembers(NormMembers(x))| == |y|;
    forall i | 0 <= i < |x| ensures MatchedIn(x[i], y) {
      var j := MatchingMember(x, y, i);
      NormGivesEquiv(x[i].value, y[j].value);
    }
  }

  /** Distinctly named member lists of one length, one inside the other, sort to the same list. */
  lemma SameMembersSortAlike(a: seq<Member>, b: seq<Member>)
    requires DistinctNames(a) && DistinctNames(b) && |a| == |b|
    requires forall i :: 0 <= i < |a| ==> a[i] in b
    ensures SortMembers(a) == SortMembers(b)
  {
    InjectionIsOnto(a, b);
    SortSorts(a);
    SortSorts(b);
    forall m ensures m in SortMembers(a) <==> m in SortMembers(b) {
      InSorted(a, m);
      InSorted(b, m);
    }
    SortedUnique(SortMembers(a), SortMembers(b));
  }

  lemma InjectionIsOnto(a: seq<Member>, b: seq<Member>)
    requires DistinctNames(a) && DistinctNames(b) && |a| == |b|
    requires forall i :: 0 <= i < |a| ==> a[i] in b
    ensures forall m :: m in a <==> m in b
  {
    var sa := set m | m in a;
    var sb := set m | m in b;
    CardOfDistinct(a);
    CardOfDistinct(b);
    assert sa <= sb;
    if sa != sb {
      assert sa < sb;
      ProperSubsetIsSmaller(sa, sb);
    }
    assert forall m :: m in a <==> m in sa;
    assert forall m :: m in b <==> m in sb;
  }

  lemma ProperSubsetIsSmaller<T>(s: set<T>, t: set<T>)
    requires s < t
    ensures |s| < |t|
  {
    assert t == s + (t - s);
    assert t - s != {};
  }

  lemma CardOfDistinct(a: seq<Member>)
    requires DistinctNames(a)
    ensures |set m | m in a| == |a|
  {
    if a != [] {
      var rest := a[1..];
      CardOfDistinct(rest);
      forall i | 0 <= i < |rest| ensures rest[i] != a[0] {
        assert rest[i] == a[i + 1];
      }
      assert (set m | m in a) == (set m | m in rest) + {a[0]};
    }
  }

  /** Canonical texts of duplicate-free values agree exactly when the values are equal up to member order. */
  lemma CanonicalIsInjective(v: Json, w: Json)
    requires Unique(v) && Unique(w)
    ensures CanonicalText(v) == CanonicalText(w) <==> Equiv(v, w)
  {
    ParserInvertsWriter(v);
    ParserInvertsWriter(w);
    if Equiv(v, w) {
      EquivGivesNorm(v, w);
    }
    if CanonicalText(v) == CanonicalText(w) {
      NormGivesEquiv(v, w);
    }
  }

  /** In UTF-8 too: duplicate-free values have equal canonical bytes exactly when they are equal up to member order. */
  lemma CanonicalBytesAreInjective(v: Json, w: Json)
    requires Unique(v) && Unique(w)
    ensures Utf8.EncodeAll(CanonicalText(v)) == Utf8.EncodeAll(CanonicalText(w)) <==> Equiv(v, w)
  {
    CanonicalIsInjective(v, w);
    if Utf8.EncodeAll(CanonicalText(v)) == Utf8.EncodeAll(CanonicalText(w)) {
      Utf8.EncodeAllIsInjective(CanonicalText(v), CanonicalText(w));
    }
  }

  // ---- the text is one line -------------------------------------------------------

  ghost predicate Printable(t: string)
  {
    forall i :: 0 <= i < |t| ==> t[i] >= ' '
  }

  lemma PrintableConcat(a: string, b: string)
    requires Printable(a) && Printable(b)
    ensures Printable(a + b)
  {
  }

  lemma EscapedIsPrintable(s: string)
    ensures Printable(EscapeBody(s))
  {
    if s != "" {
      EscapedIsPrintable(s[1..]);
      assert Printable(EscapeChar(s[0]));
      PrintableConcat(EscapeChar(s[0]), EscapeBody(s[1..]));
    }
  }

  lemma QuotedIsPrintable(s: string)
    ensures Printable(Quoted(s))
  {
    EscapedIsPrintable(s);
    PrintableConcat("\"", EscapeBody(s));
    PrintableConcat("\"" + EscapeBody(s), "\"");
  }

  lemma NumberIsPrintable(n: int)
    ensures Printable(NumberText(n))
  {
    var d := Decimal(if n < 0 then -n else n);
    forall i | 0 <= i < |d| ensures d[i] >= ' ' {
      assert AsciiDigit(d[i]);
    }
    PrintableConcat("-", d);
  }

  /** A canonical text holds no control character, so in particular no line feed. */
  lemma {:induction false} TextIsPrintable(v: Json)
    ensures Printable(Text(v))
    decreases v, 0
  {
    match v
    case Num(n) => NumberIsPrintable(n);
    case Str(s) => QuotedIsPrintable(s);
    case Arr(items) =>
      ItemsArePrintable(items);
      PrintableConcat("[", ItemsText(items));
      PrintableConcat("[" + ItemsText(items), "]");
    case Obj(ms) =>
      MembersArePrintable(ms);
      PrintableConcat("{", MembersText(ms));
      PrintableConcat("{" + MembersText(ms), "}");
    case _ =>
  }

  lemma {:induction false} ItemsArePrintable(vs: seq<Json>)
    ensures Printable(ItemsText(vs))
    decreases vs, 1
  {
    if vs != [] {
      TextIsPrintable(vs[0]);
      if |vs| > 1 {
        ItemsArePrintable(vs[1..]);
        PrintableConcat(Text(vs[0]), ",");
        PrintableConcat(Text(vs[0]) + ",", ItemsText(vs[1..]));
      }
    }
  }

  lemma {:induction false} MembersArePrintable(ms: seq<Member>)
    ensures Printable(MembersText(ms))
    decreases ms, 1
  {
    if ms != [] {
      QuotedIsPrintable(ms[0].name);
      TextIsPrintable(ms[0].value);
      PrintableConcat(Quoted(ms[0].name), ":");
      PrintableConcat(Quoted(ms[0].name) + ":", Text(ms[0].value));
      if |ms| > 1 {
        MembersArePrintable(ms[1..]);
        PrintableConcat(MemberText(ms[0]), ",");
        PrintableConcat(MemberText(ms[0]) + ",", MembersText(ms[1..]));
      }
    }
  }

  // ---- digest preimages -------------------------------------------------------------

  const NUL: char := 0 as char

  predicate ValidDomain(domain: string)
  {
    domain != "" && forall i :: 0 <= i < |domain| ==> domain[i] != NUL && domain[i] < 128 as char
  }

  function Preimage(domain: string, v: Json): string
  {
    domain + [NUL] + CanonicalText(v)
  }

  /** The semantic digest: refused for an empty, non-ASCII or NUL-bearing domain. */
  function SemanticDigest(hash: string -> string, domain: string, v: Json): Result<string>
  {
    if ValidDomain(domain) then Ok(hash(Preimage(domain, v))) else Err
  }

  function FirstNul(s: string): nat
  {
    if s == "" || s[0] == NUL then 0 else 1 + FirstNul(s[1..])
  }

  lemma FirstNulAfter(a: string, x: string)
    requires forall i :: 0 <= i < |a| ==> a[i] != NUL
    ensures FirstNul(a + [NUL] + x) == |a|
  {
    if a != "" {
      assert (a + [NUL] + x)[1..] == a[1..] + [NUL] + x;
      FirstNulAfter(a[1..], x);
    }
  }

  lemma NulSplitsOnce(a: string, x: string, b: string, y: string)
    requires forall i :: 0 <= i < |a| ==> a[i] != NUL
    requires forall i :: 0 <= i < |b| ==> b[i] != NUL
    requires a + [NUL] + x == b + [NUL] + y
    ensures a == b && x == y
  {
    var s, t := a + [NUL] + x, b + [NUL] + y;
    FirstNulAfter(a, x);
    FirstNulAfter(b, y);
    assert a == s[..|a|] && b == t[..|b|];
    assert x == s[|a| + 1..] && y == t[|b| + 1..];
  }

  /** Equal semantic digests mean the same domain and the same value up to member order, or a hash collision. */
  lemma DigestSeparates(hash: string -> string, d1: string, v: Json, d2: string, w: Json)
    requires Unique(v) && Unique(w) && ValidDomain(d1) && ValidDomain(d2)
    ensures d1 == d2 && Equiv(v, w) ==> SemanticDigest(hash, d1, v) == SemanticDigest(hash, d2, w)
    ensures SemanticDigest(hash, d1, v) == SemanticDigest(hash, d2, w) ==>
              (d1 == d2 && Equiv(v, w)) || Collision(hash, Preimage(d1, v), Preimage(d2, w))
  {
    CanonicalIsInjective(v, w);
    if Preimage(d1, v) == Preimage(d2, w) {
      NulSplitsOnce(d1, CanonicalText(v), d2, CanonicalText(w));
    }
  }

  // ---- the writer, as the program runs it ---------------------------------------------

  function InsertKey(key: string, keys: seq<string>): (r: seq<string>)
    ensures |r| == |keys| + 1
  {
    if keys == [] then [key]
    else if Before(key, keys[0]) then [key] + keys
    else [keys[0]] + InsertKey(key, keys[1..])
  }

  /** The names of an object in order: what sorting its keys yields. */
  function SortedKeys(ms: seq<Member>): (r: seq<string>)
    ensures |r| == |ms|
  {
    if ms == [] then [] else InsertKey(ms[0].name, SortedKeys(ms[1..]))
  }

  function Names(ms: seq<Member>): (r: seq<string>)
    ensures |r| == |ms| && forall i :: 0 <= i < |ms| ==> r[i] == ms[i].name
  {
    if ms == [] then [] else [ms[0].name] + Names(ms[1..])
  }

  lemma InsertNames(m: Member, ms: seq<Member>)
    ensures Names(InsertMember(m, ms)) == InsertKey(m.name, Names(ms))
  {
    if ms != [] && !Before(m.name, ms[0].name) {
      InsertNames(m, ms[1..]);
      assert Names(ms)[1..] == Names(ms[1..]);
    }
  }

  /** Sorting the keys visits the members in the order of the sorted normal form. */
  lemma SortedKeysAreNames(ms: seq<Member>)
    ensures SortedKeys(ms) == Names(SortMembers(NormMembers(ms)))
  {
    if ms != [] {
      SortedKeysAreNames(ms[1..]);
      var norm := NormMembers(ms);
      assert norm[1..] == NormMembers(ms[1..]);
      InsertNames(norm[0], SortMembers(norm[1..]));
    }
  }

  function FindKey(ms: seq<Member>, key: string): (i: nat)
    requires exists j :: 0 <= j < |ms| && ms[j].name == key
    ensures i < |ms| && ms[i].name == key
  {
    if ms[0].name == key then 0
    else
      assert exists j :: 0 <= j < |ms[1..]| && ms[1..][j].name == key by {
        var j :| 0 <= j < |ms| && ms[j].name == key;
        assert ms[1..][j - 1].name == key;
      }
      1 + FindKey(ms[1..], key)
  }

  lemma KeyExists(ms: seq<Member>, i: nat) returns (j: nat)
    requires i < |ms|
    ensures j < |ms| && ms[j].name == SortedKeys(ms)[i]
    ensures SortMembers(NormMembers(ms))[i] == Member(ms[j].name, Norm(ms[j].value))
  {
    var norm := NormMembers(ms);
    var m := SortMembers(norm)[i];
    SortedKeysAreNames(ms);
    InSorted(norm, m);
    j :| 0 <= j < |norm| && norm[j] == m;
  }

  lemma FindsTheOne(ms: seq<Member>, j: nat)
    requires DistinctNames(ms) && j < |ms|
    ensures FindKey(ms, ms[j].name) == j
  {
  }

  /** Looking a sorted key up gives the member the sorted normal form holds at that place. */
  lemma KeyFinds(ms: seq<Member>, i: nat)
    requires DistinctNames(ms) && i < |ms|
    ensures exists j :: 0 <= j < |ms| && ms[j].name == SortedKeys(ms)[i]
    ensures SortMembers(NormMembers(ms))[i] ==
            Member(SortedKeys(ms)[i], Norm(ms[FindKey(ms, SortedKeys(ms)[i])].value))
  {
    var j := KeyExists(ms, i);
    FindsTheOne(ms, j);
  }

  /** What remains to be written from place i on, with the comma that precedes it. */
  function ItemsFrom(vs: seq<Json>, i: nat): string
    requires i <= |vs|
  {
    if i == |vs| then "" else (if i == 0 then "" else ",") + ItemsText(vs[i..])
  }

  lemma ItemsAdvance(vs: seq<Json>, i: nat)
    requires i < |vs|
    ensures ItemsFrom(vs, i) == (if i > 0 then "," else "") + Text(vs[i]) + ItemsFrom(vs, i + 1)
  {
    var rest := vs[i..];
    assert rest[0] == vs[i] && rest[1..] == vs[i + 1..];
  }

  function MembersFrom(ms: seq<Member>, i: nat): string
    requires i <= |ms|
  {
    if i == |ms| then "" else (if i == 0 then "" else ",") + MembersText(ms[i..])
  }

  lemma MembersAdvance(ms: seq<Member>, i: nat)
    requires i < |ms|
    ensures MembersFrom(ms, i) == (if i > 0 then "," else "") + MemberText(ms[i]) + MembersFrom(ms, i + 1)
  {
    var rest := ms[i..];
    assert rest[0] == ms[i] && rest[1..] == ms[i + 1..];
  }

  method Write(value: Json, target: string) returns (out: string)
    requires Unique(value)
    ensures out == target + CanonicalText(value)
    decreases value, 0
  {
    match value
    case Null => out := target + "null";
    case Bool(b) => out := target + if b then "true" else "false";
    case Num(n) => out := target + NumberText(n);
    case Str(s) => out := target + Quoted(s);
    case Arr(items) =>
      out := target + "[";
      out := WriteItems(items, out);
      out := out + "]";
      Bracket(target, "[", ItemsText(NormItems(items)), "]");
    case Obj(ms) =>
      out := target + "{";
      out := WriteMembers(ms, out);
      out := out + "}";
      Bracket(target, "{", MembersText(SortMembers(NormMembers(ms))), "}");
  }

  lemma Bracket(target: string, open: string, body: string, close: string)
    ensures target + open + body + close == target + (open + body + close)
  {
  }

  lemma Advance(whole: string, sep: string, text: string, more: string, out: string, goal: string)
    requires whole == sep + text + more && out + whole == goal
    ensures (out + sep + text) + more == goal
  {
  }

  method WriteItems(items: seq<Json>, target: string) returns (out: string)
    requires forall i :: 0 <= i < |items| ==> Unique(items[i])
    ensures out == target + ItemsText(NormItems(items))
    decreases items, 1
  {
    ghost var norm := NormItems(items);
    out := target;
    var i := 0;
    assert norm[0..] == norm;
    while i < |items|
      invariant 0 <= i <= |items|
      invariant out + ItemsFrom(norm, i) == target + ItemsText(norm)
    {
      ItemsAdvance(norm, i);
      ghost var sep := if i > 0 then "," else "";
      Advance(ItemsFrom(norm, i), sep, Text(norm[i]), ItemsFrom(norm, i + 1), out, target + ItemsText(norm));
      ghost var before := out;
      if i > 0 {
        out := out + ",";
      }
      assert out == before + sep;
      out := Write(items[i], out);
      i := i + 1;
    }
  }

  method WriteMembers(ms: seq<Member>, target: string) returns (out: string)
    requires DistinctNames(ms) && forall i :: 0 <= i < |ms| ==> Unique(ms[i].value)
    ensures out == target + MembersText(SortMembers(NormMembers(ms)))
    decreases ms, 1
  {
    ghost var norm := SortMembers(NormMembers(ms));
    out := target;
    var keys := SortedKeys(ms);
    var i := 0;
    assert norm[0..] == norm;
    while i < |keys|
      invariant 0 <= i <= |keys|
      invariant out + MembersFrom(norm, i) == target + MembersText(norm)
    {
      MembersAdvance(norm, i);
      ghost var sep := if i > 0 then "," else "";
      Advance(MembersFrom(norm, i), sep, MemberText(norm[i]), MembersFrom(norm, i + 1), out, target + MembersText(norm));
      ghost var before := out;
      if i > 0 {
        out := out + ",";
      }
      assert out == before + sep;
      out := WriteMemberAt(ms, keys, i, out);
      i := i + 1;
    }
  }

  /** Writes the member that the i-th sorted key names. */
  method WriteMemberAt(ms: seq<Member>, keys: seq<string>, i: nat, target: string) returns (out: string)
    requires i < |ms| && keys == SortedKeys(ms)
    requires DistinctNames(ms) && forall k :: 0 <= k < |ms| ==> Unique(ms[k].value)
    ensures out == target + MemberText(SortMembers(NormMembers(ms))[i])
    decreases ms, 0
  {
    KeyFinds(ms, i);
    var member := ms[FindKey(ms, keys[i])];
    out := WriteMember(keys[i], member.value, target);
  }

  method WriteMember(key: string, value: Json, target: string) returns (out: string)
    requires Unique(value)
    ensures out == target + MemberText(Member(key, Norm(value)))
    decreases value, 1
  {
    out := target + Quoted(key);
    out := out + ":";
    out := Write(value, out);
  }
}
