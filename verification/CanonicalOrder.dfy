/** The order of names in canonical text, by code points, and the spelling of its strings. */
module CanonicalOrder {
  import opened Base
  import opened Json
  import opened Canonical
  import opened CanonicalTheorems

  // ---- order by code points -------------------------------------------------------------------------

  /** The texts agree up to place i, and there the first has the smaller code point. */
  predicate DiffersAt(a: string, b: string, i: nat)
  {
    i < |a| && i < |b| && a[..i] == b[..i] && a[i] as int < b[i] as int
  }

  predicate ProperPrefix(a: string, b: string)
  {
    |a| < |b| && b[..|a|] == a
  }

  ghost predicate Precedes(a: string, b: string)
  {
    ProperPrefix(a, b) || exists i :: DiffersAt(a, b, i)
  }

  lemma DiffersLater(a: string, b: string, i: nat)
    requires a != "" && b != "" && a[0] == b[0]
    ensures DiffersAt(a, b, i + 1) <==> DiffersAt(a[1..], b[1..], i)
  {
    if DiffersAt(a, b, i + 1) {
      assert a[1..][..i] == a[..i + 1][1..] && b[1..][..i] == b[..i + 1][1..];
    }
    if DiffersAt(a[1..], b[1..], i) {
      assert a[..i + 1] == [a[0]] + a[1..][..i] && b[..i + 1] == [b[0]] + b[1..][..i];
    }
  }

  lemma PrefixLater(a: string, b: string)
    requires a != "" && b != "" && a[0] == b[0]
    ensures ProperPrefix(a, b) <==> ProperPrefix(a[1..], b[1..])
  {
    if ProperPrefix(a, b) {
      assert b[1..][..|a| - 1] == b[..|a|][1..];
    }
    if ProperPrefix(a[1..], b[1..]) {
      assert b[..|a|] == [b[0]] + b[1..][..|a| - 1] && a == [a[0]] + a[1..];
    }
  }

  lemma FirstPlace(a: string, b: string, i: nat)
    requires DiffersAt(a, b, i)
    ensures a[0] == b[0] || a[0] < b[0]
  {
    assert i > 0 ==> a[0] == a[..i][0] && b[0] == b[..i][0];
  }

  lemma PrefixAgrees(a: string, b: string)
    requires a != ""
    ensures ProperPrefix(a, b) ==> a[0] == b[0]
  {
    assert ProperPrefix(a, b) ==> b[..|a|][0] == b[0];
  }

  /** The order of the writer is the one by code points: a proper prefix first, else the smaller code point at the first
      place where the texts differ. */
  lemma {:induction false} OrderIsByCodePoints(a: string, b: string)
    ensures Before(a, b) <==> Precedes(a, b)
    decreases |a|
  {
    if a == "" || b == "" {
      assert b != "" && a == "" ==> ProperPrefix(a, b);
    } else if a[0] != b[0] {
      assert DiffersAt(a, b, 0) <==> a[0] < b[0];
      forall i: nat | DiffersAt(a, b, i) ensures a[0] < b[0] {
        FirstPlace(a, b, i);
      }
      PrefixAgrees(a, b);
    } else {
      OrderIsByCodePoints(a[1..], b[1..]);
      PrefixLater(a, b);
      if i: nat :| DiffersAt(a[1..], b[1..], i) {
        DiffersLater(a, b, i);
      }
      if i: nat :| DiffersAt(a, b, i) {
        assert i > 0;
        DiffersLater(a, b, i - 1);
      }
    }
  }

  /** Each text strictly precedes the next. */
  ghost predicate Ascends(s: seq<string>)
  {
    forall i :: 0 <= i < |s| - 1 ==> Precedes(s[i], s[i + 1])
  }

  // ---- the order of names in canonical text -------------------------------------------------------------

  /** At every object and depth, each name precedes the next one. */
  ghost predicate NamesInOrder(v: Json)
  {
    match v
    case Arr(items) => forall i :: 0 <= i < |items| ==> NamesInOrder(items[i])
    case Obj(ms) =>
      && (forall i :: 0 < i < |ms| ==> Precedes(ms[i - 1].name, ms[i].name))
      && (forall i :: 0 <= i < |ms| ==> NamesInOrder(ms[i].value))
    case _ => true
  }

  lemma {:induction false} NormIsInOrder(v: Json)
    requires Unique(v)
    ensures NamesInOrder(Norm(v))
    decreases v
  {
    match v
    case Arr(items) =>
      forall i | 0 <= i < |items| ensures NamesInOrder(NormItems(items)[i]) {
        NormIsInOrder(items[i]);
      }
    case Obj(ms) =>
      var norm := NormMembers(ms);
      var sorted := SortMembers(norm);
      SortSorts(norm);
      forall i | 0 < i < |sorted| ensures Precedes(sorted[i - 1].name, sorted[i].name) {
        OrderIsByCodePoints(sorted[i - 1].name, sorted[i].name);
      }
      forall i | 0 <= i < |sorted| ensures NamesInOrder(sorted[i].value) {
        InSorted(norm, sorted[i]);
        var j :| 0 <= j < |norm| && norm[j] == sorted[i];
        NormIsInOrder(ms[j].value);
      }
    case _ =>
  }

  lemma {:induction false} NormIsEquivalent(v: Json)
    requires Unique(v)
    ensures Equiv(v, Norm(v))
    decreases v
  {
    match v
    case Arr(items) =>
      forall i | 0 <= i < |items| ensures Equiv(items[i], NormItems(items)[i]) {
        NormIsEquivalent(items[i]);
      }
    case Obj(ms) =>
      var norm := NormMembers(ms);
      var sorted := SortMembers(norm);
      forall i | 0 <= i < |ms| ensures MatchedIn(ms[i], sorted) {
        NormIsEquivalent(ms[i].value);
        InSorted(norm, norm[i]);
        var j :| 0 <= j < |sorted| && sorted[j] == norm[i];
      }
    case _ =>
  }

  /** Canonical text reads back as the value it was written for, up to the order of members, and at every object and depth
      its names stand in the order of code points. */
  lemma CanonicalTextIsInOrder(v: Json) returns (w: Json)
    requires Unique(v)
    ensures ParseStrict(CanonicalText(v)) == Some(w) && Equiv(v, w) && NamesInOrder(w)
  {
    w := Norm(v);
    ParserInvertsWriter(v);
    NormIsInOrder(v);
    NormIsEquivalent(v);
  }

  // ---- how canonical text grows ------------------------------------------------------------------------------

  /** The short escapes, by code point. */
  const SHORT: map<int, string> :=
    map[0x22 := "\\\"", 0x5c := "\\\\", 0x08 := "\\b", 0x09 := "\\t", 0x0a := "\\n", 0x0c := "\\f", 0x0d := "\\r"]

  const HEX: string := "0123456789abcdef"

  /** A text of one character: short escapes, lower-case hexadecimal for the other characters below a space, and every
      other character itself. */
  lemma CharacterText(c: char)
    ensures CanonicalText(Str([c])) ==
            "\"" + (if c as int in SHORT then SHORT[c as int]
                    else if c as int < 0x20 then "\\u00" + [HEX[c as int / 16], HEX[c as int % 16]]
                    else [c]) + "\""
  {
    assert [c][1..] == "" && EscapeBody([c]) == EscapeChar(c) + "";
    assert EscapeChar(c) + "" == EscapeChar(c);
    if c as int < 0x20 && c as int !in SHORT {
      assert ['\\', 'u', '0', '0', HexDigit(c as int / 16), HexDigit(c as int % 16)] ==
             "\\u00" + [HexDigit(c as int / 16), HexDigit(c as int % 16)];
      HexIsListed(c as int / 16);
      HexIsListed(c as int % 16);
    }
  }

  lemma HexIsListed(n: nat)
    requires n < 16
    ensures HexDigit(n) == HEX[n]
  {
  }

  lemma {:induction false} BodyOfBoth(s: string, t: string)
    ensures EscapeBody(s + t) == EscapeBody(s) + EscapeBody(t)
    decreases |s|
  {
    if s == "" {
      assert s + t == t;
    } else {
      assert (s + t)[1..] == s[1..] + t;
      BodyOfBoth(s[1..], t);
    }
  }

  /** The text with its closing mark replaced by more. */
  function Extended(t: string, more: string): string
  {
    if t == "" then more else t[..|t| - 1] + more
  }

  lemma Cut(open: string, body: string, close: string, more: string)
    requires |close| == 1
    ensures Extended(open + body + close, more) == open + body + more
  {
    assert (open + body + close)[..|open + body|] == open + body;
  }

  lemma Nest(open: string, body: string, sep: string, last: string, close: string)
    ensures open + (body + sep + last) + close == open + body + (sep + last + close)
  {
  }

  lemma QuotesMeet(a: string, b: string)
    ensures Extended("\"" + a + "\"", ("\"" + b + "\"")[1..]) == "\"" + (a + b) + "\""
  {
    var q := "\"";
    assert (q + b + q)[1..] == b + q;
    Cut(q, a, q, b + q);
    assert q + (a + b) + q == q + a + (b + q);
  }

  /** The text of a string: its characters' texts one after the other between two quotation marks. */
  lemma StringText(s: string, t: string)
    ensures CanonicalText(Str("")) == "\"\""
    ensures CanonicalText(Str(s + t)) == Extended(CanonicalText(Str(s)), CanonicalText(Str(t))[1..])
  {
    BodyOfBoth(s, t);
    var a, b, q := EscapeBody(s), EscapeBody(t), "\"";
    assert EscapeBody("") == "" && CanonicalText(Str("")) == q + "" + q;
    assert CanonicalText(Str(s)) == q + a + q && CanonicalText(Str(t)) == q + b + q;
    assert CanonicalText(Str(s + t)) == q + (a + b) + q;
    hide EscapeBody, CanonicalText, Quoted;
    QuotesMeet(a, b);
  }

  lemma Commas(a: string, rest: string, t: string)
    ensures a + "," + (rest + "," + t) == a + "," + rest + "," + t
  {
  }

  lemma {:induction false} ItemsOfMore(vs: seq<Json>, v: Json)
    requires vs != []
    ensures ItemsText(vs + [v]) == ItemsText(vs) + "," + Text(v)
    decreases |vs|
  {
    var first, rest := vs[0], vs[1..];
    assert (vs + [v])[0] == first && (vs + [v])[1..] == rest + [v];
    hide Text;
    assert ItemsText(vs + [v]) == Text(first) + "," + ItemsText(rest + [v]);
    if rest == [] {
      assert rest + [v] == [v];
      assert ItemsText([v]) == Text(v) && ItemsText(vs) == Text(first);
    } else {
      ItemsOfMore(rest, v);
      assert ItemsText(vs) == Text(first) + "," + ItemsText(rest);
      hide ItemsText;
      Commas(Text(first), ItemsText(rest), Text(v));
    }
  }

  lemma {:induction false} NormOfMore(vs: seq<Json>, v: Json)
    ensures NormItems(vs + [v]) == NormItems(vs) + [Norm(v)]
  {
    assert forall i :: 0 <= i < |vs| ==> (vs + [v])[i] == vs[i];
  }

  /** The text of an array: its items with one comma between them and nothing else. */
  lemma ArrayText(vs: seq<Json>, v: Json)
    ensures CanonicalText(Arr([])) == "[]"
    ensures CanonicalText(Arr(vs + [v])) ==
            Extended(CanonicalText(Arr(vs)), (if vs == [] then "" else ",") + CanonicalText(v) + "]")
  {
    NormOfMore(vs, v);
    var norm, sep, last := NormItems(vs), if vs == [] then "" else ",", Text(Norm(v));
    assert ItemsText(norm + [Norm(v)]) == ItemsText(norm) + sep + last by {
      if vs == [] {
        assert [] + [Norm(v)] == [Norm(v)] && "" + "" + last == last;
      } else {
        ItemsOfMore(norm, Norm(v));
      }
    }
    assert CanonicalText(Arr([])) == "[]" && CanonicalText(Arr(vs)) == "[" + ItemsText(norm) + "]";
    assert CanonicalText(Arr(vs + [v])) == "[" + ItemsText(norm + [Norm(v)]) + "]";
    hide ItemsText, Text, NormItems;
    Cut("[", ItemsText(norm), "]", sep + last + "]");
    Nest("[", ItemsText(norm), sep, last, "]");
  }

  lemma {:induction false} MembersOfMore(ms: seq<Member>, m: Member)
    requires ms != []
    ensures MembersText(ms + [m]) == MembersText(ms) + "," + MemberText(m)
    decreases |ms|
  {
    var first, rest := ms[0], ms[1..];
    assert (ms + [m])[0] == first && (ms + [m])[1..] == rest + [m];
    hide MemberText;
    assert MembersText(ms + [m]) == MemberText(first) + "," + MembersText(rest + [m]);
    if rest == [] {
      assert rest + [m] == [m];
      assert MembersText([m]) == MemberText(m) && MembersText(ms) == MemberText(first);
    } else {
      MembersOfMore(rest, m);
      assert MembersText(ms) == MemberText(first) + "," + MembersText(rest);
      hide MembersText;
      Commas(MemberText(first), MembersText(rest), MemberText(m));
    }
  }

  /** Names that precede the last one, however they are ordered among themselves. */
  ghost predicate LastOf(ms: seq<Member>, name: string)
  {
    forall i :: 0 <= i < |ms| ==> Precedes(ms[i].name, name)
  }

  lemma {:induction false} SortsLast(ms: seq<Member>, m: Member)
    requires LastOf(ms, m.name)
    ensures SortMembers(ms + [m]) == SortMembers(ms) + [m]
    decreases |ms|
  {
    if ms == [] {
      assert [] + [m] == [m] && [m][1..] == [];
    } else {
      assert (ms + [m])[1..] == ms[1..] + [m];
      assert LastOf(ms[1..], m.name);
      SortsLast(ms[1..], m);
      OrderIsByCodePoints(ms[0].name, m.name);
      InsertsBefore(ms[0], SortMembers(ms[1..]), m);
    }
  }

  lemma {:induction false} InsertsBefore(x: Member, ms: seq<Member>, m: Member)
    requires Before(x.name, m.name)
    ensures InsertMember(x, ms + [m]) == InsertMember(x, ms) + [m]
    decreases |ms|
  {
    if ms == [] {
      assert [] + [m] == [m];
    } else {
      assert (ms + [m])[1..] == ms[1..] + [m];
      InsertsBefore(x, ms[1..], m);
    }
  }

  lemma NormOfMembers(ms: seq<Member>, m: Member)
    ensures NormMembers(ms + [m]) == NormMembers(ms) + [Member(m.name, Norm(m.value))]
  {
    assert forall i :: 0 <= i < |ms| ==> (ms + [m])[i] == ms[i];
  }

  /** The text of an object: a member whose name comes last is written last, as its name, one colon and its value, with
      one comma before it if it is not the only one. */
  lemma ObjectText(ms: seq<Member>, m: Member)
    requires LastOf(ms, m.name)
    ensures CanonicalText(Obj([])) == "{}"
    ensures CanonicalText(Obj(ms + [m])) ==
            Extended(CanonicalText(Obj(ms)),
                     (if ms == [] then "" else ",") + CanonicalText(Str(m.name)) + ":" + CanonicalText(m.value) + "}")
  {
    NormOfMembers(ms, m);
    var norm, last := NormMembers(ms), Member(m.name, Norm(m.value));
    assert LastOf(norm, last.name);
    SortsLast(norm, last);
    var sorted, sep, text := SortMembers(norm), if ms == [] then "" else ",", MemberText(last);
    assert MembersText(sorted + [last]) == MembersText(sorted) + sep + text by {
      if ms == [] {
        assert [] + [last] == [last] && "" + "" + text == text;
      } else {
        MembersOfMore(sorted, last);
      }
    }
    assert CanonicalText(Obj([])) == "{}" && CanonicalText(Obj(ms)) == "{" + MembersText(sorted) + "}";
    assert CanonicalText(Obj(ms + [m])) == "{" + MembersText(sorted + [last]) + "}";
    hide MembersText, NormMembers, SortMembers;
    Cut("{", MembersText(sorted), "}", sep + text + "}");
    Nest("{", MembersText(sorted), sep, text, "}");
    Spread(sep, CanonicalText(Str(m.name)), CanonicalText(m.value));
  }

  lemma Spread(sep: string, name: string, value: string)
    ensures sep + (name + ":" + value) + "}" == sep + name + ":" + value + "}"
  {
  }

  /** A digest is taken of the domain, one character of code point zero, and the canonical text; for a nonempty domain of
      characters from 1 to 127 and for no other. */
  lemma DigestIsTaken(hash: string -> string, domain: string, v: Json) returns (p: string)
    ensures if domain != "" && forall i :: 0 <= i < |domain| ==> 1 <= domain[i] as int <= 127 then
              && SemanticDigest(hash, domain, v) == Ok(hash(p)) && |p| > |domain|
              && p[..|domain|] == domain && p[|domain|] as int == 0 && p[|domain| + 1..] == CanonicalText(v)
            else SemanticDigest(hash, domain, v) == Err
  {
    p := Preimage(domain, v);
    hide CanonicalText;
    assert forall i :: 0 <= i < |domain| ==> (domain[i] != NUL && domain[i] < 128 as char <==> 1 <= domain[i] as int <= 127);
  }
}
