/** Key quoting only adds quotes, is idempotent, and is announced by its detector. */
module TextRepairTheorems {
  import opened Base
  import opened Chars
  import opened TextRepair

  // ---- only quotes are added ------------------------------------------------------------

  function PlainText(ks: seq<Token>): string
  {
    if ks == [] then "" else Plain(ks[0]) + PlainText(ks[1..])
  }

  function RepairedText(ks: seq<Token>): string
  {
    if ks == [] then "" else Repaired(ks[0]) + RepairedText(ks[1..])
  }

  /** Text and repair are spelled by the same tokens: literals and single characters are copied, and a word gains one
      pair of quotes exactly where only white space separates it from a colon. */
  lemma {:induction false} RepairIsTokenwise(t: string)
    ensures PlainText(Tokens(t)) == t && RepairedText(Tokens(t)) == QuoteKeys(t)
    decreases |t|
  {
    if t != "" {
      TokenIsPrefix(t);
      RepairIsTokenwise(AfterToken(t));
      var k := NextToken(t);
      assert Tokens(t)[1..] == Tokens(AfterToken(t));
      assert t == t[..|Plain(k)|] + t[|Plain(k)|..];
    }
  }

  /** Some word of the text stands as a bare key. */
  predicate HasKeyToken(t: string)
    decreases |t|
  {
    t != "" && (NextToken(t).Key? || HasKeyToken(AfterToken(t)))
  }

  lemma {:induction false} RepairGrows(t: string)
    ensures |QuoteKeys(t)| >= |t|
    ensures HasKeyToken(t) ==> |QuoteKeys(t)| > |t|
    ensures !HasKeyToken(t) ==> QuoteKeys(t) == t
    decreases |t|
  {
    if t != "" {
      TokenIsPrefix(t);
      RepairGrows(AfterToken(t));
      var k := NextToken(t);
      assert t == Plain(k) + AfterToken(t);
    }
  }

  // ---- the detector ------------------------------------------------------------------------

  /** After white space comes a colon. */
  predicate ColonNext(s: string)
  {
    WhiteLength(s) < |s| && s[WhiteLength(s)] == ':'
  }

  predicate AsciiColonNext(s: string)
  {
    AsciiWhiteLength(s) < |s| && s[AsciiWhiteLength(s)] == ':'
  }

  lemma {:induction false} AsciiColonIsColon(s: string)
    ensures AsciiColonNext(s) ==> ColonNext(s)
  {
    if s != "" && AsciiWhite(s[0]) {
      AsciiColonIsColon(s[1..]);
    }
  }

  /** Only white space of the ASCII kind, which excludes the vertical tab. */
  predicate AsciiGap(gap: string)
  {
    forall i :: 0 <= i < |gap| ==> AsciiWhite(gap[i])
  }

  lemma {:induction false} AsciiGapIsSkipped(s: string)
    ensures AsciiGap(s[..WhiteLength(s)]) <==> AsciiWhiteLength(s) == WhiteLength(s)
    ensures AsciiWhiteLength(s) <= WhiteLength(s)
    ensures AsciiWhiteLength(s) < WhiteLength(s) ==> s[AsciiWhiteLength(s)] != ':'
  {
    if s != "" && White(s[0]) {
      var n := WhiteLength(s[1..]);
      AsciiGapIsSkipped(s[1..]);
      assert s[..n + 1] == [s[0]] + s[1..][..n];
    }
  }

  lemma WordKey(t: string)
    requires t != "" && WordStart(t[0])
    ensures 0 < WordLength(t) <= |t|
    ensures NextToken(t).Key? <==> ColonNext(t[WordLength(t)..])
    ensures !NextToken(t).Key? ==> AfterToken(t) == t[WordLength(t)..]
  {
    var n := WordLength(t);
    WordToken(t, n, WhiteLength(t[n..]));
    hide NextToken, StringEnd, WhiteLength;
  }

  lemma WordStep(t: string)
    requires t != "" && WordStart(t[0])
    ensures 0 < WordLength(t) <= |t|
    ensures NextToken(t).Key? <==> ColonNext(t[WordLength(t)..])
    ensures !NextToken(t).Key? ==> AfterToken(t) == t[WordLength(t)..]
    ensures HasBareKey(t) <==> AsciiColonNext(t[WordLength(t)..]) || HasBareKey(t[WordLength(t)..])
  {
    WordKey(t);
    hide NextToken, AfterToken, StringEnd, ColonNext, WordLength, WhiteLength, AsciiWhiteLength;
  }

  lemma LiteralAfter(t: string)
    requires t != "" && t[0] == '"'
    ensures !NextToken(t).Key? && HasBareKey(t) == HasBareKey(AfterToken(t))
  {
  }

  lemma OtherAfter(t: string)
    requires t != "" && t[0] != '"' && !WordStart(t[0])
    ensures !NextToken(t).Key? && AfterToken(t) == t[1..] && HasBareKey(t) == HasBareKey(t[1..])
  {
  }

  lemma {:induction false} WhiteHoldsNoKey(s: string)
    ensures HasBareKey(s) == HasBareKey(s[WhiteLength(s)..])
  {
    if s != "" && White(s[0]) {
      WhiteHoldsNoKey(s[1..]);
      assert s[1..][WhiteLength(s[1..])..] == s[WhiteLength(s)..];
    }
  }

  /** A key token is reported at once when its gap is ASCII, and otherwise passed over. */
  lemma KeyAfter(t: string)
    requires t != "" && NextToken(t).Key?
    ensures HasBareKey(t) <==> AsciiGap(NextToken(t).gap) || HasBareKey(AfterToken(t))
  {
    var n := WordLength(t);
    var s := t[n..];
    var g := WhiteLength(s);
    WordStep(t);
    WordToken(t, n, g);
    AsciiGapIsSkipped(s);
    WhiteHoldsNoKey(s);
    ColonHoldsNoKey(s[g..]);
    hide HasBareKey, NextToken, WordLength, WhiteLength, AsciiWhiteLength, AsciiGap, StringEnd;
    assert t[n..n + g] == s[..g] && s[g] == ':';
    assert s[g..][1..] == t[n + g + 1..] == AfterToken(t);
  }

  lemma ColonHoldsNoKey(s: string)
    ensures s != "" && s[0] == ':' ==> HasBareKey(s) == HasBareKey(s[1..])
  {
  }

  /** Some word stands as a key with nothing but ASCII white space before its colon. */
  ghost predicate HasAsciiKey(ks: seq<Token>)
  {
    exists i :: 0 <= i < |ks| && ks[i].Key? && AsciiGap(ks[i].gap)
  }

  lemma AsciiKeyHead(k: Token, ks: seq<Token>)
    ensures HasAsciiKey([k] + ks) <==> (k.Key? && AsciiGap(k.gap)) || HasAsciiKey(ks)
  {
    var all := [k] + ks;
    if k.Key? && AsciiGap(k.gap) {
      assert all[0] == k;
    }
    if i :| 0 <= i < |ks| && ks[i].Key? && AsciiGap(ks[i].gap) {
      assert all[i + 1] == ks[i];
    }
    if j :| 0 <= j < |all| && all[j].Key? && AsciiGap(all[j].gap) {
      assert j > 0 ==> ks[j - 1] == all[j];
    }
  }

  /** The detector reports exactly the texts with such a key. */
  lemma {:induction false} DetectorIsExact(t: string)
    ensures HasBareKey(t) <==> HasAsciiKey(Tokens(t))
    decreases |t|
  {
    if t != "" {
      DetectorIsExact(AfterToken(t));
      AsciiKeyHead(NextToken(t), Tokens(AfterToken(t)));
      if t[0] == '"' {
        LiteralAfter(t);
      } else if WordStart(t[0]) {
        if NextToken(t).Key? {
          KeyAfter(t);
        } else {
          WordStep(t);
          AsciiColonIsColon(t[WordLength(t)..]);
        }
      } else {
        OtherAfter(t);
      }
    }
  }

  lemma {:induction false} KeyTokenIsThere(t: string)
    ensures HasKeyToken(t) <==> exists i :: 0 <= i < |Tokens(t)| && Tokens(t)[i].Key?
    decreases |t|
  {
    if t != "" {
      KeyTokenIsThere(AfterToken(t));
      var ks := Tokens(AfterToken(t));
      assert Tokens(t)[0] == NextToken(t);
      assert forall i :: 0 <= i < |ks| ==> Tokens(t)[i + 1] == ks[i];
      if j :| 0 <= j < |Tokens(t)| && Tokens(t)[j].Key? {
        assert j > 0 ==> ks[j - 1] == Tokens(t)[j];
      }
      if i :| 0 <= i < |ks| && ks[i].Key? {
        assert Tokens(t)[i + 1] == ks[i];
      }
    }
  }

  /** The detector implies that the repair changes the text. The two agree exactly on the texts without a bare key and
      those with one whose gap is ASCII white space; a caller sees both in the tokens. */
  lemma DetectorAgrees(t: string)
    ensures HasBareKey(t) ==> QuoteKeys(t) != t
    ensures (HasBareKey(t) <==> QuoteKeys(t) != t) <==>
            (forall i :: 0 <= i < |Tokens(t)| ==> !Tokens(t)[i].Key?) || HasAsciiKey(Tokens(t))
  {
    RepairGrows(t);
    DetectorIsExact(t);
    KeyTokenIsThere(t);
  }

  /** No white space but the ASCII kind. */
  predicate PlainWhite(t: string)
  {
    forall i :: 0 <= i < |t| && White(t[i]) ==> AsciiWhite(t[i])
  }

  lemma PlainKey(t: string)
    requires t != "" && PlainWhite(t) && NextToken(t).Key?
    ensures AsciiGap(NextToken(t).gap)
  {
    var n := WordLength(t);
    WordToken(t, n, WhiteLength(t[n..]));
    hide NextToken, WordLength, StringEnd;
    GapIsWhite(t[n..]);
  }

  lemma PlainAfter(t: string)
    requires t != "" && PlainWhite(t)
    ensures PlainWhite(AfterToken(t))
  {
    TokenIsPrefix(t);
    hide NextToken, Plain;
  }

  lemma {:induction false} PlainGaps(t: string)
    requires PlainWhite(t)
    ensures forall i :: 0 <= i < |Tokens(t)| && Tokens(t)[i].Key? ==> AsciiGap(Tokens(t)[i].gap)
    decreases |t|
  {
    hide PlainWhite, AsciiGap, NextToken, AfterToken;
    if t != "" {
      PlainAfter(t);
      PlainGaps(AfterToken(t));
      if NextToken(t).Key? {
        PlainKey(t);
      }
      assert Tokens(t)[1..] == Tokens(AfterToken(t));
    }
  }

  /** In particular they agree on text whose white space is all ASCII without vertical tab. */
  lemma PlainTextAgrees(t: string)
    requires PlainWhite(t)
    ensures HasBareKey(t) <==> QuoteKeys(t) != t
  {
    DetectorAgrees(t);
    PlainGaps(t);
    if i :| 0 <= i < |Tokens(t)| && Tokens(t)[i].Key? {
      assert AsciiGap(Tokens(t)[i].gap);
    }
  }

  /** Beyond that the detector can miss a key: a vertical tab before the colon hides it. */
  lemma VerticalTabHidesKey()
    ensures var t := ['a', 11 as char, ':'];
            !HasBareKey(t) && QuoteKeys(t) == ['"', 'a', '"', 11 as char, ':']
  {
    var t := ['a', 11 as char, ':'];
    var gap := t[1..];
    assert t[1..] == [11 as char, ':'] && gap[1..] == [':'] && [':'][1..] == "";
    assert WordLength(gap) == 0 && WordLength(t) == 1;
    assert WhiteLength([':']) == 0 && WhiteLength(gap) == 1;
    assert AsciiWhiteLength(gap) == 0;
    assert HasBareKey("") == false && HasBareKey([':']) == HasBareKey("");
    assert HasBareKey(gap) == HasBareKey([':']);
    WordStep(t);
    WordToken(t, 1, 1);
    assert t[..1] == ['a'] && t[1..2] == [11 as char];
    assert Plain(NextToken(t)) == t;
    assert AfterToken(t) == "";
  }

  // ---- idempotence ---------------------------------------------------------------------------

  /** A closing quote is found. */
  predicate Closed(t: string, escaped: bool)
  {
    t != "" && ((!escaped && t[0] == '"') || Closed(t[1..], !escaped && t[0] == '\\'))
  }

  lemma {:induction false} OpenTakesAll(t: string, escaped: bool)
    requires !Closed(t, escaped)
    ensures StringEnd(t, escaped) == |t|
  {
    if t != "" {
      OpenTakesAll(t[1..], !escaped && t[0] == '\\');
    }
  }

  /** A closed literal ends where it ended, whatever comes after. */
  lemma {:induction false} ClosedStands(t: string, escaped: bool, n: nat, more: string)
    requires Closed(t, escaped) && n == StringEnd(t, escaped)
    ensures 0 < n && StringEnd(t[..n] + more, escaped) == n
  {
    var s := t[..n] + more;
    if escaped || t[0] != '"' {
      assert s[0] == t[0];
      ClosedStands(t[1..], !escaped && t[0] == '\\', n - 1, more);
      assert s[1..] == t[1..][..n - 1] + more;
    }
  }

  lemma {:induction false} NameCloses(name: string, more: string)
    requires forall i :: 0 <= i < |name| ==> WordChar(name[i])
    ensures StringEnd(name + ['"'] + more, false) == |name| + 1
  {
    if name != "" {
      assert (name + ['"'] + more)[1..] == name[1..] + ['"'] + more;
      NameCloses(name[1..], more);
    }
  }

  lemma {:induction false} WordIsWordChars(t: string)
    ensures forall i :: 0 <= i < WordLength(t) ==> WordChar(t[i])
    ensures WordLength(t) < |t| ==> !WordChar(t[WordLength(t)])
  {
    if t != "" && WordChar(t[0]) {
      WordIsWordChars(t[1..]);
      forall i | 0 <= i < WordLength(t) ensures WordChar(t[i]) {
        if i > 0 {
          assert t[i] == t[1..][i - 1];
        }
      }
    }
  }

  lemma {:induction false} GapIsWhite(t: string)
    ensures forall i :: 0 <= i < WhiteLength(t) ==> White(t[i])
  {
    if t != "" && White(t[0]) {
      GapIsWhite(t[1..]);
      forall i | 0 <= i < WhiteLength(t) ensures White(t[i]) {
        if i > 0 {
          assert t[i] == t[1..][i - 1];
        }
      }
    }
  }

  /** Characters that begin neither a literal nor a word pass through one by one. */
  predicate Passive(s: string)
  {
    forall i :: 0 <= i < |s| ==> s[i] != '"' && !WordStart(s[i])
  }

  lemma OneOther(c: char, rest: string)
    requires c != '"' && !WordStart(c)
    ensures QuoteKeys([c] + rest) == [c] + QuoteKeys(rest)
  {
    var t := [c] + rest;
    OtherAfter(t);
    assert t[1..] == rest;
  }

  lemma {:induction false} PassiveStands(s: string, rest: string, whole: string)
    requires Passive(s) && whole == s + rest
    ensures QuoteKeys(whole) == s + QuoteKeys(rest)
    decreases |s|
  {
    if s == "" {
      assert whole == rest;
    } else {
      var tail := s[1..] + rest;
      assert whole == [s[0]] + tail;
      PassiveStands(s[1..], rest, tail);
      OneOther(s[0], tail);
      Cons(s, QuoteKeys(rest));
    }
  }

  lemma Cons(s: string, more: string)
    requires s != ""
    ensures [s[0]] + (s[1..] + more) == s + more
  {
  }

  /** A closed literal passes through whole. */
  lemma LiteralStands(literal: string, rest: string)
    requires literal != "" && literal[0] == '"' && StringEnd(literal[1..] + rest, false) == |literal| - 1
    ensures QuoteKeys(literal + rest) == literal + QuoteKeys(rest)
  {
    var t := literal + rest;
    assert t[1..] == literal[1..] + rest;
    assert NextToken(t) == Literal(t[..|literal|]);
    assert t[..|literal|] == literal && t[|literal|..] == rest;
  }

  lemma {:induction false} HeadOfRepair(t: string)
    requires t == "" || !WordChar(t[0])
    ensures QuoteKeys(t) == "" || !WordChar(QuoteKeys(t)[0])
    ensures ColonNext(QuoteKeys(t)) <==> ColonNext(t)
    decreases |t|, 0
  {
    if t != "" && t[0] != '"' {
      OneOther(t[0], t[1..]);
      assert t == [t[0]] + t[1..];
      if White(t[0]) {
        ColonAfterWhite(t[0], t[1..]);
        ColonAfterWhite(t[0], QuoteKeys(t[1..]));
        AnyHeadOfRepair(t[1..]);
      }
    } else if t != "" {
      OpenLiteral(t);
    }
  }

  lemma ColonAfterWhite(c: char, s: string)
    requires White(c)
    ensures ColonNext([c] + s) <==> ColonNext(s)
  {
    assert ([c] + s)[1..] == s;
  }

  /** Whether a colon comes next is not changed by the repair, even when a word or literal does. */
  lemma AnyHeadOfRepair(t: string)
    ensures ColonNext(QuoteKeys(t)) <==> ColonNext(t)
    decreases |t|, 1
  {
    if t != "" && WordChar(t[0]) {
      TokenIsPrefix(t);
      if AsciiDigit(t[0]) {
        OneOther(t[0], t[1..]);
        assert t == [t[0]] + t[1..];
      } else {
        WordHead(t);
      }
    } else {
      HeadOfRepair(t);
    }
  }

  lemma WordHead(t: string)
    requires t != "" && WordStart(t[0])
    ensures QuoteKeys(t) != "" && (QuoteKeys(t)[0] == t[0] || QuoteKeys(t)[0] == '"')
  {
    WordStep(t);
    var k := NextToken(t);
    assert QuoteKeys(t) == Repaired(k) + QuoteKeys(AfterToken(t));
    assert k.Word? ==> k.name[0] == t[0];
  }

  lemma {:induction false} WordMeets(name: string, rest: string)
    requires forall i :: 0 <= i < |name| ==> WordChar(name[i])
    requires rest == "" || !WordChar(rest[0])
    ensures WordLength(name + rest) == |name|
  {
    if name == "" {
      assert name + rest == rest;
    } else {
      assert (name + rest)[1..] == name[1..] + rest;
      WordMeets(name[1..], rest);
    }
  }

  lemma WordStands(name: string, rest: string)
    requires name != "" && WordStart(name[0]) && forall i :: 0 <= i < |name| ==> WordChar(name[i])
    requires (rest == "" || !WordChar(rest[0])) && !ColonNext(rest)
    ensures QuoteKeys(name + rest) == name + QuoteKeys(rest)
  {
    var t := name + rest;
    WordMeets(name, rest);
    assert t[|name|..] == rest && t[..|name|] == name;
    WordToken(t, |name|, WhiteLength(rest));
    assert NextToken(t) == Word(name);
  }

  lemma QuotedNameCloses(name: string, tail: string)
    requires forall i :: 0 <= i < |name| ==> WordChar(name[i])
    ensures QuotedName(name)[0] == '"' && StringEnd(QuotedName(name)[1..] + tail, false) == |QuotedName(name)| - 1
  {
    NameCloses(name, tail);
    assert QuotedName(name)[1..] + tail == name + ['"'] + tail;
  }

  lemma KeyStands(name: string, after: string, rest: string, tail: string)
    requires forall i :: 0 <= i < |name| ==> WordChar(name[i])
    requires Passive(after) && tail == after + rest
    ensures QuoteKeys(QuotedName(name) + tail) == QuotedName(name) + (after + QuoteKeys(rest))
  {
    QuotedNameCloses(name, tail);
    LiteralStands(QuotedName(name), tail);
    PassiveStands(after, rest, tail);
  }

  lemma KeyTokenStands(k: Token, rest: string)
    requires k.Key? && (forall i :: 0 <= i < |k.name| ==> WordChar(k.name[i]))
    requires forall i :: 0 <= i < |k.gap| ==> White(k.gap[i])
    ensures QuoteKeys(Repaired(k) + rest) == Repaired(k) + QuoteKeys(rest)
  {
    var after := k.gap + [':'];
    KeyStands(k.name, after, rest, after + rest);
    Append(QuotedName(k.name), after, rest);
    Append(QuotedName(k.name), after, QuoteKeys(rest));
  }

  lemma HeadOff(t: string, n: nat)
    requires n < |t|
    ensures t[..1 + n][1..] == t[1..][..n]
  {
  }

  lemma LiteralTokenStands(t: string)
    requires t != "" && t[0] == '"'
    ensures var literal, rest := t[..1 + StringEnd(t[1..], false)], QuoteKeys(AfterToken(t));
            QuoteKeys(literal + rest) == literal + QuoteKeys(rest)
  {
    var n := StringEnd(t[1..], false);
    var literal, rest := t[..1 + n], QuoteKeys(AfterToken(t));
    HeadOff(t, n);
    if Closed(t[1..], false) {
      ClosedStands(t[1..], false, n, rest);
    } else {
      OpenTakesAll(t[1..], false);
      assert AfterToken(t) == "" && rest == "";
      assert literal == t && literal[1..] + rest == t[1..];
    }
    LiteralStands(literal, rest);
  }

  lemma WordTokenStands(t: string)
    requires t != "" && WordStart(t[0])
    ensures var k, rest := NextToken(t), QuoteKeys(AfterToken(t));
            QuoteKeys(Repaired(k) + rest) == Repaired(k) + QuoteKeys(rest)
  {
    var n := WordLength(t);
    var g := WhiteLength(t[n..]);
    var rest := QuoteKeys(AfterToken(t));
    WordIsWordChars(t);
    WordStep(t);
    WordToken(t, n, g);
    if NextToken(t).Key? {
      GapIsWhite(t[n..]);
      assert forall i :: 0 <= i < g ==> t[n..n + g][i] == t[n..][i];
      KeyTokenStands(NextToken(t), rest);
    } else {
      assert t[n..] != "" ==> t[n..][0] == t[n] && !WordChar(t[n]);
      HeadOfRepair(t[n..]);
      WordStands(t[..n], rest);
    }
  }

  /** Repairing a repaired text changes nothing. */
  lemma {:induction false} QuotingIsIdempotent(t: string)
    ensures QuoteKeys(QuoteKeys(t)) == QuoteKeys(t)
    decreases |t|
  {
    if t != "" {
      QuotingIsIdempotent(AfterToken(t));
      if t[0] == '"' {
        LiteralTokenStands(t);
      } else if WordStart(t[0]) {
        WordTokenStands(t);
      } else {
        OneOther(t[0], QuoteKeys(AfterToken(t)));
      }
    }
  }
}
