/** Which characters the repairs touch, by code points: names, white space and raw control characters. */
module RepairClasses {
  import opened Base
  import opened Chars
  import opened Canonical
  import opened TextRepair

  // ---- names ----------------------------------------------------------------------------------------

  /** A letter A to Z or a to z, a low line or a dollar sign. */
  predicate Starts(c: char)
  {
    65 <= c as int <= 90 || 97 <= c as int <= 122 || c as int == 95 || c as int == 36
  }

  /** One of those, or a digit 0 to 9. */
  predicate Continues(c: char)
  {
    Starts(c) || 48 <= c as int <= 57
  }

  predicate Identifier(name: string)
  {
    name != "" && Starts(name[0]) && forall i :: 0 <= i < |name| ==> Continues(name[i])
  }

  /** The code points of the white space that may stand between a name and its colon. */
  const SPACES: set<int> := {
    0x09, 0x0a, 0x0b, 0x0c, 0x0d, 0x20, 0x85, 0xa0, 0x1680, 0x2000, 0x2001, 0x2002, 0x2003, 0x2004, 0x2005, 0x2006,
    0x2007, 0x2008, 0x2009, 0x200a, 0x2028, 0x2029, 0x202f, 0x205f, 0x3000
  }

  const ASCII_SPACES: set<int> := {0x09, 0x0a, 0x0c, 0x0d, 0x20}

  lemma ClassesAreExact(c: char)
    ensures WordStart(c) <==> Starts(c)
    ensures WordChar(c) <==> Continues(c)
    ensures White(c) <==> c as int in SPACES
    ensures AsciiWhite(c) <==> c as int in ASCII_SPACES
  {
  }

  lemma {:induction false} WordRuns(name: string, rest: string)
    requires (forall i :: 0 <= i < |name| ==> WordChar(name[i])) && (rest == "" || !WordChar(rest[0]))
    ensures WordLength(name + rest) == |name|
    decreases |name|
  {
    if name == "" {
      assert name + rest == rest;
    } else {
      assert (name + rest)[1..] == name[1..] + rest;
      WordRuns(name[1..], rest);
    }
  }

  lemma {:induction false} WhiteRuns(gap: string, rest: string)
    requires (forall i :: 0 <= i < |gap| ==> White(gap[i])) && (rest == "" || !White(rest[0]))
    ensures WhiteLength(gap + rest) == |gap|
    decreases |gap|
  {
    if gap == "" {
      assert gap + rest == rest;
    } else {
      assert (gap + rest)[1..] == gap[1..] + rest;
      WhiteRuns(gap[1..], rest);
    }
  }

  lemma {:induction false} WordStops(t: string)
    ensures forall i :: 0 <= i < WordLength(t) ==> WordChar(t[i])
    ensures WordLength(t) < |t| ==> !WordChar(t[WordLength(t)])
    decreases |t|
  {
    if t != "" && WordChar(t[0]) {
      WordStops(t[1..]);
    }
  }

  /** A name of the form, white space and a colon are one key. */
  lemma IdentifierIsKey(name: string, gap: string, value: string)
    requires Identifier(name) && forall i :: 0 <= i < |gap| ==> gap[i] as int in SPACES
    ensures var t := name + gap + ":" + value;
            NextToken(t) == Key(name, gap) && AfterToken(t) == value
  {
    var t := name + gap + ":" + value;
    forall i | 0 <= i < |name| ensures WordChar(name[i]) {
      ClassesAreExact(name[i]);
    }
    ClassesAreExact(name[0]);
    forall i | 0 <= i < |gap| ensures White(gap[i]) {
      ClassesAreExact(gap[i]);
    }
    hide SPACES;
    assert t == name + (gap + ":" + value) && gap + ":" + value == gap + (":" + value);
    WordRuns(name, gap + ":" + value);
    WhiteRuns(gap, ":" + value);
    var n, g := |name|, |gap|;
    assert t[0] == name[0] && t[..n] == name && t[n..] == gap + ":" + value && t[n..n + g] == gap && t[n + g] == ':';
    WordToken(t, n, g);
    assert t[n + g + 1..] == value;
  }

  /** The text that quoting the name would give. */
  function Goal(name: string, value: string): string
  {
    "\"" + name + "\":" + QuoteKeys(value)
  }

  lemma KeyIsQuoted(name: string, gap: string, value: string)
    requires Identifier(name) && forall i :: 0 <= i < |gap| ==> gap[i] as int in SPACES
    ensures QuoteKeys(name + gap + ":" + value) == "\"" + name + "\"" + gap + ":" + QuoteKeys(value)
  {
    var t := name + gap + ":" + value;
    IdentifierIsKey(name, gap, value);
    assert t != "";
    assert QuoteKeys(t) == Repaired(NextToken(t)) + QuoteKeys(AfterToken(t));
  }

  /** The word at the head of what is no identifier ends inside it. */
  lemma WordIsShort(name: string, value: string)
    requires name != "" && WordStart(name[0]) && !Identifier(name)
    ensures 0 < WordLength(name + ":" + value) < |name|
  {
    var u := name + ":" + value;
    var n := WordLength(u);
    WordStops(u);
    assert u[0] == name[0] && u[|name|] == ':';
    assert !WordChar(u[|name|]);
    forall i | 0 <= i < n && i < |name| ensures Continues(name[i]) {
      assert u[i] == name[i];
      ClassesAreExact(u[i]);
    }
    ClassesAreExact(name[0]);
  }

  lemma OtherwiseNotQuoted(name: string, value: string)
    requires '"' !in name && !Identifier(name)
    ensures QuoteKeys(name + ":" + value) != Goal(name, value)
  {
    var u, goal := name + ":" + value, Goal(name, value);
    assert u[|name|] == ':' && goal[0] == '"';
    assert name != "" ==> u[0] == name[0] && name[0] in name;
    if NextToken(u).Key? {
      WordIsShort(name, value);
      KeyedHead(u);
      var n := WordLength(u);
      hide QuoteKeys, WordLength, NextToken;
      assert name[n] in name;
      assert goal[n + 1] == name[n];
    } else {
      PlainHead(u);
    }
  }

  lemma KeyedHead(u: string)
    requires u != "" && NextToken(u).Key?
    ensures |QuoteKeys(u)| > WordLength(u) + 1 && QuoteKeys(u)[WordLength(u) + 1] == '"'
    ensures WordStart(u[0])
  {
    var n := WordLength(u);
    var text := Repaired(NextToken(u));
    assert text[n + 1] == '"';
    assert QuoteKeys(u) == text + QuoteKeys(AfterToken(u));
    hide QuoteKeys;
  }

  lemma PlainHead(u: string)
    requires u != "" && !NextToken(u).Key? && u[0] != '"'
    ensures QuoteKeys(u) != "" && QuoteKeys(u)[0] == u[0]
  {
    var text := Repaired(NextToken(u));
    TokenIsPrefix(u);
    assert QuoteKeys(u) == text + QuoteKeys(AfterToken(u));
    hide QuoteKeys;
    assert text[0] == u[..|text|][0];
  }

  /** In an object's text a bare name is given its quotes exactly when it is of identifier form; names with a quotation mark
      in them are literals, not bare names. */
  lemma NameIsRepairedExactly(name: string, value: string)
    requires '"' !in name
    ensures QuoteKeys("{" + name + ":" + value) == "{\"" + name + "\":" + QuoteKeys(value) <==> Identifier(name)
  {
    hide QuoteKeys, Identifier;
    var u := name + ":" + value;
    BraceFirst(u);
    Braced(name, value, QuoteKeys(value));
    if Identifier(name) {
      KeyIsQuoted(name, "", value);
      Gapless(name, value);
    } else {
      OtherwiseNotQuoted(name, value);
      HeadsOff(QuoteKeys(u), Goal(name, value));
    }
  }

  lemma Braced(name: string, value: string, out: string)
    ensures "{" + (name + ":" + value) == "{" + name + ":" + value
    ensures "{\"" + name + "\":" + out == "{" + ("\"" + name + "\":" + out)
  {
  }

  lemma Gapless(name: string, value: string)
    ensures name + "" + ":" + value == name + ":" + value
    ensures "\"" + name + "\"" + "" + ":" + QuoteKeys(value) == Goal(name, value)
  {
    hide QuoteKeys;
  }

  lemma HeadsOff(a: string, b: string)
    requires a != b
    ensures "{" + a != "{" + b
  {
    assert ("{" + a)[1..] == a && ("{" + b)[1..] == b;
  }

  lemma BraceFirst(u: string)
    ensures QuoteKeys("{" + u) == "{" + QuoteKeys(u) && HasBareKey("{" + u) == HasBareKey(u)
  {
    var t := "{" + u;
    assert t[0] == '{' && t[1..] == u;
    assert NextToken(t) == Other('{') && AfterToken(t) == u;
  }

  /** White space of any kind may stand before the colon; the detector sees the key when that space is ASCII. */
  lemma SpacedNameIsRepaired(name: string, gap: string, value: string)
    requires Identifier(name) && forall i :: 0 <= i < |gap| ==> gap[i] as int in SPACES
    ensures QuoteKeys("{" + name + gap + ":" + value) == "{\"" + name + "\"" + gap + ":" + QuoteKeys(value)
    ensures (forall i :: 0 <= i < |gap| ==> gap[i] as int in ASCII_SPACES) ==>
              HasBareKey("{" + name + gap + ":" + value)
  {
    hide QuoteKeys, HasBareKey;
    var u, out := name + gap + ":" + value, QuoteKeys(value);
    assert "{" + u == "{" + name + gap + ":" + value;
    BraceFirst(u);
    KeyIsQuoted(name, gap, value);
    assert "{" + ("\"" + name + "\"" + gap + ":" + out) == "{\"" + name + "\"" + gap + ":" + out;
    if forall i :: 0 <= i < |gap| ==> gap[i] as int in ASCII_SPACES {
      SeenByDetector(name, gap, value);
    }
  }

  lemma {:induction false} AsciiRuns(gap: string, rest: string)
    requires (forall i :: 0 <= i < |gap| ==> AsciiWhite(gap[i])) && (rest == "" || !AsciiWhite(rest[0]))
    ensures AsciiWhiteLength(gap + rest) == |gap|
    decreases |gap|
  {
    if gap == "" {
      assert gap + rest == rest;
    } else {
      assert (gap + rest)[1..] == gap[1..] + rest;
      AsciiRuns(gap[1..], rest);
    }
  }

  lemma SeenByDetector(name: string, gap: string, value: string)
    requires Identifier(name) && forall i :: 0 <= i < |gap| ==> gap[i] as int in ASCII_SPACES
    ensures HasBareKey(name + gap + ":" + value)
  {
    var t := name + gap + ":" + value;
    forall i | 0 <= i < |name| ensures WordChar(name[i]) {
      ClassesAreExact(name[i]);
    }
    ClassesAreExact(name[0]);
    forall i | 0 <= i < |gap| ensures AsciiWhite(gap[i]) {
      ClassesAreExact(gap[i]);
    }
    assert t == name + (gap + ":" + value) && gap + ":" + value == gap + (":" + value);
    WordRuns(name, gap + ":" + value);
    AsciiRuns(gap, ":" + value);
    var n, g := |name|, |gap|;
    assert t[0] == name[0] && t[n..] == gap + ":" + value && t[n + g] == ':';
  }

  // ---- raw control characters --------------------------------------------------------------------------

  const HEX: string := "0123456789abcdef"

  /** In a string, a raw control character, C0, DEL or C1, becomes its escape: a letter for line feed, carriage return and
      tab, four lower-case hexadecimal digits for the others; any other character stays. */
  lemma RawControlIsEscaped(c: char)
    requires c != '"' && c != '\\'
    ensures EscapeFrom("\"" + [c] + "\"", false, false) ==
            "\"" + (if c as int == 10 then "\\n" else if c as int == 13 then "\\r" else if c as int == 9 then "\\t"
                    else if c as int < 0x20 || 0x7f <= c as int <= 0x9f then
                      "\\u00" + [HEX[c as int / 16], HEX[c as int % 16]]
                    else [c]) + "\""
  {
    var t := "\"" + [c] + "\"";
    assert t[1..] == [c] + "\"" && ([c] + "\"")[1..] == "\"" && "\""[1..] == "";
    assert EscapeFrom("\"", true, false) == "\"";
    if Control(c) {
      HexIsListed(c as int / 16);
      HexIsListed(c as int % 16);
      assert ['\\', 'u', '0', '0', HexDigit(c as int / 16), HexDigit(c as int % 16)] ==
             "\\u00" + [HEX[c as int / 16], HEX[c as int % 16]];
    }
    hide HexDigit;
  }

  lemma HexIsListed(n: nat)
    requires n < 16
    ensures HexDigit(n) == HEX[n]
  {
  }
}
