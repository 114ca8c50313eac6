/** The repairs applied to near-JSON model output: quoting bare object keys, escaping raw control characters. */
module TextRepair {
  import opened Base
  import opened Chars
  import opened Canonical

  predicate WordStart(c: char) { AsciiAlpha(c) || c == '_' || c == '$' }

  predicate WordChar(c: char) { WordStart(c) || AsciiDigit(c) }

  function WordLength(t: string): (n: nat)
    ensures n <= |t|
  {
    if t != "" && WordChar(t[0]) then 1 + WordLength(t[1..]) else 0
  }

  function WhiteLength(t: string): (n: nat)
    ensures n <= |t|
  {
    if t != "" && White(t[0]) then 1 + WhiteLength(t[1..]) else 0
  }

  function AsciiWhiteLength(t: string): (n: nat)
    ensures n <= |t|
  {
    if t != "" && AsciiWhite(t[0]) then 1 + AsciiWhiteLength(t[1..]) else 0
  }

  /** How much of the text, read inside a string literal, belongs to it; an unclosed literal takes everything. */
  function StringEnd(t: string, escaped: bool): (n: nat)
    ensures n <= |t|
  {
    if t == "" then 0
    else if !escaped && t[0] == '"' then 1
    else 1 + StringEnd(t[1..], !escaped && t[0] == '\\')
  }

  /** The next piece of text: a string literal, a word standing as a key, another word, or one character. */
  datatype Token = Literal(text: string) | Key(name: string, gap: string) | Word(name: string) | Other(c: char)

  function NextToken(t: string): Token
    requires t != ""
  {
    if t[0] == '"' then Literal(t[..1 + StringEnd(t[1..], false)])
    else if WordStart(t[0]) then
      var n := WordLength(t);
      var g := WhiteLength(t[n..]);
      if n + g < |t| && t[n + g] == ':' then Key(t[..n], t[n..n + g]) else Word(t[..n])
    else Other(t[0])
  }

  function Plain(k: Token): string
  {
    match k
    case Literal(s) => s
    case Key(name, gap) => name + gap + [':']
    case Word(name) => name
    case Other(c) => [c]
  }

  /** A key gains its quotes; everything else stays. */
  function Repaired(k: Token): string
  {
    if k.Key? then QuotedName(k.name) + (k.gap + [':']) else Plain(k)
  }

  function QuotedName(name: string): string
  {
    ['"'] + name + ['"']
  }

  lemma TokenIsPrefix(t: string)
    requires t != ""
    ensures 0 < |Plain(NextToken(t))| <= |t| && t[..|Plain(NextToken(t))|] == Plain(NextToken(t))
  {
    if WordStart(t[0]) {
      var n := WordLength(t);
      var g := WhiteLength(t[n..]);
      if n + g < |t| && t[n + g] == ':' {
        assert t[..n] + t[n..n + g] + [t[n + g]] == t[..n + g + 1];
      }
    }
  }

  function AfterToken(t: string): (rest: string)
    requires t != ""
    ensures |rest| < |t|
  {
    TokenIsPrefix(t);
    t[|Plain(NextToken(t))|..]
  }

  function Tokens(t: string): seq<Token>
    decreases |t|
  {
    if t == "" then [] else [NextToken(t)] + Tokens(AfterToken(t))
  }

  function QuoteKeys(t: string): string
    decreases |t|
  {
    if t == "" then "" else Repaired(NextToken(t)) + QuoteKeys(AfterToken(t))
  }

  /** A word followed, after ASCII white space, by a colon, anywhere outside string literals. */
  predicate HasBareKey(t: string)
    decreases |t|
  {
    if t == "" then false
    else if t[0] == '"' then HasBareKey(t[1 + StringEnd(t[1..], false)..])
    else if WordStart(t[0]) then
      var n := WordLength(t);
      var g := AsciiWhiteLength(t[n..]);
      (n + g < |t| && t[n + g] == ':') || (n > 0 && HasBareKey(t[n..]))
    else HasBareKey(t[1..])
  }

  // ---- control characters -------------------------------------------------------------

  function EscapeControl(c: char): string
    requires Control(c)
  {
    if c == '\n' then "\\n"
    else if c == '\r' then "\\r"
    else if c == '\t' then "\\t"
    else ['\\', 'u', '0', '0', HexDigit(c as int / 16), HexDigit(c as int % 16)]
  }

  function EscapeFrom(t: string, inString: bool, escaped: bool): string
  {
    if t == "" then ""
    else if escaped then [t[0]] + EscapeFrom(t[1..], inString, false)
    else if t[0] == '\\' && inString then [t[0]] + EscapeFrom(t[1..], inString, true)
    else if t[0] == '"' then [t[0]] + EscapeFrom(t[1..], !inString, false)
    else if inString && Control(t[0]) then EscapeControl(t[0]) + EscapeFrom(t[1..], inString, false)
    else [t[0]] + EscapeFrom(t[1..], inString, false)
  }

  // ---- the code ----------------------------------------------------------------------------

  method EscapeRawControlChars(text: string) returns (out: string)
    ensures out == EscapeFrom(text, false, false)
  {
    out := "";
    var inString, escaped := false, false;
    var index := 0;
    while index < |text|
      invariant index <= |text|
      invariant out + EscapeFrom(text[index..], inString, escaped) == EscapeFrom(text, false, false)
    {
      EscapeStep(out, text, index, inString, escaped);
      var c := text[index];
      if escaped {
        out := out + [c];
        escaped := false;
      } else if c == '\\' && inString {
        out := out + [c];
        escaped := true;
      } else if c == '"' {
        inString := !inString;
        out := out + [c];
      } else if inString && Control(c) {
        out := out + EscapeControl(c);
      } else {
        out := out + [c];
      }
      index := index + 1;
    }
    assert text[index..] == "" && out + "" == out;
  }

  /** What the loop body appends, and the state it goes on with. */
  lemma EscapeStep(out: string, text: string, index: nat, inString: bool, escaped: bool)
    requires index < |text|
    ensures var c := text[index];
            out + EscapeFrom(text[index..], inString, escaped) ==
            if escaped then (out + [c]) + EscapeFrom(text[index + 1..], inString, false)
            else if c == '\\' && inString then (out + [c]) + EscapeFrom(text[index + 1..], inString, true)
            else if c == '"' then (out + [c]) + EscapeFrom(text[index + 1..], !inString, false)
            else if inString && Control(c) then (out + EscapeControl(c)) + EscapeFrom(text[index + 1..], inString, false)
            else (out + [c]) + EscapeFrom(text[index + 1..], inString, false)
  {
    assert text[index..][1..] == text[index + 1..];
  }

  /** Quoting resumed inside a literal. */
  function QuoteFrom(t: string, inString: bool, escaped: bool): string
  {
    if inString then t[..StringEnd(t, escaped)] + QuoteKeys(t[StringEnd(t, escaped)..]) else QuoteKeys(t)
  }

  lemma Append(out: string, piece: string, rest: string)
    ensures out + (piece + rest) == (out + piece) + rest
  {
  }

  /** The rest of a literal after one of its characters. */
  lemma StringStep(t: string, escaped: bool)
    requires t != "" && (escaped || t[0] != '"')
    ensures var n, rest := StringEnd(t, escaped), t[1..];
            && n == 1 + StringEnd(rest, !escaped && t[0] == '\\')
            && t[..n] == [t[0]] + rest[..n - 1] && t[n..] == rest[n - 1..]
  {
  }

  lemma InsideStep(t: string, escaped: bool)
    requires t != ""
    ensures QuoteFrom(t, true, escaped) ==
            [t[0]] + QuoteFrom(t[1..], escaped || t[0] != '"', !escaped && t[0] == '\\')
  {
    if escaped || t[0] != '"' {
      StringStep(t, escaped);
      var n, rest := StringEnd(t, escaped), t[1..];
      Append([t[0]], rest[..n - 1], QuoteKeys(rest[n - 1..]));
    } else {
      assert t[..1] == [t[0]];
    }
  }

  lemma OpenLiteral(t: string)
    requires t != "" && t[0] == '"'
    ensures QuoteKeys(t) == ['"'] + QuoteFrom(t[1..], true, false)
  {
    var rest, n := t[1..], StringEnd(t[1..], false);
    TokenIsPrefix(t);
    LiteralSplit(t, n);
    Append(['"'], rest[..n], QuoteKeys(rest[n..]));
  }

  lemma LiteralSplit(t: string, n: nat)
    requires t != "" && t[0] == '"' && n <= |t| - 1
    ensures t[..1 + n] == ['"'] + t[1..][..n] && t[1 + n..] == t[1..][n..]
  {
  }

  method QuoteUnquotedObjectKeys(text: string) returns (output: string)
    ensures output == QuoteKeys(text)
  {
    output := "";
    var inString, escaped := false, false;
    var rest := text;
    while rest != ""
      invariant output + QuoteFrom(rest, inString, escaped) == QuoteKeys(text)
      decreases |rest|
    {
      var c := rest[0];
      if inString || c == '"' {
        output := CopyLiteralChar(output, rest, c, inString, escaped);
        inString, escaped := !inString || escaped || c != '"', inString && !escaped && c == '\\';
        rest := rest[1..];
      } else {
        var piece, after := QuoteToken(rest);
        Append(output, piece, QuoteKeys(after));
        output := output + piece;
        rest := after;
      }
    }
    assert output + "" == output;
  }

  /** Characters of literals, their quotes included, are copied. */
  method CopyLiteralChar(output: string, tail: string, c: char, inString: bool, escaped: bool) returns (next: string)
    requires tail != "" && tail[0] == c && (inString || c == '"')
    ensures next == output + [c]
    ensures output + QuoteFrom(tail, inString, escaped) ==
            next + QuoteFrom(tail[1..], !inString || escaped || c != '"', inString && !escaped && c == '\\')
  {
    next := output + [c];
    if inString {
      InsideStep(tail, escaped);
      Append(output, [c], QuoteFrom(tail[1..], escaped || c != '"', !escaped && c == '\\'));
    } else {
      OpenLiteral(tail);
      Append(output, [c], QuoteFrom(tail[1..], true, false));
    }
  }

  /** One word or one character outside literals. */
  method QuoteToken(t: string) returns (piece: string, after: string)
    requires t != "" && t[0] != '"'
    ensures piece == Repaired(NextToken(t)) && after == AfterToken(t)
  {
    TokenIsPrefix(t);
    if !WordStart(t[0]) {
      return [t[0]], t[1..];
    }
    var end := WordEnd(t);
    var gap := WhiteEnd(t[end..]);
    WordToken(t, end, gap);
    if end + gap < |t| && t[end + gap] == ':' {
      return QuotedName(t[..end]) + (t[end..end + gap] + [':']), t[end + gap + 1..];
    }
    return t[..end], t[end..];
  }

  lemma WordToken(t: string, n: nat, g: nat)
    requires t != "" && WordStart(t[0]) && n == WordLength(t) && g == WhiteLength(t[n..])
    ensures NextToken(t) == if n + g < |t| && t[n + g] == ':' then Key(t[..n], t[n..n + g]) else Word(t[..n])
    ensures |Plain(NextToken(t))| == if n + g < |t| && t[n + g] == ':' then n + g + 1 else n
  {
    hide StringEnd, WordLength, WhiteLength;
  }

  method WordEnd(t: string) returns (end: nat)
    ensures end == WordLength(t)
  {
    end := 0;
    while end < |t| && WordChar(t[end])
      invariant end <= |t|
      invariant end + WordLength(t[end..]) == WordLength(t)
    {
      assert t[end..][1..] == t[end + 1..];
      end := end + 1;
    }
  }

  method WhiteEnd(t: string) returns (look: nat)
    ensures look == WhiteLength(t)
  {
    look := 0;
    while look < |t| && White(t[look])
      invariant look <= |t|
      invariant look + WhiteLength(t[look..]) == WhiteLength(t)
    {
      assert t[look..][1..] == t[look + 1..];
      look := look + 1;
    }
  }

  method AsciiWhiteEnd(t: string) returns (look: nat)
    ensures look == AsciiWhiteLength(t)
  {
    look := 0;
    while look < |t| && AsciiWhite(t[look])
      invariant look <= |t|
      invariant look + AsciiWhiteLength(t[look..]) == AsciiWhiteLength(t)
    {
      assert t[look..][1..] == t[look + 1..];
      look := look + 1;
    }
  }

  /** What is left to search, inside a literal or outside. */
  function SearchFrom(t: string, inString: bool, escaped: bool): bool
  {
    if inString then HasBareKey(t[StringEnd(t, escaped)..]) else HasBareKey(t)
  }

  lemma SearchInside(t: string, escaped: bool)
    requires t != ""
    ensures SearchFrom(t, true, escaped) ==
            SearchFrom(t[1..], escaped || t[0] != '"', !escaped && t[0] == '\\')
  {
    if escaped || t[0] != '"' {
      StringStep(t, escaped);
    }
  }

  lemma SearchOpens(t: string)
    requires t != "" && t[0] == '"'
    ensures HasBareKey(t) == SearchFrom(t[1..], true, false)
  {
    LiteralSplit(t, StringEnd(t[1..], false));
  }

  method HasUnquotedIdentifierKey(text: string) returns (found: bool)
    ensures found == HasBareKey(text)
  {
    var inString, escaped := false, false;
    var rest := text;
    while rest != ""
      invariant HasBareKey(text) == SearchFrom(rest, inString, escaped)
      decreases |rest|
    {
      var c := rest[0];
      if inString {
        SearchInside(rest, escaped);
        inString, escaped := escaped || c != '"', !escaped && c == '\\';
        rest := rest[1..];
      } else if c == '"' {
        SearchOpens(rest);
        inString, escaped := true, false;
        rest := rest[1..];
      } else if WordStart(c) {
        var end := WordEnd(rest);
        var look := AsciiWhiteEnd(rest[end..]);
        if end + look < |rest| && rest[end + look] == ':' {
          return true;
        }
        rest := rest[end..];
      } else {
        rest := rest[1..];
      }
    }
    return false;
  }
}
