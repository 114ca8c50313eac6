/** Escaping raw control characters removes exactly those, once, and keeps every string's value. */
module EscapeTheorems {
  import opened Base
  import opened Json
  import opened Canonical
  import opened Chars
  import opened TextRepair

  /** No string literal holds a raw control character, except straight after a backslash. */
  predicate NoRaw(t: string, inString: bool, escaped: bool)
  {
    if t == "" then true
    else if escaped then NoRaw(t[1..], inString, false)
    else if t[0] == '\\' && inString then NoRaw(t[1..], inString, true)
    else if t[0] == '"' then NoRaw(t[1..], !inString, false)
    else !(inString && Control(t[0])) && NoRaw(t[1..], inString, false)
  }

  lemma NoRawStep(c: char, rest: string, inString: bool, escaped: bool)
    ensures NoRaw([c] + rest, inString, escaped) ==
            if escaped then NoRaw(rest, inString, false)
            else if c == '\\' && inString then NoRaw(rest, inString, true)
            else if c == '"' then NoRaw(rest, !inString, false)
            else !(inString && Control(c)) && NoRaw(rest, inString, false)
  {
    assert ([c] + rest)[1..] == rest;
  }

  /** The hexadecimal digits of an escape are ordinary characters. */
  lemma HexPlain(n: int)
    requires 0 <= n < 16
    ensures var c := HexDigit(n); c != '"' && c != '\\' && !Control(c)
  {
  }

  lemma {:induction false} PlainRun(s: string, rest: string, whole: string)
    requires whole == s + rest && forall i :: 0 <= i < |s| ==> s[i] != '"' && s[i] != '\\' && !Control(s[i])
    ensures NoRaw(whole, true, false) == NoRaw(rest, true, false)
    decreases |s|
  {
    if s == "" {
      assert whole == rest;
    } else {
      assert whole[1..] == s[1..] + rest;
      PlainRun(s[1..], rest, whole[1..]);
    }
  }

  lemma UnicodeHasNoRaw(c: char, rest: string)
    requires Control(c)
    ensures NoRaw(['\\', 'u', '0', '0', HexDigit(c as int / 16), HexDigit(c as int % 16)] + rest, true, false) ==
            NoRaw(rest, true, false)
  {
    var digits := ['0', '0', HexDigit(c as int / 16), HexDigit(c as int % 16)];
    HexPlain(c as int / 16);
    HexPlain(c as int % 16);
    var tail := digits + rest;
    PlainRun(digits, rest, tail);
    NoRawStep('u', tail, true, true);
    NoRawStep('\\', ['u'] + tail, true, false);
    assert ['\\', 'u', '0', '0', HexDigit(c as int / 16), HexDigit(c as int % 16)] + rest == ['\\'] + (['u'] + tail);
  }

  lemma EscapeHasNoRaw(c: char, rest: string)
    requires Control(c)
    ensures NoRaw(EscapeControl(c) + rest, true, false) == NoRaw(rest, true, false)
  {
    if c == '\n' || c == '\r' || c == '\t' {
      var x := EscapeControl(c)[1];
      NoRawStep(x, rest, true, true);
      NoRawStep('\\', [x] + rest, true, false);
      assert EscapeControl(c) + rest == ['\\'] + ([x] + rest);
    } else {
      UnicodeHasNoRaw(c, rest);
    }
  }

  /** After escaping no raw control character is left in a string. */
  lemma {:induction false} EscapedHasNoRaw(t: string, inString: bool, escaped: bool)
    ensures NoRaw(EscapeFrom(t, inString, escaped), inString, escaped)
    decreases |t|
  {
    if t != "" {
      var c, rest := t[0], t[1..];
      if escaped {
        EscapedHasNoRaw(rest, inString, false);
        NoRawStep(c, EscapeFrom(rest, inString, false), inString, true);
      } else if c == '\\' && inString {
        EscapedHasNoRaw(rest, inString, true);
        NoRawStep(c, EscapeFrom(rest, inString, true), inString, false);
      } else if c == '"' {
        EscapedHasNoRaw(rest, !inString, false);
        NoRawStep(c, EscapeFrom(rest, !inString, false), inString, false);
      } else {
        EscapedHasNoRaw(rest, inString, false);
        if inString && Control(c) {
          EscapeHasNoRaw(c, EscapeFrom(rest, inString, false));
        } else {
          NoRawStep(c, EscapeFrom(rest, inString, false), inString, false);
        }
      }
    }
  }

  /** Escaping changes a text exactly when a string of it holds a raw control character. */
  lemma {:induction false} NoRawStands(t: string, inString: bool, escaped: bool)
    ensures |EscapeFrom(t, inString, escaped)| >= |t|
    ensures NoRaw(t, inString, escaped) ==> EscapeFrom(t, inString, escaped) == t
    ensures !NoRaw(t, inString, escaped) ==> |EscapeFrom(t, inString, escaped)| > |t|
    decreases |t|
  {
    if t != "" {
      var c, rest := t[0], t[1..];
      assert t == [c] + rest;
      if escaped {
        NoRawStands(rest, inString, false);
      } else if c == '\\' && inString {
        NoRawStands(rest, inString, true);
      } else if c == '"' {
        NoRawStands(rest, !inString, false);
      } else {
        NoRawStands(rest, inString, false);
      }
    }
  }

  lemma EscapingIsIdempotent(t: string)
    ensures EscapeFrom(EscapeFrom(t, false, false), false, false) == EscapeFrom(t, false, false)
  {
    EscapedHasNoRaw(t, false, false);
    NoRawStands(EscapeFrom(t, false, false), false, false);
  }

  // ---- values -----------------------------------------------------------------------------

  lemma EscapePlain(c: char, rest: string)
    requires c != '"' && c != '\\' && !Control(c)
    ensures EscapeFrom([c] + rest, true, false) == [c] + EscapeFrom(rest, true, false)
  {
    assert ([c] + rest)[1..] == rest;
  }

  lemma {:induction false} PlainCopied(s: string, rest: string, whole: string)
    requires whole == s + rest && forall i :: 0 <= i < |s| ==> s[i] != '"' && s[i] != '\\' && !Control(s[i])
    ensures EscapeFrom(whole, true, false) == s + EscapeFrom(rest, true, false)
    decreases |s|
  {
    if s == "" {
      assert whole == rest;
    } else {
      var tail := s[1..] + rest;
      assert whole == [s[0]] + tail;
      PlainCopied(s[1..], rest, tail);
      EscapePlain(s[0], tail);
      assert [s[0]] + (s[1..] + EscapeFrom(rest, true, false)) == s + EscapeFrom(rest, true, false);
    }
  }

  lemma HexReads(t: string, more: string)
    requires Hex4(t).Got?
    ensures Hex4(t[..4] + more) == Got(Hex4(t).value, more)
  {
    var u := t[..4] + more;
    assert u[0] == t[0] && u[1] == t[1] && u[2] == t[2] && u[3] == t[3] && u[4..] == more;
  }

  /** The four digits after \u are copied. */
  lemma HexCopied(t: string)
    requires Hex4(t).Got?
    ensures EscapeFrom(t, true, false) == t[..4] + EscapeFrom(t[4..], true, false)
    ensures Hex4(t[..4] + EscapeFrom(t[4..], true, false)) == Got(Hex4(t).value, EscapeFrom(t[4..], true, false))
  {
    assert forall i :: 0 <= i < 4 ==> t[i] != '"' && t[i] != '\\' && !Control(t[i]);
    assert t == t[..4] + t[4..];
    PlainCopied(t[..4], t[4..], t);
    HexReads(t, EscapeFrom(t[4..], true, false));
  }

  lemma PairCopied(t: string)
    requires |t| >= 2 && t[0] == '\\' && t[1] == 'u'
    ensures EscapeFrom(t, true, false) == ['\\', 'u'] + EscapeFrom(t[2..], true, false)
  {
    assert t == ['\\'] + (['u'] + t[2..]);
    BackslashCopied(['u'] + t[2..]);
    AfterBackslash('u', t[2..]);
  }

  lemma BackslashCopied(rest: string)
    ensures EscapeFrom(['\\'] + rest, true, false) == ['\\'] + EscapeFrom(rest, true, true)
  {
    assert (['\\'] + rest)[1..] == rest;
  }

  lemma AfterBackslash(c: char, rest: string)
    ensures EscapeFrom([c] + rest, true, true) == [c] + EscapeFrom(rest, true, false)
  {
    assert ([c] + rest)[1..] == rest;
  }

  lemma UnicodeCopied(t: string)
    requires ParseUnicode(t).Got?
    ensures ParseUnicode(EscapeFrom(t, true, false)) ==
            Got(ParseUnicode(t).value, EscapeFrom(ParseUnicode(t).rest, true, false))
  {
    HexCopied(t);
    var rest := t[4..];
    if ParseUnicode(t).rest != rest {
      PairCopied(rest);
      HexCopied(rest[2..]);
      var tail := EscapeFrom(rest[2..], true, false);
      assert (['\\', 'u'] + tail)[2..] == tail;
    }
  }

  /** An escape sequence keeps its meaning; `x` is the character after the backslash. */
  lemma EscapeCopied(t: string)
    requires ParseEscape(t).Got?
    ensures var copy := [t[0]] + EscapeFrom(t[1..], true, false);
            ParseEscape(copy) == Got(ParseEscape(t).value, EscapeFrom(ParseEscape(t).rest, true, false))
  {
    var copy := [t[0]] + EscapeFrom(t[1..], true, false);
    assert copy[1..] == EscapeFrom(t[1..], true, false);
    if t[0] == 'u' {
      UnicodeCopied(t[1..]);
    }
  }

  /** A raw control character, once escaped, reads back as itself. */
  lemma ControlReads(c: char, more: string)
    requires Control(c)
    ensures EscapeControl(c) != "" && EscapeControl(c)[0] == '\\'
    ensures ParseEscape((EscapeControl(c) + more)[1..]) == Got(c, more)
  {
    if c == '\n' || c == '\r' || c == '\t' {
      var x := EscapeControl(c)[1];
      assert (EscapeControl(c) + more)[1..] == [x] + more;
      assert ([x] + more)[1..] == more;
    } else {
      var h, l := HexDigit(c as int / 16), HexDigit(c as int % 16);
      HexDigitValue(c as int / 16);
      HexDigitValue(c as int % 16);
      var digits := ['0', '0', h, l] + more;
      assert (EscapeControl(c) + more)[1..] == ['u'] + digits;
      assert (['u'] + digits)[1..] == digits && digits[4..] == more;
      assert Hex4(digits) == Got(c as int, more);
    }
  }

  lemma StrictStep(t: string, c: char, rest: string)
    requires t != "" && t[0] == '\\' && ParseEscape(t[1..]) == Got(c, rest)
    ensures ParseChars(t, true) == Prepend(c, ParseChars(rest, true))
  {
  }

  /** Every complete string keeps its value: what a lenient reader makes of the raw text, a strict reader makes of the
      escaped one, and both stop at the same closing quote. A raw control character straight after a backslash makes
      the string no string for either. */
  lemma {:induction false} EscapingKeepsValues(t: string)
    requires ParseChars(t, false).Got?
    ensures ParseChars(EscapeFrom(t, true, false), true) ==
            Got(ParseChars(t, false).value, EscapeFrom(ParseChars(t, false).rest, false, false))
    decreases |t|
  {
    if t[0] == '"' {
      var out := EscapeFrom(t, true, false);
      assert out[1..] == EscapeFrom(t[1..], false, false);
    } else if t[0] == '\\' {
      EscapedStep(t);
      EscapingKeepsValues(ParseEscape(t[1..]).rest);
    } else {
      EscapingKeepsValues(t[1..]);
      RawStep(t);
    }
  }

  lemma EscapedStep(t: string)
    requires t != "" && t[0] == '\\' && ParseEscape(t[1..]).Got?
    ensures var r := ParseEscape(t[1..]);
            ParseChars(EscapeFrom(t, true, false), true) == Prepend(r.value, ParseChars(EscapeFrom(r.rest, true, false), true))
  {
    EscapeCopied(t[1..]);
    var copy := [t[1]] + EscapeFrom(t[1..][1..], true, false);
    assert EscapeFrom(t[1..], true, true) == copy;
    assert EscapeFrom(t, true, false) == ['\\'] + copy;
    assert (['\\'] + copy)[1..] == copy;
    StrictStep(['\\'] + copy, ParseEscape(t[1..]).value, EscapeFrom(ParseEscape(t[1..]).rest, true, false));
  }

  lemma RawStep(t: string)
    requires t != "" && t[0] != '"' && t[0] != '\\'
    ensures ParseChars(EscapeFrom(t, true, false), true) == Prepend(t[0], ParseChars(EscapeFrom(t[1..], true, false), true))
  {
    var more := EscapeFrom(t[1..], true, false);
    if Control(t[0]) {
      ControlReads(t[0], more);
      StrictStep(EscapeControl(t[0]) + more, t[0], more);
    } else {
      assert ([t[0]] + more)[1..] == more;
    }
  }

  /** More than the documented range is escaped: DEL and the C1 controls, which JSON strings may hold, become escapes
      too; their values are kept all the same. */
  lemma DelIsEscaped()
    ensures EscapeFrom(['"', 0x7f as char, '"'], false, false) == ['"', '\\', 'u', '0', '0', '7', 'f', '"']
  {
    var t := ['"', 0x7f as char, '"'];
    assert t[1..] == [0x7f as char, '"'] && t[1..][1..] == ['"'] && ['"'][1..] == "";
    assert EscapeFrom(['"'], true, false) == ['"'];
    assert EscapeFrom(t[1..], true, false) == EscapeControl(0x7f as char) + ['"'];
  }
}
