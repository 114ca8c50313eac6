/** Character classes the scanners test. */
module Chars {
  predicate AsciiAlpha(c: char) { 'a' <= c <= 'z' || 'A' <= c <= 'Z' }

  predicate AsciiDigit(c: char) { '0' <= c <= '9' }

  /** A digit of a lower-case hexadecimal number. */
  predicate LowerHex(c: char) { AsciiDigit(c) || 'a' <= c <= 'f' }

  /** ASCII whitespace as the standard library counts it: no vertical tab. */
  predicate AsciiWhite(c: char)
  {
    c == ' ' || c == '\t' || c == '\n' || c == '\r' || c as int == 0x0c
  }

  /** The Unicode White_Space property. */
  predicate White(c: char)
  {
    var n := c as int;
    || 0x09 <= n <= 0x0d || n == 0x20 || n == 0x85 || n == 0xa0 || n == 0x1680
    || 0x2000 <= n <= 0x200a || n == 0x2028 || n == 0x2029 || n == 0x202f || n == 0x205f || n == 0x3000
  }

  /** The control characters: C0, DEL and C1. */
  predicate Control(c: char)
  {
    c as int < 0x20 || 0x7f <= c as int <= 0x9f
  }
}
