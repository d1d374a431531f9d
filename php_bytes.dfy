/**
 * PHP strings are byte strings: `strlen` counts octets and `preg_match` without
 * the `u` modifier matches octet by octet. This module fixes the octet type and
 * the character classes of PCRE's default ("C" locale) tables that the form uses.
 */
module PhpBytes {

  newtype byte = b: int | 0 <= b < 256

  /** The octets of a string literal written in ASCII. */
  function Ascii(s: string): (r: seq<byte>)
    ensures |r| == |s|
  {
    seq(|s|, i requires 0 <= i < |s| => (s[i] as int % 256) as byte)
  }

  /** `\d`: the decimal digits '0'..'9'. */
  predicate IsDigit(b: byte) {
    48 <= b <= 57
  }

  /** The numeric value of a decimal digit. */
  function DigitValue(b: byte): (d: nat)
    requires IsDigit(b)
    ensures d <= 9
  {
    b as int - 48
  }

  /** `[a-zA-Z]`. */
  predicate IsAsciiLetter(b: byte) {
    65 <= b <= 90 || 97 <= b <= 122
  }

  /** `\s`: space, tab, line feed, vertical tab, form feed and carriage return. */
  predicate IsSpace(b: byte) {
    b == 32 || 9 <= b <= 13
  }

  /** The line feed octet, which PCRE's `$` may stand in front of. */
  const LineFeed: byte := 10
}
