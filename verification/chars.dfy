/** Character classes of the regular expressions used by the phone validators. */
module Chars {

  /** `\d` (and `0-9` inside a class) of a JavaScript regular expression without the `u` flag. */
  predicate IsDigit(c: char) {
    '0' <= c <= '9'
  }

  /** A character that `replace(/[^0-9+]/g, '')` keeps: a digit or a plus sign, wherever it stands. */
  predicate IsKept(c: char) {
    IsDigit(c) || c == '+'
  }

  /** `\s` of ECMAScript: the WhiteSpace and LineTerminator code points. */
  predicate IsWhitespace(c: char) {
    || c == '\t' || c == '\n' || c == '\U{000B}' || c == '\U{000C}' || c == '\r' || c == ' '
    || c == '\U{00A0}' || c == '\U{1680}' || ('\U{2000}' <= c <= '\U{200A}')
    || c == '\U{2028}' || c == '\U{2029}' || c == '\U{202F}' || c == '\U{205F}'
    || c == '\U{3000}' || c == '\U{FEFF}'
  }

  /** Every character of `s` is an ASCII digit (`\d{n}` once the length is fixed). */
  predicate AllDigits(s: string) {
    forall i :: 0 <= i < |s| ==> IsDigit(s[i])
  }

  /** Every character of `s` survives the cleaning of the general-purpose validator. */
  predicate AllKept(s: string) {
    forall i :: 0 <= i < |s| ==> IsKept(s[i])
  }
}
