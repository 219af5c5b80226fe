/**
  All four phone regular expressions of the system share one shape,
  `^(?:P1|P2)[lo-hi]\d{n}$`: one of a few literal prefixes, one character
  from a range, then exactly `n` digits, anchored at both ends. This module
  gives that shape its meaning as a set of strings.
 */
module Patterns {
  import opened Chars

  /** `^(?:prefixes[0]|prefixes[1]|...)[lo-hi]\d{rest}$` */
  datatype Shape = Shape(prefixes: seq<string>, lo: char, hi: char, rest: nat)

  /** `s` is `prefix`, then one character in `[lo-hi]`, then exactly `rest` digits. */
  predicate MatchesAfter(sh: Shape, prefix: string, s: string) {
    && |s| == |prefix| + 1 + sh.rest
    && s[..|prefix|] == prefix
    && sh.lo <= s[|prefix|] <= sh.hi
    && AllDigits(s[|prefix| + 1..])
  }

  /** `RegExp.prototype.test` for an anchored shape: some alternative of the prefix group leads to a full match. */
  predicate Matches(sh: Shape, s: string) {
    exists i :: 0 <= i < |sh.prefixes| && MatchesAfter(sh, sh.prefixes[i], s)
  }

  /** Widening the leading character range only ever accepts more strings. */
  lemma WiderRangeAcceptsMore(narrow: Shape, wide: Shape, s: string)
    requires narrow.prefixes == wide.prefixes && narrow.rest == wide.rest
    requires wide.lo <= narrow.lo && narrow.hi <= wide.hi
    requires Matches(narrow, s)
    ensures Matches(wide, s)
  {
    var i :| 0 <= i < |narrow.prefixes| && MatchesAfter(narrow, narrow.prefixes[i], s);
    assert MatchesAfter(wide, wide.prefixes[i], s);
  }

  /**
    A shape built from digits and plus signs only matches strings made of
    digits and plus signs: anything else in the input makes the test fail.
   */
  lemma MatchedStringIsKept(sh: Shape, s: string)
    requires forall i, k :: 0 <= i < |sh.prefixes| && 0 <= k < |sh.prefixes[i]| ==> IsKept(sh.prefixes[i][k])
    requires '0' <= sh.lo && sh.hi <= '9'
    requires Matches(sh, s)
    ensures AllKept(s)
  {
    var i :| 0 <= i < |sh.prefixes| && MatchesAfter(sh, sh.prefixes[i], s);
    var p := sh.prefixes[i];
    forall k | 0 <= k < |s|
      ensures IsKept(s[k])
    {
      if k < |p| {
        assert s[k] == s[..|p|][k] == p[k];
      } else if k > |p| {
        assert s[k] == s[|p| + 1..][k - |p| - 1];
      }
    }
  }
}
