/**
  The general-purpose phone validator of the utilities file: the input is
  cleaned down to digits and plus signs, then matched against the French
  pattern or the British mobile pattern. Any other country is rejected.
 */
module PhoneNumbers {
  import opened Chars
  import opened Patterns

  /** `/^(?:\+33|0)[1-9]\d{8}$/` */
  const FrenchPattern := Shape(["+33", "0"], '1', '9', 8)

  /** `/^(?:\+44|0)7\d{9}$/`: British mobile numbers only. */
  const BritishPattern := Shape(["+44", "0"], '7', '7', 9)

  /** `replace(/[^0-9+]/g, '')`: keeps the digits and plus signs of `s`, in order. */
  function Clean(s: string): (r: string)
    ensures |r| <= |s|
    ensures AllKept(r)
    ensures AllKept(s) ==> r == s
  {
    if s == [] then []
    else
      assert s == [s[0]] + s[1..];
      if IsKept(s[0]) then [s[0]] + Clean(s[1..]) else Clean(s[1..])
  }

  /** Cleaning commutes with concatenation: it works character by character. */
  lemma {:induction false} CleanAppend(a: string, b: string)
    ensures Clean(a + b) == Clean(a) + Clean(b)
  {
    if a == [] {
      assert a + b == b;
    } else {
      assert (a + b)[0] == a[0];
      assert (a + b)[1..] == a[1..] + b;
      CleanAppend(a[1..], b);
    }
  }

  /** A string with no digit and no plus sign cleans to nothing. */
  lemma {:induction false} CleanSeparators(sep: string)
    requires forall i :: 0 <= i < |sep| ==> !IsKept(sep[i])
    ensures Clean(sep) == []
  {
    if sep != [] {
      CleanSeparators(sep[1..]);
    }
  }

  /**
    Cleaning keeps every digit and plus sign as often as it occurs, and
    nothing else: with `CleanAppend`, it keeps exactly those characters, in order.
   */
  lemma {:induction false} CleanCounts(s: string, c: char)
    ensures multiset(Clean(s))[c] == if IsKept(c) then multiset(s)[c] else 0
  {
    if s != [] {
      assert s == [s[0]] + s[1..];
      CleanCounts(s[1..], c);
    }
  }

  /** Cleaning a cleaned string changes nothing. */
  lemma CleanIdempotent(s: string)
    ensures Clean(Clean(s)) == Clean(s)
  {
  }

  /** `isValidPhoneNumber(phoneNumber, country)`: never throws, and is false for every unsupported country. */
  function IsValidPhoneNumber(phoneNumber: string, country: string): (valid: bool)
    ensures valid ==> country == "FR" || country == "UK"
  {
    var cleaned := Clean(phoneNumber);
    if country == "FR" then Matches(FrenchPattern, cleaned)
    else if country == "UK" then Matches(BritishPattern, cleaned)
    else false
  }

  /**
    Inserting characters other than digits and plus signs (spaces, hyphens,
    parentheses, dots) anywhere in a number never changes the verdict.
   */
  lemma SeparatorsIgnored(a: string, sep: string, b: string, country: string)
    requires forall i :: 0 <= i < |sep| ==> !IsKept(sep[i])
    ensures IsValidPhoneNumber(a + sep + b, country) == IsValidPhoneNumber(a + b, country)
  {
    CleanAppend(a + sep, b);
    CleanAppend(a, sep);
    CleanAppend(a, b);
    CleanSeparators(sep);
    assert Clean(a + sep) == Clean(a);
  }

  /** The groups of a number written one after the other. */
  function Concat(groups: seq<string>): string {
    if groups == [] then [] else groups[0] + Concat(groups[1..])
  }

  /** The groups of a number written with `sep` between consecutive groups. */
  function Join(groups: seq<string>, sep: string): string {
    if |groups| <= 1 then Concat(groups) else groups[0] + sep + Join(groups[1..], sep)
  }

  /**
    A number written in groups with a separator between them (`06 12 34 56 78`,
    `06-12-34-56-78`, `06.12.34.56.78`) validates like the same groups run together.
   */
  lemma GroupedNumber(groups: seq<string>, sep: string, country: string)
    requires forall i :: 0 <= i < |sep| ==> !IsKept(sep[i])
    ensures IsValidPhoneNumber(Join(groups, sep), country) == IsValidPhoneNumber(Concat(groups), country)
  {
    CleanJoin(groups, sep);
  }

  /** Cleaning removes the separators between the groups and keeps the groups' own digits. */
  lemma {:induction false} CleanJoin(groups: seq<string>, sep: string)
    requires forall i :: 0 <= i < |sep| ==> !IsKept(sep[i])
    ensures Clean(Join(groups, sep)) == Clean(Concat(groups))
  {
    if |groups| > 1 {
      CleanJoin(groups[1..], sep);
      CleanSeparators(sep);
      CleanAppend(groups[0] + sep, Join(groups[1..], sep));
      CleanAppend(groups[0], sep);
      CleanAppend(groups[0], Concat(groups[1..]));
    }
  }

  /**
    A French number is valid exactly when its cleaned form is `+33`, a digit
    1-9 and eight digits (12 characters), or `0`, a digit 1-9 and eight
    digits (10 characters).
   */
  lemma FrenchValidIff(phoneNumber: string)
    ensures var c := Clean(phoneNumber);
            IsValidPhoneNumber(phoneNumber, "FR") <==>
              || (|c| == 12 && c[..3] == "+33" && '1' <= c[3] <= '9' && AllDigits(c[4..]))
              || (|c| == 10 && c[0] == '0' && '1' <= c[1] <= '9' && AllDigits(c[2..]))
  {
    var c := Clean(phoneNumber);
    assert FrenchPattern.prefixes[0] == "+33" && FrenchPattern.prefixes[1] == "0";
    if |c| == 10 && c[0] == '0' {
      assert c[..1] == "0";
    }
  }

  /**
    A British number is valid exactly when its cleaned form is `+44`, `7` and
    nine digits (13 characters), or `0`, `7` and nine digits (11 characters).
   */
  lemma BritishValidIff(phoneNumber: string)
    ensures var c := Clean(phoneNumber);
            IsValidPhoneNumber(phoneNumber, "UK") <==>
              || (|c| == 13 && c[..3] == "+44" && c[3] == '7' && AllDigits(c[4..]))
              || (|c| == 11 && c[0] == '0' && c[1] == '7' && AllDigits(c[2..]))
  {
    var c := Clean(phoneNumber);
    assert BritishPattern.prefixes[0] == "+44" && BritishPattern.prefixes[1] == "0";
    if |c| == 11 && c[0] == '0' {
      assert c[..1] == "0";
    }
  }

  /** Every nine-digit national number not starting with 0 is valid in France with either prefix. */
  lemma FrenchNationalNumbersAccepted(d: string)
    requires |d| == 9 && AllDigits(d) && d[0] != '0'
    ensures IsValidPhoneNumber("+33" + d, "FR")
    ensures IsValidPhoneNumber("0" + d, "FR")
  {
    FrenchValidIff("+33" + d);
    FrenchValidIff("0" + d);
    assert ("+33" + d)[4..] == d[1..];
    assert ("0" + d)[2..] == d[1..];
  }

  /**
    Every nine-digit British mobile number (starting with 7) is valid with
    either prefix; replacing its leading 7 by 6 makes it invalid.
   */
  lemma BritishMobileNumbersAccepted(d: string)
    requires |d| == 10 && AllDigits(d) && d[0] == '7'
    ensures IsValidPhoneNumber("+44" + d, "UK")
    ensures IsValidPhoneNumber("0" + d, "UK")
    ensures !IsValidPhoneNumber("06" + d[1..], "UK")
  {
    BritishValidIff("+44" + d);
    BritishValidIff("0" + d);
    BritishValidIff("06" + d[1..]);
    assert ("+44" + d)[4..] == d[1..];
    assert ("0" + d)[2..] == d[1..];
    assert AllKept("06" + d[1..]);
  }

  // The test suite's cases. Each names its input `s` rather than writing the
  // literal in the conclusion, which keeps the verifier from unfolding the
  // cleaning character by character.

  /** Test suite: a French mobile number with the country code is valid. */
  lemma FrenchInternationalExample(s: string)
    requires s == "+33612345678"
    ensures IsValidPhoneNumber(s, "FR")
  {
    FrenchNationalNumbersAccepted(s[3..]);
    assert "+33" + s[3..] == s;
  }

  /** Test suite: a French mobile number with the trunk prefix 0 is valid. */
  lemma FrenchTrunkExample(s: string)
    requires s == "0612345678"
    ensures IsValidPhoneNumber(s, "FR")
  {
    FrenchNationalNumbersAccepted(s[1..]);
    assert "0" + s[1..] == s;
  }

  /** Test suite: a seven-digit number is too short for France. */
  lemma FrenchTooShortExample(s: string)
    requires s == "0612345"
    ensures !IsValidPhoneNumber(s, "FR")
  {
    assert AllKept(s);
    FrenchValidIff(s);
  }

  /** Test suite: a French number cannot start with `00`. */
  lemma FrenchDoubleZeroExample(s: string)
    requires s == "0012345678"
    ensures !IsValidPhoneNumber(s, "FR")
  {
    assert AllKept(s);
    assert s[1] == '0';
    FrenchValidIff(s);
  }

  /** Test suite: an unsupported country rejects even a well-formed French number. */
  lemma UnsupportedCountryExample(s: string)
    requires s == "0612345678"
    ensures !IsValidPhoneNumber(s, "US")
  {
  }

  /** Test suite: a British mobile number with the country code is valid. */
  lemma BritishInternationalExample(s: string)
    requires s == "+447123456789"
    ensures IsValidPhoneNumber(s, "UK")
  {
    BritishMobileNumbersAccepted(s[3..]);
    assert "+44" + s[3..] == s;
  }

  /** Test suite: a British mobile number with the trunk prefix 0 is valid. */
  lemma BritishTrunkExample(s: string)
    requires s == "07123456789"
    ensures IsValidPhoneNumber(s, "UK")
  {
    BritishMobileNumbersAccepted(s[1..]);
    assert "0" + s[1..] == s;
  }

  /** Test suite: a seven-digit number is too short for the United Kingdom. */
  lemma BritishTooShortExample(s: string)
    requires s == "0712345"
    ensures !IsValidPhoneNumber(s, "UK")
  {
    assert AllKept(s);
    BritishValidIff(s);
  }

  /** Test suite: a number starting `06` is not a British mobile number. */
  lemma BritishLandlineExample(s: string)
    requires s == "06123456789"
    ensures !IsValidPhoneNumber(s, "UK")
  {
    var d := "7" + s[2..];
    BritishMobileNumbersAccepted(d);
    assert "06" + d[1..] == s;
  }

  /** Test suite: `+33 6 12 34 56 78`, groups separated by spaces, is valid. */
  lemma SpacedFrenchExample(s: string)
    requires s == "+33 6 12 34 56 78"
    ensures IsValidPhoneNumber(s, "FR")
  {
    SpacedGroups();
    GroupedNumber(["+33", "6", "12", "34", "56", "78"], " ", "FR");
    FrenchInternationalExample("+33612345678");
  }

  /** `+33 6 12 34 56 78` is the groups of `+33612345678` joined by spaces. */
  lemma SpacedGroups()
    ensures Join(["+33", "6", "12", "34", "56", "78"], " ") == "+33 6 12 34 56 78"
    ensures Concat(["+33", "6", "12", "34", "56", "78"]) == "+33612345678"
  {
  }

  /** `06-12-34-56-78`, groups separated by hyphens, is valid. */
  lemma HyphenatedFrenchExample(s: string)
    requires s == "06-12-34-56-78"
    ensures IsValidPhoneNumber(s, "FR")
  {
    HyphenatedGroups();
    GroupedNumber(["06", "12", "34", "56", "78"], "-", "FR");
    FrenchTrunkExample("0612345678");
  }

  /** `06-12-34-56-78` is the groups of `0612345678` joined by hyphens. */
  lemma HyphenatedGroups()
    ensures Join(["06", "12", "34", "56", "78"], "-") == "06-12-34-56-78"
    ensures Concat(["06", "12", "34", "56", "78"]) == "0612345678"
  {
  }
}
