/**
  The contact record and the validator its ORM model attaches to the
  `numero_tel` column. This validator is a second, different phone check:
  it removes only whitespace, and its British pattern accepts any leading
  digit 1-9 after the prefix.
 */
module Contacts {
  import opened Chars
  import opened Patterns
  import opened Wrappers
  import PhoneNumbers

  /** `/^(\+33|0)[1-9](\d{8})$/`: the same language as the general-purpose French pattern. */
  const FrenchPattern := Shape(["+33", "0"], '1', '9', 8)

  /** `/^(\+44|0)[1-9](\d{9})$/`: landlines as well as mobiles. */
  const BritishPattern := Shape(["+44", "0"], '1', '9', 9)

  /** The values of the `pays` column, `ENUM('FR', 'UK')`. */
  const Countries: set<string> := {"FR", "UK"}

  /** The two errors the phone validator throws, one per country. */
  datatype PhoneError = InvalidFrenchNumber | InvalidBritishNumber

  /** The message each error carries. */
  function Message(e: PhoneError): string {
    match e
    case InvalidFrenchNumber => "Le numéro de téléphone français est invalide"
    case InvalidBritishNumber => "Le numéro de téléphone britannique est invalide"
  }

  /** A rejected number gets a message that depends on the country. */
  lemma ErrorMessagesDiffer()
    ensures Message(InvalidFrenchNumber) != Message(InvalidBritishNumber)
  {
  }

  /** `replace(/\s/g, '')`: drops the whitespace of `s` and keeps the rest, in order. */
  function StripWhitespace(s: string): (r: string)
    ensures |r| <= |s|
    ensures forall i :: 0 <= i < |r| ==> !IsWhitespace(r[i])
    ensures (forall i :: 0 <= i < |s| ==> !IsWhitespace(s[i])) ==> r == s
  {
    if s == [] then []
    else if IsWhitespace(s[0]) then StripWhitespace(s[1..])
    else [s[0]] + StripWhitespace(s[1..])
  }

  /** Stripping commutes with concatenation: it works character by character and keeps the order. */
  lemma {:induction false} StripAppend(a: string, b: string)
    ensures StripWhitespace(a + b) == StripWhitespace(a) + StripWhitespace(b)
  {
    if a == [] {
      assert a + b == b;
    } else {
      assert (a + b)[0] == a[0];
      assert (a + b)[1..] == a[1..] + b;
      StripAppend(a[1..], b);
    }
  }

  /** Stripping keeps every character that is not whitespace, as often as it occurs. */
  lemma {:induction false} StripKeepsNonWhitespace(s: string, c: char)
    requires !IsWhitespace(c)
    ensures multiset(StripWhitespace(s))[c] == multiset(s)[c]
  {
    if s != [] {
      assert s == [s[0]] + s[1..];
      StripKeepsNonWhitespace(s[1..], c);
    }
  }

  /**
    The `isValidPhoneNumber` validator of `numero_tel`, reading the record's
    `pays`. It throws only for France and the United Kingdom, with a message
    naming the country; any other `pays` lets every number through.
   */
  function ValidatePhone(value: string, pays: string): (r: Outcome<PhoneError>)
    ensures pays !in Countries ==> r == Pass
    ensures r == Fail(InvalidFrenchNumber) ==> pays == "FR"
    ensures r == Fail(InvalidBritishNumber) ==> pays == "UK"
  {
    if pays == "FR" && !Matches(FrenchPattern, StripWhitespace(value)) then Fail(InvalidFrenchNumber)
    else if pays == "UK" && !Matches(BritishPattern, StripWhitespace(value)) then Fail(InvalidBritishNumber)
    else Pass
  }

  /** A contact row; `None` is a NULL column. */
  datatype Contact = Contact(adresse: Option<string>, ville: Option<string>, pays: Option<string>, numeroTel: Option<string>)

  /**
    What the ORM demands of a contact before it is stored: no NULL column,
    `pays` one of the enumeration's values, and a phone number that passes
    the validator.
   */
  predicate IsValidContact(c: Contact) {
    && c.adresse.Some? && c.ville.Some? && c.pays.Some? && c.numeroTel.Some?
    && c.pays.value in Countries
    && ValidatePhone(c.numeroTel.value, c.pays.value) == Pass
  }

  /**
    On a stored contact the enumeration closes the gap left by the validator:
    the number, once its whitespace is gone, matches the pattern of its country.
   */
  lemma StoredNumberMatchesItsCountry(c: Contact)
    requires IsValidContact(c)
    ensures c.pays.value == "FR" ==> Matches(FrenchPattern, StripWhitespace(c.numeroTel.value))
    ensures c.pays.value == "UK" ==> Matches(BritishPattern, StripWhitespace(c.numeroTel.value))
    ensures c.pays.value == "FR" || c.pays.value == "UK"
  {
  }

  /**
    For France the contact validator passes exactly when the number, once its
    whitespace is gone, is `+33`, a digit 1-9 and eight digits, or `0`, a
    digit 1-9 and eight digits.
   */
  lemma ContactFrenchValidIff(value: string)
    ensures var c := StripWhitespace(value);
            ValidatePhone(value, "FR") == Pass <==>
              || (|c| == 12 && c[..3] == "+33" && '1' <= c[3] <= '9' && AllDigits(c[4..]))
              || (|c| == 10 && c[0] == '0' && '1' <= c[1] <= '9' && AllDigits(c[2..]))
  {
    var c := StripWhitespace(value);
    assert FrenchPattern.prefixes[0] == "+33" && FrenchPattern.prefixes[1] == "0";
    if |c| == 10 && c[0] == '0' {
      assert c[..1] == "0";
    }
  }

  /**
    For the United Kingdom the contact validator passes exactly when the
    number, once its whitespace is gone, is `+44`, a digit 1-9 and nine
    digits, or `0`, a digit 1-9 and nine digits: any leading digit, not only
    the 7 of a mobile number.
   */
  lemma ContactBritishValidIff(value: string)
    ensures var c := StripWhitespace(value);
            ValidatePhone(value, "UK") == Pass <==>
              || (|c| == 13 && c[..3] == "+44" && '1' <= c[3] <= '9' && AllDigits(c[4..]))
              || (|c| == 11 && c[0] == '0' && '1' <= c[1] <= '9' && AllDigits(c[2..]))
  {
    var c := StripWhitespace(value);
    assert BritishPattern.prefixes[0] == "+44" && BritishPattern.prefixes[1] == "0";
    if |c| == 11 && c[0] == '0' {
      assert c[..1] == "0";
    }
  }

  /** On input made only of digits, plus signs and whitespace, both validators clean it to the same string. */
  lemma {:induction false} StripAgreesWithClean(s: string)
    requires forall i :: 0 <= i < |s| ==> IsKept(s[i]) || IsWhitespace(s[i])
    ensures StripWhitespace(s) == PhoneNumbers.Clean(s)
  {
    if s != [] {
      StripAgreesWithClean(s[1..]);
    }
  }

  /**
    For France the two validators agree on every input whose only separators
    are whitespace: the contact model accepts it exactly when the general-purpose
    validator does.
   */
  lemma FrenchValidatorsAgree(value: string)
    requires forall i :: 0 <= i < |value| ==> IsKept(value[i]) || IsWhitespace(value[i])
    ensures ValidatePhone(value, "FR") == Pass <==> PhoneNumbers.IsValidPhoneNumber(value, "FR")
  {
    StripAgreesWithClean(value);
  }

  /**
    For the United Kingdom the contact validator is weaker: on input whose only
    separators are whitespace, it accepts every number the general-purpose
    validator accepts.
   */
  lemma BritishContactValidatorIsWeaker(value: string)
    requires forall i :: 0 <= i < |value| ==> IsKept(value[i]) || IsWhitespace(value[i])
    requires PhoneNumbers.IsValidPhoneNumber(value, "UK")
    ensures ValidatePhone(value, "UK") == Pass
  {
    StripAgreesWithClean(value);
    WiderRangeAcceptsMore(PhoneNumbers.BritishPattern, BritishPattern, StripWhitespace(value));
  }

  /** Strictly weaker: the British landline `06123456789` passes here and fails the general-purpose check. */
  lemma BritishLandlineAcceptedHere(s: string)
    requires s == "06123456789"
    ensures ValidatePhone(s, "UK") == Pass
    ensures !PhoneNumbers.IsValidPhoneNumber(s, "UK")
  {
    assert forall i :: 0 <= i < |s| ==> !IsWhitespace(s[i]);
    assert MatchesAfter(BritishPattern, BritishPattern.prefixes[1], s) by {
      assert s[..1] == "0";
      assert AllDigits(s[2..]);
    }
    PhoneNumbers.BritishLandlineExample(s);
  }

  /**
    Any character that is neither whitespace nor a digit nor a plus sign (a
    hyphen, a parenthesis, a dot) makes the contact validator throw for France
    and the United Kingdom, where the general-purpose validator would drop it.
   */
  lemma PunctuationRejected(value: string, pays: string, k: nat)
    requires pays in Countries
    requires k < |value| && !IsWhitespace(value[k]) && !IsKept(value[k])
    ensures ValidatePhone(value, pays).Fail?
  {
    var c := value[k];
    StripKeepsNonWhitespace(value, c);
    assert c in multiset(value);
    var stripped := StripWhitespace(value);
    assert c in stripped;
    if pays == "FR" && Matches(FrenchPattern, stripped) {
      MatchedStringIsKept(FrenchPattern, stripped);
    } else if pays == "UK" && Matches(BritishPattern, stripped) {
      MatchedStringIsKept(BritishPattern, stripped);
    }
  }

  /** `06-12-34-56-78` is accepted by the general-purpose validator and rejected here. */
  lemma HyphenatedFrenchNumber(s: string)
    requires s == "06-12-34-56-78"
    ensures PhoneNumbers.IsValidPhoneNumber(s, "FR")
    ensures ValidatePhone(s, "FR") == Fail(InvalidFrenchNumber)
  {
    PhoneNumbers.HyphenatedFrenchExample(s);
    assert s[2] == '-';
    PunctuationRejected(s, "FR", 2);
  }
}
