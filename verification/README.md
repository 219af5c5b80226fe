# Input validation of a small record-management application

This project models, in Dafny, the only pieces of the application that hold logic: the
validation and normalisation of user input.

- **The general-purpose phone validator** (`isValidPhoneNumber` in `utils.js`). It deletes every
  character that is not a digit or `+`. It then tests the result against the French pattern
  `^(?:\+33|0)[1-9]\d{8}$` or the British mobile pattern `^(?:\+44|0)7\d{9}$`. Any other country
  gives `false`, and the function never throws.
- **The height converter** (`convertToMeters` in `utils.js`). It takes a bare positive number of
  unknown unit and tries three ranges in order: metres `[0.1, 3]`, feet `[3, 10]` and centimetres
  `[30, 300]`. The first range that contains the number decides the unit, and the number is
  converted to metres. Anything else throws.
- **The contact model's phone validator** (the `numero_tel` validator in `models/contact.js`). It
  is a second, different check, run by the ORM. It removes only whitespace. Its British pattern
  accepts any leading digit 1-9. It throws a message naming the country, and it lets every number
  through when `pays` is neither `FR` nor `UK`. The `pays` column is an enumeration of those two
  values.
- **The personnel model's column constraints** (`models/personnel.js`). `age`, `taille` (metres)
  and `poids` (kilograms) are required. Each has inclusive `min`/`max` validators.

Modules:

| file | module | models |
|---|---|---|
| wrappers.dfy | `Wrappers` | `Option` (a nullable column), `Result` (a value or a thrown error), `Outcome` (a validator that passes or throws) |
| chars.dfy | `Chars` | the character classes `\d`, `[0-9+]` and ECMAScript `\s` |
| patterns.dfy | `Patterns` | the regex shape `^(?:P1\|P2)[lo-hi]\d{n}$` shared by all four phone patterns, and its meaning |
| phone.dfy | `PhoneNumbers` | `isValidPhoneNumber` of `utils.js` |
| heights.dfy | `Heights` | `convertToMeters` of `utils.js` |
| contacts.dfy | `Contacts` | the contact row, the `pays` enumeration and the `numero_tel` validator |
| personnel.dfy | `Personnel` | the personnel row and its column validators |

Thrown errors are datatypes (`Heights.SizeError`, `Contacts.PhoneError`). `Heights.Message` and
`Contacts.Message` give the exact French message text of each error.

Points of the code worth stating plainly:

- Cleaning keeps every `+` wherever it stands, not only a leading one. The patterns then reject a
  misplaced `+`.
- In both regular expressions the `+33`/`+44`/`0` prefix group is required, so a bare nine-digit
  number is rejected.
- The foot range starts at 3 (`size >= 3`), but the metre check has already taken 3, so feet
  cover `(3, 10]` (`Heights.BoundaryThreeIsMeters`).

## Model

| member | source | states |
|---|---|---|
| PhoneNumbers.Clean | utils.js:3 | the cleaned string contains only digits and `+`, is no longer than the input, and equals the input when the input has nothing to remove |
| PhoneNumbers.CleanAppend | utils.js:3 | cleaning a concatenation is the concatenation of the cleaned parts: it works character by character, in order |
| PhoneNumbers.CleanCounts | utils.js:3 | every digit and `+` is kept as often as it occurs; every other character is dropped entirely |
| PhoneNumbers.CleanSeparators | utils.js:2-3 | a string with no digit and no `+` cleans to the empty string |
| PhoneNumbers.CleanIdempotent | utils.js:3 | cleaning twice is cleaning once |
| PhoneNumbers.IsValidPhoneNumber | utils.js:1-17 | a total function (never throws) that is false for every country other than `FR` and `UK` |
| PhoneNumbers.SeparatorsIgnored | utils.js:3 | inserting any run of characters other than digits and `+` anywhere in a number never changes the verdict, for any country |
| PhoneNumbers.CleanJoin | utils.js:3 | a number written in groups with separators between them cleans to the same string as the groups run together |
| PhoneNumbers.GroupedNumber | tests/utils.test.js:15-17 | a number written in groups with spaces, hyphens or dots between them validates like the groups run together |
| PhoneNumbers.FrenchValidIff | utils.js:5-8 | FR is valid exactly when the cleaned string is `+33`, a digit 1-9 and 8 digits (length 12), or `0`, a digit 1-9 and 8 digits (length 10) |
| PhoneNumbers.BritishValidIff | utils.js:9-12 | UK is valid exactly when the cleaned string is `+44`, `7` and 9 digits (length 13), or `0`, `7` and 9 digits (length 11) |
| PhoneNumbers.FrenchNationalNumbersAccepted | utils.js:7 | every nine-digit national number not starting with 0 is valid in France with `+33` and with `0` |
| PhoneNumbers.BritishMobileNumbersAccepted | utils.js:11 | every ten-digit number starting with 7 is valid in the UK with `+44` and with `0`; putting `06` in place of `07` makes it invalid |
| PhoneNumbers.FrenchInternationalExample | tests/utils.test.js:7-9 | `+33612345678` is a valid French number |
| PhoneNumbers.FrenchTrunkExample | tests/utils.test.js:11-13 | `0612345678` is a valid French number |
| PhoneNumbers.SpacedFrenchExample | tests/utils.test.js:15-17 | `+33 6 12 34 56 78` is a valid French number |
| PhoneNumbers.FrenchTooShortExample | tests/utils.test.js:19-21 | `0612345` is rejected as too short for France |
| PhoneNumbers.FrenchDoubleZeroExample | tests/utils.test.js:23-25 | `0012345678` is rejected for France: the digit after the `0` must be 1-9 |
| PhoneNumbers.BritishInternationalExample | tests/utils.test.js:28-30 | `+447123456789` is a valid British number |
| PhoneNumbers.BritishTrunkExample | tests/utils.test.js:32-34 | `07123456789` is a valid British number |
| PhoneNumbers.BritishTooShortExample | tests/utils.test.js:36-38 | `0712345` is rejected as too short for the UK |
| PhoneNumbers.BritishLandlineExample | tests/utils.test.js:40-42 | `06123456789` is rejected for the UK: only mobile numbers starting with 7 are accepted |
| PhoneNumbers.UnsupportedCountryExample | tests/utils.test.js:45-47 | a well-formed French number is rejected for the unsupported country `US` |
| PhoneNumbers.HyphenatedFrenchExample | utils.js:2-3 | `06-12-34-56-78` is valid for France: the hyphens are cleaned away |
| Patterns.WiderRangeAcceptsMore | models/contact.js:49 | a pattern that differs only by a wider leading-digit range accepts every string the narrower one accepts |
| Patterns.MatchedStringIsKept | models/contact.js:48-49 | a pattern built only from digits and `+` matches only strings made of digits and `+` |
| Heights.ConvertToMeters | utils.js:19-39 | fails with "not positive" exactly when `size <= 0`; every success lies in `[0.1, 3.048]` metres and is the size read as metres, feet or centimetres |
| Heights.ErrorMessagesDiffer | utils.js:20-37 | the "not positive" and "out of range" errors carry different messages |
| Heights.ConversionByInterval | utils.js:25-38 | identity on `[0.1, 3]`, `size * 0.3048` on `(3, 10]`, `size / 100` on `[30, 300]`, out-of-range error on `(0, 0.1)`, `(10, 30)` and `(300, ∞)` |
| Heights.ConversionSucceedsIff | utils.js:25-38 | the converter succeeds exactly on `[0.1, 10] ∪ [30, 300]` |
| Heights.BoundaryThreeIsMeters | utils.js:25-30 | 3 lies in the metre and the foot ranges; the metre check comes first, so 3 converts to 3 and not to 0.9144 |
| Heights.OutputBoundsAttained | utils.js:25-31 | both ends of the output range are reached: 0.1 m from 0.1, and 3.048 m from 10 feet |
| Heights.MetresAndCentimetresCollide | utils.js:25-34 | every height from 0.3 m to 3 m comes both from its value in metres and from its value in centimetres |
| Heights.TestSuiteExamples | tests/utils.test.js:53-102 | the test suite's twelve cases, exact in real arithmetic: 6 → 1.8288, 3.1 → 0.94488, 9.9 → 3.01752, 175 → 1.75, 30 → 0.3, 300 → 3, and errors for -10, 0 and 1000 |
| Contacts.ErrorMessagesDiffer | models/contact.js:51-55 | the French and the British rejection carry different messages |
| Contacts.StripWhitespace | models/contact.js:51 | the stripped string contains no whitespace, is no longer than the input, and equals the input when it has no whitespace |
| Contacts.StripAppend | models/contact.js:51-53 | stripping a concatenation is the concatenation of the stripped parts: it works character by character and keeps the order |
| Contacts.StripKeepsNonWhitespace | models/contact.js:51-53 | stripping keeps every character that is not whitespace (hyphens, parentheses) as often as it occurs |
| Contacts.ValidatePhone | models/contact.js:46-56 | passes every number when `pays` is outside `{FR, UK}`; the French error is thrown only for `FR` and the British error only for `UK` |
| Contacts.StoredNumberMatchesItsCountry | models/contact.js:38-55 | on a row the ORM accepts, `pays` is `FR` or `UK`, and the whitespace-stripped number matches that country's pattern |
| Contacts.StripAgreesWithClean | models/contact.js:51 | on input made only of digits, `+` and whitespace, stripping whitespace and general-purpose cleaning give the same string |
| Contacts.ContactFrenchValidIff | models/contact.js:48-52 | for `FR` the validator passes exactly when the whitespace-stripped number is `+33`, a digit 1-9 and 8 digits (length 12), or `0`, a digit 1-9 and 8 digits (length 10) |
| Contacts.ContactBritishValidIff | models/contact.js:49-54 | for `UK` the validator passes exactly when the whitespace-stripped number is `+44`, a digit 1-9 and 9 digits (length 13), or `0`, a digit 1-9 and 9 digits (length 11): landlines as well as mobiles |
| Contacts.FrenchValidatorsAgree | models/contact.js:48 | on input whose only separators are whitespace, the contact validator accepts a French number exactly when the general-purpose validator does |
| Contacts.BritishContactValidatorIsWeaker | models/contact.js:49 | on input whose only separators are whitespace, every British number the general-purpose validator accepts passes the contact validator |
| Contacts.BritishLandlineAcceptedHere | models/contact.js:49 | the inclusion is strict: `06123456789` passes the contact validator and fails the general-purpose one |
| Contacts.PunctuationRejected | models/contact.js:51-55 | for `FR` and `UK`, any character that is not whitespace, a digit or `+` makes the contact validator throw |
| Contacts.HyphenatedFrenchNumber | models/contact.js:51-52 | `06-12-34-56-78` is accepted by the general-purpose validator and rejected with the French error by the contact validator |
| Personnel.CheckColumn | models/personnel.js:30-54 | one column yields at most one violation, about that column: `IsNull` exactly when the value is NULL, `BelowMin` exactly when it is below the `min` bound, `AboveMax` exactly when it is above the `max` bound, and none exactly when it is present and within the inclusive bounds |
| Personnel.Validate | models/personnel.js:30-55 | no violation exactly when age is in `[16, 100]`, height in `[0.5, 2.5]` m and weight in `[20, 300]` kg, all present; each column is reported at most once; a NULL column is reported as missing, and a value below `min` or above `max` is reported against its own column and bound |
| Personnel.StorableConvertedSizes | models/personnel.js:38-45 | a size converts to a storable height exactly when it lies in `[0.5, 2.5]`, in `(3, 2.5 / 0.3048]` or in `[50, 250]` |
| Personnel.ConversionDoesNotImplyStorable | models/personnel.js:42-45 | a successful conversion does not make a height storable: 0.1 → 0.1 m and 10 → 3.048 m both fall outside `[0.5, 2.5]` |
| Personnel.StorableTailleIsConvertible | models/personnel.js:42-45 | every storable height is the conversion of itself entered in metres |

## Left out

- HTTP routing, page rendering and database access (`server.js`, `routes/*.js`) are I/O plumbing and are not modelled. The one-contact and one-personnel-per-person rules in the routes are query-then-act checks against the database, not pure functions.
- The routes' use of the converter is not modelled. The create path stores `Number(taille)` without converting it. The update path skips the conversion when `parseFloat` gives 0 or NaN.
- Fake-data seeding (`seeders/seed.js`) is not modelled: it generates random rows with faker, and randomness is outside the model.
- The `Personne` model is not modelled: it holds no logic beyond `notEmpty`.
- The ORM's `associate` calls, foreign keys, cascades and auto-increment identifiers are not modelled: they are schema wiring.
- Heights.ConvertToMeters: sizes are real numbers, not IEEE-754 doubles. The `typeof size !== "number"` guard, NaN and Infinity cannot be expressed (NaN and Infinity would reach the out-of-range error in the code). Conversions are exact, where the code rounds.
- Personnel.Validate: `age` is modelled as an integer. A fractional age (the routes store `Number(age)`, which may be 16.5) reaching the `min`/`max` validators is not modelled. Only `age`, `taille` and `poids` are validated; the identifier columns are left out.
- Contacts.ValidatePhone: the ORM's other checks on the contact row (`allowNull` on `adresse`, `ville`, `pays` and `numero_tel`, and the enumeration on `pays`) are modelled separately by `Contacts.IsValidContact`, not by this function. A NULL `numero_tel` never reaches the validator.
- The phone and country arguments are strings. A non-string phone argument is not modelled: the code would throw a TypeError on `replace`.
