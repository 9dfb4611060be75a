# Card validation engine

A Dafny model of `CardValidationService`, the stateless engine behind the card
validation endpoint. It has five operations:

- `ValidateOwner` checks the cardholder name.
- `ValidateIssueDate` checks the expiry date. It must be `MM/YY` or `MM/YYYY`, and it must fall strictly after the current month.
- `ValidateCvc` checks the security code.
- `ValidateNumber` checks the card number by prefix and length for Visa, MasterCard and American Express.
- `GetPaymentSystemType` maps a number to its `PaymentSystemType`.

The implementation file of the service is not part of this model. Its behaviour
is pinned down by the unit tests in
`CardValidation.Core.UnitTests/CardValidationServiceTests.cs`. Where the tests
leave a case open, the model takes the stated rule of each operation: Visa
numbers have 13 to 16 digits, a name may neither start nor end with a space,
and the MasterCard prefixes are the ranges 51-55 and 2221-2720. Every test case
is a lemma.

Every operation is a pure predicate or function over `string`. The model takes
the same form, with one module per rule:

- `Digits` (`Digits.dfy`): the digit class `0`-`9`, the value of a digit string and its zero-padded rendering. The other modules share it.
- `Owner` (`Owner.dfy`): the name is split at single spaces into pieces. It is valid when there are at most three pieces and each is a non-empty run of letters. The lemmas prove this equals a reference reading: one to three words joined by single spaces.
- `IssueDate` (`IssueDate.dfy`): `ParseExpiry` reads `MM/YY` or `MM/YYYY` into a `YearMonth`. `ValidateIssueDate(date, now)` accepts when the parsed month lies strictly after `now`. `now` is the current UTC month, passed as a parameter. `Format` writes a month in the `MM/yy` or `MM/yyyy` pattern. The lemmas prove that parsing and formatting are inverse. They also prove the rule accepts exactly the future months written in either pattern.
- `Cvc` (`Cvc.dfy`): three or four digits. The rule is proved equal to "some number written zero-padded at width 3 or 4".
- `CardNumber` (`CardNumber.dfy`): one prefix-and-length predicate per network, `ValidateNumber` and `GetPaymentSystemType`. The service throws `NotImplementedException` for an unrecognised number. Here that is the `Unsupported` variant of the `Classification` result type.

Two-digit years are read as `2000 + YY`.

## Model

| member | source | states |
|---|---|---|
| `Owner.ValidateOwner` | CardValidation.Core.UnitTests/CardValidationServiceTests.cs:20 | the owner rule; its meaning is stated by `Owner.ValidateOwnerIff`: accepted exactly when one to three alphabetic words are joined by single spaces |
| `Owner.ValidateOwnerIff` | CardValidation.Core.UnitTests/CardValidationServiceTests.cs:12-41 | a name is accepted if and only if it is one, two or three non-empty alphabetic words joined by single spaces |
| `Owner.JoinedWordsAccepted` | CardValidation.Core.UnitTests/CardValidationServiceTests.cs:12-24 | every name of one to three alphabetic words joined by single spaces is accepted, including one-letter and one-word names |
| `Owner.TooManyWordsRejected` | CardValidation.Core.UnitTests/CardValidationServiceTests.cs:30 | four or more well-formed words joined by single spaces are refused |
| `Owner.AcceptedOwnerShape` | CardValidation.Core.UnitTests/CardValidationServiceTests.cs:26-41 | an accepted name is non-empty, starts and ends with a letter, holds only letters and spaces, and never has two spaces in a row |
| `Owner.NotWellSpacedRejected` | CardValidation.Core.UnitTests/CardValidationServiceTests.cs:27-32 | one character that is neither a letter nor a single inner space makes the name invalid |
| `Owner.AcceptsTwoWordName` | CardValidation.Core.UnitTests/CardValidationServiceTests.cs:13 | "John Doe" is accepted |
| `Owner.AcceptsOneLetterName` | CardValidation.Core.UnitTests/CardValidationServiceTests.cs:14 | "J" is accepted |
| `Owner.AcceptsThreeWordName` | CardValidation.Core.UnitTests/CardValidationServiceTests.cs:15 | "John Fitzgerald Doe" is accepted |
| `Owner.AcceptsOneWordName` | CardValidation.Core.UnitTests/CardValidationServiceTests.cs:16 | "Namewithoutspaces" is accepted |
| `Owner.RejectsDoubleSpace` | CardValidation.Core.UnitTests/CardValidationServiceTests.cs:27 | "John  Doe" is refused |
| `Owner.RejectsDigit` | CardValidation.Core.UnitTests/CardValidationServiceTests.cs:28 | "John Doe4" is refused |
| `Owner.RejectsHyphen` | CardValidation.Core.UnitTests/CardValidationServiceTests.cs:29 | "John-Doe" is refused |
| `Owner.RejectsFourWords` | CardValidation.Core.UnitTests/CardValidationServiceTests.cs:30 | "John Fitzgerald Kennedy Doe" is refused |
| `Owner.RejectsEmptyName` | CardValidation.Core.UnitTests/CardValidationServiceTests.cs:31 | the empty string is refused |
| `Owner.RejectsLeadingSpace` | CardValidation.Core.UnitTests/CardValidationServiceTests.cs:32 | " John Doe" is refused |
| `IssueDate.ValidateIssueDate` | CardValidation.Core.UnitTests/CardValidationServiceTests.cs:56-57 | the expiry rule, with the current month as `now`; its meaning is stated by `IssueDate.ValidateIssueDateIff`: accepted exactly when the date is a month strictly after `now` written as `MM/yy` or `MM/yyyy` |
| `IssueDate.Format` | CardValidation.Core.UnitTests/CardValidationServiceTests.cs:52-53 | the `MM/yy` and `MM/yyyy` writing of a month: 5 or 7 characters, `/` at position 2, digits around it; `IssueDate.ParseFormat` and `IssueDate.FormatParse` prove it inverse to `IssueDate.ParseExpiry` |
| `IssueDate.AddMonths` | CardValidation.Core.UnitTests/CardValidationServiceTests.cs:51 | the result is a month between 1 and 12 lying exactly k months after the given one |
| `IssueDate.ParseExpiry` | CardValidation.Core.UnitTests/CardValidationServiceTests.cs:92-108 | anything parsed has month 1-12 and a year in range; only 5- or 7-character strings with `/` at position 2 parse; a two-digit year lands in 2000-2099 |
| `IssueDate.ParseFormat` | CardValidation.Core.UnitTests/CardValidationServiceTests.cs:51-53 | a month written as `MM/yy` (years 2000-2099) or `MM/yyyy` reads back as the same month |
| `IssueDate.FormatParse` | CardValidation.Core.UnitTests/CardValidationServiceTests.cs:92-108 | every string that parses is the zero-padded `MM/yy` or `MM/yyyy` writing of what it parsed to, so a missing leading zero, a wrong separator or a wrong year width never parses |
| `IssueDate.ValidateFormatted` | CardValidation.Core.UnitTests/CardValidationServiceTests.cs:47-90 | a formatted month is accepted if and only if it lies strictly after the current month |
| `IssueDate.ValidateIssueDateIff` | CardValidation.Core.UnitTests/CardValidationServiceTests.cs:47-108 | a date is accepted if and only if it is a month strictly after now, written as `MM/yy` or `MM/yyyy` |
| `IssueDate.SixMonthsAheadAccepted` | CardValidation.Core.UnitTests/CardValidationServiceTests.cs:47-62 | six months after now is accepted as `MM/yyyy`, and also as `MM/yy` whenever that month lies in 2000-2099 |
| `IssueDate.LastMonthRejected` | CardValidation.Core.UnitTests/CardValidationServiceTests.cs:64-76 | the month before now, as `MM/yy`, is refused |
| `IssueDate.CurrentMonthRejected` | CardValidation.Core.UnitTests/CardValidationServiceTests.cs:78-90 | the current month is refused in both forms |
| `IssueDate.MalformedDateExamples` | CardValidation.Core.UnitTests/CardValidationServiceTests.cs:92-108 | "13/25", "00/25", "1/25", "12/2", "12-2025", "12/20255", "abc" and "" are refused whatever the current month |
| `Cvc.ValidateCvc` | CardValidation.Core.UnitTests/CardValidationServiceTests.cs:120 | the security-code rule; its meaning is stated by `Cvc.ValidateCvcIff`: accepted exactly when it is a number written zero-padded with 3 or 4 digits |
| `Cvc.ValidateCvcIff` | CardValidation.Core.UnitTests/CardValidationServiceTests.cs:114-139 | a code is accepted if and only if it is some number written zero-padded with exactly 3 or exactly 4 digits |
| `Cvc.CvcExamples` | CardValidation.Core.UnitTests/CardValidationServiceTests.cs:114-139 | "123" and "4567" are accepted; "12", "12345", "abc", "12a" and "" are refused |
| `CardNumber.ValidateNumber` | CardValidation.Core.UnitTests/CardValidationServiceTests.cs:167 | the card-number rule; `CardNumber.ValidIffClassified` and `CardNumber.NetworksDisjoint` state that it holds exactly when the number fits one network's prefix-and-length rule |
| `CardNumber.GetPaymentSystemType` | CardValidation.Core.UnitTests/CardValidationServiceTests.cs:184 | a network it names is one whose rule the number fits; `CardNumber.ClassificationExact` proves the converse, and `CardNumber.ValidIffClassified` that it signals unsupported exactly on invalid numbers |
| `CardNumber.MasterCardPrefixDigits` | CardValidation.Core.UnitTests/CardValidationServiceTests.cs:150-156 | the prefix ranges 51-55 and 2221-2720 are equivalent to their digit-by-digit patterns |
| `CardNumber.NetworksDisjoint` | CardValidation.Core.UnitTests/CardValidationServiceTests.cs:145-171 | no number fits the rules of two networks |
| `CardNumber.ValidNumberShape` | CardValidation.Core.UnitTests/CardValidationServiceTests.cs:145-171 | a valid number is all digits, 13 to 16 long, with first digit 2, 3, 4 or 5 |
| `CardNumber.ClassificationExact` | CardValidation.Core.UnitTests/CardValidationServiceTests.cs:177-188 | the classifier returns a network if and only if the number fits that network's prefix-and-length rule |
| `CardNumber.ValidIffClassified` | CardValidation.Core.UnitTests/CardValidationServiceTests.cs:177-198 | the classifier signals an unsupported network exactly on the numbers the number rule refuses |
| `CardNumber.MasterCardHighRange` | CardValidation.Core.UnitTests/CardValidationServiceTests.cs:151-152 | every 16-digit number with prefix 51-55 is valid and classified as MasterCard |
| `CardNumber.MasterCardLowRange` | CardValidation.Core.UnitTests/CardValidationServiceTests.cs:153-154 | every 16-digit number with prefix 2221 or 2720 is valid and classified as MasterCard |
| `CardNumber.OutsideEveryRange` | CardValidation.Core.UnitTests/CardValidationServiceTests.cs:156 | every string starting with 1 or 56 is invalid and the classifier signals an unsupported network |
| `CardNumber.VisaNumberExamples` | CardValidation.Core.UnitTests/CardValidationServiceTests.cs:147-149 | "4111111111111" (13 digits) and "4999999999999999" (16 digits) are valid; the 12-digit "411111111111" is not |
| `CardNumber.AcceptsMasterCard51` | CardValidation.Core.UnitTests/CardValidationServiceTests.cs:151 | "5111111111111111" is valid |
| `CardNumber.AcceptsMasterCard55` | CardValidation.Core.UnitTests/CardValidationServiceTests.cs:152 | "5599999999999999" is valid |
| `CardNumber.AcceptsMasterCard2221` | CardValidation.Core.UnitTests/CardValidationServiceTests.cs:153 | "2221111111111111" is valid |
| `CardNumber.AcceptsMasterCard2720` | CardValidation.Core.UnitTests/CardValidationServiceTests.cs:154 | "2720999999999999" is valid |
| `CardNumber.RejectsFifteenDigitMasterCard` | CardValidation.Core.UnitTests/CardValidationServiceTests.cs:155 | the 15-digit "511111111111111" is invalid |
| `CardNumber.RejectsPrefix56` | CardValidation.Core.UnitTests/CardValidationServiceTests.cs:156 | "5611111111111111" is invalid |
| `CardNumber.AmericanExpressNumberExamples` | CardValidation.Core.UnitTests/CardValidationServiceTests.cs:158-160 | "341111111111111" and "371111111111111" are valid; "351111111111111" is not |
| `CardNumber.OtherNumberExamples` | CardValidation.Core.UnitTests/CardValidationServiceTests.cs:162-163 | "123456789012345" and the empty string are invalid |
| `CardNumber.ClassifiesVisa` | CardValidation.Core.UnitTests/CardValidationServiceTests.cs:178 | "4111111111111111" is classified as Visa |
| `CardNumber.ClassifiesMasterCard` | CardValidation.Core.UnitTests/CardValidationServiceTests.cs:179 | "5111111111111111" is classified as MasterCard |
| `CardNumber.ClassifiesAmericanExpress` | CardValidation.Core.UnitTests/CardValidationServiceTests.cs:180 | "371111111111111" is classified as AmericanExpress |
| `CardNumber.UnsupportedNumberSignalled` | CardValidation.Core.UnitTests/CardValidationServiceTests.cs:190-198 | "1234567890123456" yields the unsupported-network signal, not a default network |

## Left out

- The implementation file of `CardValidationService` is not part of this model. The rules follow its unit tests. Two cases the tests leave open are taken from the stated rules: Visa numbers of 14 and 15 digits are valid, and a name ending in a space is refused.
- Reading the clock (`DateTime.UtcNow`): the current month is the `now` parameter of `ValidateIssueDate`. Days and times within a month are not modelled, because the rule compares whole months.
- IssueDate.ParseExpiry: a two-digit year is read as `2000 + YY`. .NET's own parsing pivots two-digit years at 2049, so `50`-`99` would be 1950-1999. The tests only use years near the present.
- IssueDate.SixMonthsAheadAccepted: promises acceptance of the `MM/yy` writing only when the month six months ahead lies in 2000-2099, since outside that range writing `MM/yy` and reading it back changes the century.
- IssueDate.LastMonthRejected: requires the previous month to lie in 2000-2099, for the same reason.
- IssueDate.CurrentMonthRejected: requires the current year to lie in 2000-2099, for the same reason.
- IssueDate.ParseExpiry: the four-digit year `0000` is refused, because a .NET date holds years 1 to 9999. That year would lie in the past anyway.
- Character classes are ASCII. Letters are `A`-`Z` and `a`-`z`, and digits are `0`-`9`. The Unicode letter and digit classes of .NET are not modelled.
- The HTTP endpoint is not modelled: request binding, JSON (de)serialisation and the per-field error messages (`CardValidation.Web.IntegrationTests/StepDefinitions/CreditCardValidationStepDefinitions.cs`). None of it holds decision logic.
- Exceptions: `NotImplementedException` from `GetPaymentSystemType` is the `Unsupported` result value.
- Luhn/check-digit validation: the engine does not perform it.
