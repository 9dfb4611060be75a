/** The card-number rule `ValidateNumber` and the classifier
    `GetPaymentSystemType`: a number is valid when it is all digits and its
    prefix and length fit one of three payment networks. */
module CardNumber {
  import opened Digits

  datatype PaymentSystemType = Visa | MasterCard | AmericanExpress

  /** The classifier's outcome: a network, or the unsupported-network signal
      that the service raises as `NotImplementedException`. */
  datatype Classification = Supported(network: PaymentSystemType) | Unsupported

  /** Visa: leading `4`, 13 to 16 digits. */
  predicate IsVisa(s: string) {
    AllDigits(s) && 13 <= |s| <= 16 && s[0] == '4'
  }

  /** MasterCard: 16 digits, prefix `51`-`55` or `2221`-`2720`. */
  predicate IsMasterCard(s: string) {
    AllDigits(s) && |s| == 16 && (51 <= Value(s[..2]) <= 55 || 2221 <= Value(s[..4]) <= 2720)
  }

  /** American Express: 15 digits, prefix `34` or `37`. */
  predicate IsAmericanExpress(s: string) {
    AllDigits(s) && |s| == 15 && s[0] == '3' && (s[1] == '4' || s[1] == '7')
  }

  /** The prefix-and-length rule of each network. */
  predicate Matches(s: string, network: PaymentSystemType) {
    match network
    case Visa => IsVisa(s)
    case MasterCard => IsMasterCard(s)
    case AmericanExpress => IsAmericanExpress(s)
  }

  predicate ValidateNumber(number: string) {
    IsVisa(number) || IsMasterCard(number) || IsAmericanExpress(number)
  }

  function GetPaymentSystemType(number: string): (r: Classification)
    ensures r.Supported? ==> Matches(number, r.network)
  {
    if IsVisa(number) then Supported(Visa)
    else if IsMasterCard(number) then Supported(MasterCard)
    else if IsAmericanExpress(number) then Supported(AmericanExpress)
    else Unsupported
  }

  /** The MasterCard prefix ranges read digit by digit: `5[1-5]`, or
      `222[1-9]`, `22[3-9]x`, `2[3-6]xx`, `27[01]x`, `2720`. */
  lemma MasterCardPrefixDigits(s: string)
    requires AllDigits(s) && |s| >= 4
    ensures 51 <= Value(s[..2]) <= 55 <==> s[0] == '5' && '1' <= s[1] <= '5'
    ensures 2221 <= Value(s[..4]) <= 2720 <==>
      s[0] == '2' &&
      (   (s[1] == '2' && s[2] == '2' && '1' <= s[3] <= '9')
       || (s[1] == '2' && '3' <= s[2] <= '9')
       || ('3' <= s[1] <= '6')
       || (s[1] == '7' && (s[2] == '0' || s[2] == '1'))
       || (s[1] == '7' && s[2] == '2' && s[3] == '0'))
  {
    ValueOfTwo(s[..2]);
    ValueOfFour(s[..4]);
  }

  /** A number has a valid shape only with first digit 2, 3, 4 or 5, so the
      three networks never overlap. */
  lemma NetworksDisjoint(s: string)
    ensures !(IsVisa(s) && IsMasterCard(s))
    ensures !(IsVisa(s) && IsAmericanExpress(s))
    ensures !(IsMasterCard(s) && IsAmericanExpress(s))
  {
    if IsMasterCard(s) {
      MasterCardPrefixDigits(s);
    }
  }

  /** The classifier names a network exactly when the number fits that
      network's rule. */
  lemma ClassificationExact(s: string, network: PaymentSystemType)
    ensures GetPaymentSystemType(s) == Supported(network) <==> Matches(s, network)
  {
    NetworksDisjoint(s);
  }

  /** The classifier signals an unsupported network exactly on the numbers
      that `ValidateNumber` refuses: on a valid number it never fails. */
  lemma ValidIffClassified(s: string)
    ensures ValidateNumber(s) <==> GetPaymentSystemType(s).Supported?
  {
    if ValidateNumber(s) {
      assert Matches(s, GetPaymentSystemType(s).network);
    }
  }

  /** A valid number is 13 to 16 digits starting with 2, 3, 4 or 5. */
  lemma ValidNumberShape(s: string)
    requires ValidateNumber(s)
    ensures AllDigits(s) && 13 <= |s| <= 16 && s[0] in "2345"
  {
    if IsMasterCard(s) {
      MasterCardPrefixDigits(s);
    }
  }

  /** A 16-digit number with prefix `51`-`55` is a valid MasterCard. */
  lemma MasterCardHighRange(s: string)
    requires AllDigits(s) && |s| == 16 && s[0] == '5' && '1' <= s[1] <= '5'
    ensures ValidateNumber(s) && GetPaymentSystemType(s) == Supported(MasterCard)
  {
    MasterCardPrefixDigits(s);
  }

  /** A 16-digit number with a prefix in `2221`-`2720` is a valid MasterCard. */
  lemma MasterCardLowRange(s: string)
    requires AllDigits(s) && |s| == 16 && s[0] == '2'
    requires (s[1] == '2' && s[2] == '2' && s[3] == '1') || (s[1] == '7' && s[2] == '2' && s[3] == '0')
    ensures ValidateNumber(s) && GetPaymentSystemType(s) == Supported(MasterCard)
  {
    MasterCardPrefixDigits(s);
  }

  /** A number starting with `1` or `56` fits no network. */
  lemma OutsideEveryRange(s: string)
    requires |s| >= 1
    requires s[0] == '1' || (|s| >= 2 && s[0] == '5' && s[1] == '6')
    ensures !ValidateNumber(s) && GetPaymentSystemType(s) == Unsupported
  {
    if |s| >= 4 && AllDigits(s) {
      MasterCardPrefixDigits(s);
    }
  }

  // The cases of ValidateNumber_ShouldReturnExpectedResult_ForCardNumbers.

  lemma VisaNumberExamples()
    ensures ValidateNumber("4111111111111")
    ensures ValidateNumber("4999999999999999")
    ensures !ValidateNumber("411111111111")
  {
  }

  lemma AcceptsMasterCard51()
    ensures ValidateNumber("5111111111111111")
  {
    MasterCardHighRange("5111111111111111");
  }

  lemma AcceptsMasterCard55()
    ensures ValidateNumber("5599999999999999")
  {
    MasterCardHighRange("5599999999999999");
  }

  lemma AcceptsMasterCard2221()
    ensures ValidateNumber("2221111111111111")
  {
    MasterCardLowRange("2221111111111111");
  }

  lemma AcceptsMasterCard2720()
    ensures ValidateNumber("2720999999999999")
  {
    MasterCardLowRange("2720999999999999");
  }

  lemma RejectsFifteenDigitMasterCard()
    ensures !ValidateNumber("511111111111111")
  {
  }

  lemma RejectsPrefix56()
    ensures !ValidateNumber("5611111111111111")
  {
    OutsideEveryRange("5611111111111111");
  }

  lemma AmericanExpressNumberExamples()
    ensures ValidateNumber("341111111111111")
    ensures ValidateNumber("371111111111111")
    ensures !ValidateNumber("351111111111111")
  {
  }

  lemma OtherNumberExamples()
    ensures !ValidateNumber("123456789012345")
    ensures !ValidateNumber("")
  {
  }

  // The cases of the GetPaymentSystemType tests.

  lemma ClassifiesVisa()
    ensures GetPaymentSystemType("4111111111111111") == Supported(Visa)
  {
  }

  lemma ClassifiesMasterCard()
    ensures GetPaymentSystemType("5111111111111111") == Supported(MasterCard)
  {
    MasterCardHighRange("5111111111111111");
  }

  lemma ClassifiesAmericanExpress()
    ensures GetPaymentSystemType("371111111111111") == Supported(AmericanExpress)
  {
  }

  /** `1234567890123456` fits no network: the classifier signals it instead of
      picking a default. */
  lemma UnsupportedNumberSignalled()
    ensures GetPaymentSystemType("1234567890123456") == Unsupported
  {
    OutsideEveryRange("1234567890123456");
  }
}
