/** The security-code rule `ValidateCvc`: three or four decimal digits and
    nothing else. */
module Cvc {
  import opened Digits

  predicate ValidateCvc(cvc: string) {
    (|cvc| == 3 || |cvc| == 4) && AllDigits(cvc)
  }

  /** Reference reading of the rule: the code is some number written with
      exactly three or exactly four digits, zero-padded. */
  ghost predicate IsPaddedCode(s: string) {
    exists n: nat, width: nat :: (width == 3 || width == 4) && n < Pow10(width) && s == Render(n, width)
  }

  /** `ValidateCvc` accepts exactly the zero-padded three- and four-digit
      writings of a number. */
  lemma ValidateCvcIff(s: string)
    ensures ValidateCvc(s) <==> IsPaddedCode(s)
  {
    if ValidateCvc(s) {
      RenderOfValue(s);
      assert Value(s) < Pow10(|s|) && s == Render(Value(s), |s|);
    }
  }

  /** The cases of ValidateCvc_ShouldReturnTrue_ForValidCvc and
      ValidateCvc_ShouldReturnFalse_ForInvalidCvc. */
  lemma CvcExamples()
    ensures ValidateCvc("123") && ValidateCvc("4567")
    ensures !ValidateCvc("12") && !ValidateCvc("12345")
    ensures !ValidateCvc("abc") && !ValidateCvc("12a") && !ValidateCvc("")
  {
    assert !IsDigit("abc"[0]) && !IsDigit("12a"[2]);
  }
}
