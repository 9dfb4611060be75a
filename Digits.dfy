/** Decimal digit strings: the character class `0`-`9`, the value of a digit
    string and its zero-padded rendering at a fixed width.  Every rule of the
    card validation service that reads numbers (month, year, security code,
    card-number prefixes) is built on these. */
module Digits {

  predicate IsDigit(c: char) {
    '0' <= c <= '9'
  }

  predicate AllDigits(s: string) {
    forall i :: 0 <= i < |s| ==> IsDigit(s[i])
  }

  function DigitValue(c: char): (d: nat)
    requires IsDigit(c)
    ensures d < 10
  {
    c as int - '0' as int
  }

  function DigitChar(d: nat): (c: char)
    requires d < 10
    ensures IsDigit(c) && DigitValue(c) == d
  {
    ('0' as int + d) as char
  }

  function Pow10(n: nat): (p: nat)
    ensures p >= 1
  {
    if n == 0 then 1 else 10 * Pow10(n - 1)
  }

  /** The number a digit string denotes, most significant digit first. */
  function Value(s: string): (v: nat)
    requires AllDigits(s)
    ensures v < Pow10(|s|)
  {
    if s == [] then 0 else Value(s[..|s| - 1]) * 10 + DigitValue(s[|s| - 1])
  }

  /** The last `width` decimal digits of `n`, zero-padded on the left
      (the `MM`, `yy` and `yyyy` fields of a date pattern). */
  function Render(n: nat, width: nat): (s: string)
    ensures |s| == width && AllDigits(s)
  {
    if width == 0 then [] else Render(n / 10, width - 1) + [DigitChar(n % 10)]
  }

  /** Rendering a number that fits the width and reading it back gives the number. */
  lemma {:induction false} ValueOfRender(n: nat, width: nat)
    requires n < Pow10(width)
    ensures Value(Render(n, width)) == n
  {
    if width > 0 {
      ValueOfRender(n / 10, width - 1);
      var s := Render(n, width);
      assert s[..|s| - 1] == Render(n / 10, width - 1);
    }
  }

  /** A digit string is the rendering of its own value at its own width. */
  lemma {:induction false} RenderOfValue(s: string)
    requires AllDigits(s)
    ensures Render(Value(s), |s|) == s
  {
    if s != [] {
      var p := s[..|s| - 1];
      RenderOfValue(p);
      assert Value(s) / 10 == Value(p) && Value(s) % 10 == DigitValue(s[|s| - 1]);
      assert s == p + [s[|s| - 1]];
    }
  }

  /** Value of a two-digit string, digit by digit. */
  lemma ValueOfTwo(s: string)
    requires |s| == 2 && AllDigits(s)
    ensures Value(s) == 10 * DigitValue(s[0]) + DigitValue(s[1])
  {
    assert s[..1][..0] == [];
  }

  /** Value of a four-digit string, digit by digit. */
  lemma ValueOfFour(s: string)
    requires |s| == 4 && AllDigits(s)
    ensures Value(s) == 1000 * DigitValue(s[0]) + 100 * DigitValue(s[1]) + 10 * DigitValue(s[2]) + DigitValue(s[3])
  {
    ValueOfTwo(s[..2]);
    assert s[..3][..2] == s[..2];
  }
}
