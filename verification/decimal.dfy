/**
 * Decimal text of non-negative integers, as JavaScript writes a number
 * inside a template literal (`${h}`): digits only, no sign, no leading zero.
 */
module Decimal {

  predicate IsDigit(c: char) {
    '0' <= c <= '9'
  }

  predicate AllDigits(s: string) {
    forall i :: 0 <= i < |s| ==> IsDigit(s[i])
  }

  /** A non-empty digit string with no superfluous leading zero ("0" itself is allowed). */
  predicate IsCanonical(s: string) {
    s != [] && AllDigits(s) && (s[0] == '0' ==> |s| == 1)
  }

  function DigitChar(d: nat): (c: char)
    requires d < 10
    ensures IsDigit(c)
  {
    ('0' as int + d) as char
  }

  function DigitValue(c: char): (d: nat)
    requires IsDigit(c)
    ensures d < 10 && DigitChar(d) == c
  {
    c as int - '0' as int
  }

  /** The text of `n` in base ten. */
  function FromNat(n: nat): (s: string)
    ensures IsCanonical(s)
    ensures s[0] == '0' <==> n == 0
  {
    if n < 10 then [DigitChar(n)] else FromNat(n / 10) + [DigitChar(n % 10)]
  }

  /** The value of a digit string read in base ten (the empty string reads as 0). */
  function ToNat(s: string): nat
    requires AllDigits(s)
  {
    if s == [] then 0 else 10 * ToNat(s[..|s| - 1]) + DigitValue(s[|s| - 1])
  }

  /** Reading back the text of `n` gives `n`: the decimal text is injective. */
  lemma {:induction false} ToNatFromNat(n: nat)
    ensures ToNat(FromNat(n)) == n
  {
    var s := FromNat(n);
    if n < 10 {
      assert s[..|s| - 1] == [];
    } else {
      ToNatFromNat(n / 10);
      assert s[..|s| - 1] == FromNat(n / 10);
    }
  }

  /** A canonical digit string that does not start with '0' denotes a positive number. */
  lemma {:induction false} ToNatPositive(s: string)
    requires s != [] && AllDigits(s) && s[0] != '0'
    ensures ToNat(s) > 0
  {
    if |s| > 1 {
      ToNatPositive(s[..|s| - 1]);
    }
  }

  /** Every canonical digit string is the text of the number it denotes. */
  lemma {:induction false} FromNatToNat(s: string)
    requires IsCanonical(s)
    ensures FromNat(ToNat(s)) == s
  {
    if |s| > 1 {
      var init := s[..|s| - 1];
      var last := s[|s| - 1];
      assert IsCanonical(init);
      ToNatPositive(init);
      FromNatToNat(init);
      var n := ToNat(s);
      assert n == 10 * ToNat(init) + DigitValue(last);
      assert n / 10 == ToNat(init) && n % 10 == DigitValue(last);
      assert s == init + [last];
    } else {
      assert s == [s[0]];
    }
  }
}
