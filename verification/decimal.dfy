/**
  Decimal digit strings: the rendering of a natural number that JavaScript
  template interpolation and PHP string interpolation produce (no sign, no
  leading zeros), and the value of a digit string read back.
*/
module Decimal {

  predicate IsDigit(c: char) {
    '0' <= c <= '9'
  }

  predicate AllDigits(s: string) {
    forall i :: 0 <= i < |s| ==> IsDigit(s[i])
  }

  function DigitValue(c: char): nat
    requires IsDigit(c)
  {
    c as int - '0' as int
  }

  function DigitChar(d: nat): (c: char)
    requires d < 10
    ensures IsDigit(c) && DigitValue(c) == d
  {
    ('0' as int + d) as char
  }

  /** Helper: `10` to the power `n`, the bound on an `n`-digit value. */
  function Pow10(n: nat): (p: nat)
    ensures p >= 1
  {
    if n == 0 then 1 else 10 * Pow10(n - 1)
  }

  /** The decimal rendering of `n`. */
  function FromNat(n: nat): (s: string)
    ensures |s| > 0 && AllDigits(s)
    ensures |s| > 1 ==> s[0] != '0'
    decreases n
  {
    if n < 10 then [DigitChar(n)] else FromNat(n / 10) + [DigitChar(n % 10)]
  }

  /** Signed rendering, as PHP interpolates an integer into a message. */
  function FromInt(i: int): (s: string)
    ensures |s| > 0
    ensures i < 0 <==> s[0] == '-'
  {
    if i < 0 then "-" + FromNat(-i) else FromNat(i)
  }

  /** The value of a digit string, read most significant digit first. */
  function ToNat(s: string): (n: nat)
    requires AllDigits(s)
    ensures n < Pow10(|s|)
  {
    if s == [] then 0 else 10 * ToNat(s[..|s| - 1]) + DigitValue(s[|s| - 1])
  }

  /** Reading back a rendering gives the number rendered. */
  lemma {:induction false} ToNatFromNat(n: nat)
    ensures ToNat(FromNat(n)) == n
    decreases n
  {
    if n >= 10 {
      ToNatFromNat(n / 10);
      var s := FromNat(n);
      assert s[..|s| - 1] == FromNat(n / 10);
    }
  }

  /** Distinct numbers have distinct renderings. */
  lemma FromNatInjective(a: nat, b: nat)
    ensures FromNat(a) == FromNat(b) <==> a == b
  {
    ToNatFromNat(a);
    ToNatFromNat(b);
  }

  /** A number between 10^(k-1) and 10^k renders to exactly `k` digits. */
  lemma {:induction false} FromNatLength(n: nat, k: nat)
    requires k >= 1 && Pow10(k - 1) <= n < Pow10(k)
    ensures |FromNat(n)| == k
    decreases k
  {
    if k > 1 {
      assert n >= 10;
      assert Pow10(k - 2) <= n / 10 < Pow10(k - 1);
      FromNatLength(n / 10, k - 1);
    }
  }

  /** A 4-digit number renders to exactly four characters. */
  lemma FourDigits(n: nat)
    requires 1000 <= n <= 9999
    ensures |FromNat(n)| == 4
  {
    assert Pow10(3) == 1000 && Pow10(4) == 10000 by {
      assert Pow10(1) == 10 && Pow10(2) == 100;
    }
    FromNatLength(n, 4);
  }

  /** The value of a digit string, read from its leading digit. */
  lemma {:induction false} ToNatFront(s: string)
    requires |s| > 0 && AllDigits(s)
    ensures ToNat(s) == DigitValue(s[0]) * Pow10(|s| - 1) + ToNat(s[1..])
    decreases |s|
  {
    if |s| > 1 {
      var p := s[..|s| - 1];
      ToNatFront(p);
      assert p[0] == s[0];
      assert s[1..][..|s[1..]| - 1] == p[1..];
      var d := DigitValue(s[0]);
      var q := Pow10(|p| - 1);
      var t := ToNat(p[1..]);
      assert Pow10(|s| - 1) == 10 * q;
      assert ToNat(s[1..]) == 10 * t + DigitValue(s[|s| - 1]);
      assert ToNat(s) == 10 * (d * q + t) + DigitValue(s[|s| - 1]);
      MulTen(d, q);
    }
  }

  /** Helper: the arithmetic step `ToNatFront` needs. */
  lemma MulTen(d: nat, q: nat)
    ensures 10 * (d * q) == d * (10 * q)
  {
  }
}
