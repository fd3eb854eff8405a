/**
  Lexicographic order on strings by code unit, the order `localeCompare`
  agrees with on the month keys compared here (digits and one hyphen at the
  same position in both operands).
*/
module LexOrder {

  import opened Decimal

  /** `a` sorts strictly before `b`; a proper prefix sorts first. */
  predicate LexLess(a: string, b: string)
    decreases |a|
  {
    if |a| == 0 then |b| > 0
    else |b| > 0 && (if a[0] != b[0] then a[0] < b[0] else LexLess(a[1..], b[1..]))
  }

  /** Any two strings are equal or ordered one way, and never both ways. */
  lemma {:induction false} LexLessTrichotomy(a: string, b: string)
    ensures LexLess(a, b) || a == b || LexLess(b, a)
    ensures !(LexLess(a, b) && LexLess(b, a))
    decreases |a|
  {
    if |a| > 0 && |b| > 0 && a[0] == b[0] {
      LexLessTrichotomy(a[1..], b[1..]);
      if a[1..] == b[1..] {
        assert a == [a[0]] + a[1..] && b == [b[0]] + b[1..];
      }
    }
  }

  lemma {:induction false} LexLessTransitive(a: string, b: string, c: string)
    requires LexLess(a, b) && LexLess(b, c)
    ensures LexLess(a, c)
    decreases |a|
  {
    if |a| > 0 && a[0] == b[0] && b[0] == c[0] {
      LexLessTransitive(a[1..], b[1..], c[1..]);
    }
  }

  /**
    Comparing two concatenations whose first parts have equal length: the
    first parts decide, and only when they are equal do the second parts.
  */
  lemma {:induction false} LexLessConcat(a: string, b: string, c: string, d: string)
    requires |a| == |c|
    ensures LexLess(a + b, c + d) <==> LexLess(a, c) || (a == c && LexLess(b, d))
    decreases |a|
  {
    if |a| == 0 {
      assert a + b == b && c + d == d;
    } else {
      assert (a + b)[0] == a[0] && (c + d)[0] == c[0];
      assert (a + b)[1..] == a[1..] + b && (c + d)[1..] == c[1..] + d;
      LexLessConcat(a[1..], b, c[1..], d);
      if a[0] == c[0] && a[1..] == c[1..] {
        assert a == [a[0]] + a[1..] && c == [c[0]] + c[1..];
      }
    }
  }

  /** On digit strings of one length, lexicographic order is numeric order. */
  lemma {:induction false} LexLessDigits(s: string, t: string)
    requires |s| == |t| && AllDigits(s) && AllDigits(t)
    ensures LexLess(s, t) <==> ToNat(s) < ToNat(t)
    decreases |s|
  {
    if |s| > 0 {
      ToNatFront(s);
      ToNatFront(t);
      var p := Pow10(|s| - 1);
      var ds, dt := DigitValue(s[0]), DigitValue(t[0]);
      assert ToNat(s[1..]) < p && ToNat(t[1..]) < p;
      if ds < dt {
        MulStep(ds, dt, p);
      } else if dt < ds {
        MulStep(dt, ds, p);
      } else {
        LexLessDigits(s[1..], t[1..]);
      }
    }
  }

  /** A smaller leading digit outweighs any tail shorter than the place value. */
  lemma MulStep(x: nat, y: nat, p: nat)
    requires x < y
    ensures x * p + p <= y * p
  {
    assert (x + 1) * p <= y * p;
  }
}
