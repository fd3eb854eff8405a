/**
  Calendar dates as the expense list holds them, and the `"YYYY-MM"` month
  key that groups them: the full year, a hyphen, and the 1-based month
  left-padded with `'0'` to two characters.
*/
module MonthKeys {

  import opened Options
  import opened Decimal
  import opened LexOrder

  /** An already-parsed calendar date; `month` is 1-based. */
  datatype Date = Date(year: nat, month: nat, day: nat)

  predicate ValidMonth(d: Date) {
    1 <= d.month <= 12
  }

  predicate FourDigitYear(d: Date) {
    1000 <= d.year <= 9999
  }

  /** `d` falls in an earlier calendar month than `e`. */
  predicate MonthBefore(d: Date, e: Date) {
    d.year < e.year || (d.year == e.year && d.month < e.month)
  }

  /** `d` is an earlier calendar day than `e`. */
  predicate DateBefore(d: Date, e: Date) {
    MonthBefore(d, e) || (d.year == e.year && d.month == e.month && d.day < e.day)
  }

  /** `String.prototype.padStart(width, fill)` with a one-character fill. */
  function PadStart(s: string, width: nat, fill: char): (r: string)
    ensures |r| == if |s| >= width then |s| else width
    ensures r[|r| - |s|..] == s
    ensures forall i :: 0 <= i < |r| - |s| ==> r[i] == fill
    decreases width - |s|
  {
    if |s| >= width then s else PadStart([fill] + s, width, fill)
  }

  /**
    The month key: the year's decimal digits, a hyphen, then the month field
    at least two characters wide (`MonthFieldDigits` reads it back).
  */
  function MonthKey(d: Date): (k: string)
    ensures var y := FromNat(d.year);
      && |k| >= |y| + 3 && k[..|y|] == y && k[|y|] == '-'
  {
    FromNat(d.year) + "-" + PadStart(FromNat(d.month), 2, '0')
  }

  /** The two-character month field of a key, read back. */
  lemma MonthFieldDigits(m: nat)
    requires 1 <= m <= 12
    ensures var f := PadStart(FromNat(m), 2, '0'); |f| == 2 && AllDigits(f) && ToNat(f) == m
  {
    if m < 10 {
      var c := DigitChar(m);
      assert FromNat(m) == [c];
      PadOneDigit(c);
      ToNatLeadingZero(c);
    } else {
      TwoDigitRendering(m);
      ToNatFromNat(m);
    }
  }

  lemma PadOneDigit(c: char)
    ensures PadStart([c], 2, '0') == ['0', c]
  {
    assert PadStart([c], 2, '0') == PadStart(['0', c], 2, '0');
  }

  lemma ToNatLeadingZero(c: char)
    requires IsDigit(c)
    ensures ToNat(['0', c]) == DigitValue(c)
  {
    assert ['0', c][..1] == ['0'];
    assert ['0'][..0] == [];
  }

  lemma TwoDigitRendering(m: nat)
    requires 10 <= m <= 12
    ensures |FromNat(m)| == 2 && PadStart(FromNat(m), 2, '0') == FromNat(m)
  {
    assert FromNat(m) == FromNat(m / 10) + [DigitChar(m % 10)];
    assert FromNat(m / 10) == [DigitChar(1)];
  }

  /** The key of a date with a 4-digit year and a valid month: 7 characters, the
      year digits, a hyphen, and the month as exactly two digits. */
  lemma MonthKeyShape(d: Date)
    requires ValidMonth(d) && FourDigitYear(d)
    ensures var k := MonthKey(d);
      && |k| == 7 && k[4] == '-'
      && AllDigits(k[..4]) && ToNat(k[..4]) == d.year
      && AllDigits(k[5..]) && ToNat(k[5..]) == d.month
  {
    FourDigits(d.year);
    ToNatFromNat(d.year);
    MonthFieldDigits(d.month);
    KeyParts(FromNat(d.year), PadStart(FromNat(d.month), 2, '0'));
  }

  lemma KeyParts(y: string, f: string)
    requires |f| == 2
    ensures var k := y + "-" + f;
      && |k| == |y| + 3 && k[..|k| - 3] == y && k[|k| - 3] == '-' && k[|k| - 2..] == f
      && k[|y| + 1..] == f
  {
  }

  /** Reads a key back into (year, month); `None` for a string of another shape. */
  function ParseMonthKey(k: string): Option<(nat, nat)> {
    if |k| >= 4 && k[|k| - 3] == '-' && AllDigits(k[..|k| - 3]) && AllDigits(k[|k| - 2..]) then
      Some((ToNat(k[..|k| - 3]), ToNat(k[|k| - 2..])))
    else
      None
  }

  /** The key keeps exactly the year and the month of a date. */
  lemma ParseMonthKeyRoundTrip(d: Date)
    requires ValidMonth(d)
    ensures ParseMonthKey(MonthKey(d)) == Some((d.year, d.month))
  {
    var y, f := FromNat(d.year), PadStart(FromNat(d.month), 2, '0');
    MonthFieldDigits(d.month);
    ToNatFromNat(d.year);
    KeyParts(y, f);
    var k := MonthKey(d);
    assert k == y + "-" + f;
    assert k[..|k| - 3] == y && k[|k| - 2..] == f;
  }

  /** Two dates share a key exactly when they share year and month. */
  lemma MonthKeyInjective(d: Date, e: Date)
    requires ValidMonth(d) && ValidMonth(e)
    ensures MonthKey(d) == MonthKey(e) <==> d.year == e.year && d.month == e.month
  {
    ParseMonthKeyRoundTrip(d);
    ParseMonthKeyRoundTrip(e);
  }

  /** Zero padding makes string order on keys agree with calendar order. */
  lemma KeyOrderIsChronological(d: Date, e: Date)
    requires ValidMonth(d) && ValidMonth(e) && FourDigitYear(d) && FourDigitYear(e)
    ensures LexLess(MonthKey(d), MonthKey(e)) <==> MonthBefore(d, e)
  {
    FourDigits(d.year);
    FourDigits(e.year);
    ToNatFromNat(d.year);
    ToNatFromNat(e.year);
    FromNatInjective(d.year, e.year);
    MonthFieldDigits(d.month);
    MonthFieldDigits(e.month);
    KeyCompare(FromNat(d.year), PadStart(FromNat(d.month), 2, '0'),
               FromNat(e.year), PadStart(FromNat(e.month), 2, '0'));
  }

  /** Keys built from equal-width digit fields compare field by field, numerically. */
  lemma KeyCompare(yd: string, fd: string, ye: string, fe: string)
    requires |yd| == |ye| && |fd| == |fe|
    requires AllDigits(yd) && AllDigits(ye) && AllDigits(fd) && AllDigits(fe)
    ensures LexLess(yd + "-" + fd, ye + "-" + fe)
        <==> ToNat(yd) < ToNat(ye) || (yd == ye && ToNat(fd) < ToNat(fe))
  {
    assert yd + "-" + fd == yd + ("-" + fd) && ye + "-" + fe == ye + ("-" + fe);
    LexLessConcat(yd, "-" + fd, ye, "-" + fe);
    LexLessDigits(yd, ye);
    assert ("-" + fd)[1..] == fd && ("-" + fe)[1..] == fe;
    LexLessDigits(fd, fe);
  }
}
