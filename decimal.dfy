/** ASCII decimal digit strings: the `[0-9]+` group of the host pattern, Python's
    `int()` on such a group, and `str()` on a natural number. */
module Decimal {

  predicate IsDigit(c: char) {
    '0' <= c <= '9'
  }

  /** Every character is an ASCII digit (the string may be empty). */
  predicate AllDigits(d: string) {
    forall i | 0 <= i < |d| :: IsDigit(d[i])
  }

  /** What `[0-9]+` matches: one or more ASCII digits. */
  predicate IsDigits(d: string) {
    |d| > 0 && AllDigits(d)
  }

  function DigitValue(c: char): (v: nat)
    requires IsDigit(c)
    ensures v < 10
  {
    c as int - '0' as int
  }

  function DigitChar(v: nat): (c: char)
    requires v < 10
    ensures IsDigit(c) && DigitValue(c) == v
  {
    ('0' as int + v) as char
  }

  function Pow10(k: nat): (p: nat)
    ensures p >= 1
  {
    if k == 0 then 1 else 10 * Pow10(k - 1)
  }

  /** Python's `int(d)` on a string of ASCII digits: base ten, leading zeros
      allowed and ignored, no upper bound. The empty string is given 0. */
  function DecimalValue(d: string): (n: nat)
    requires AllDigits(d)
    ensures n < Pow10(|d|)
  {
    if d == [] then 0
    else 10 * DecimalValue(d[..|d| - 1]) + DigitValue(d[|d| - 1])
  }

  /** Python's `str(n)` for a natural number: its decimal digits, without leading zeros. */
  function DecimalString(n: nat): (d: string)
    ensures IsDigits(d)
    ensures DecimalValue(d) == n
    ensures d[0] == '0' ==> n == 0 && d == "0"
  {
    if n < 10 then [DigitChar(n)]
    else
      var prefix := DecimalString(n / 10);
      var d := prefix + [DigitChar(n % 10)];
      assert d[..|d| - 1] == prefix;
      d
  }

  /** A leading zero does not change the value `int()` gives. */
  lemma {:induction false} LeadingZeroIgnored(d: string)
    requires AllDigits(d)
    ensures AllDigits("0" + d)
    ensures DecimalValue("0" + d) == DecimalValue(d)
  {
    var z := "0" + d;
    assert forall i | 0 <= i < |z| :: IsDigit(z[i]) by {
      forall i | 0 <= i < |z| ensures IsDigit(z[i]) {
        if i > 0 { assert z[i] == d[i - 1]; }
      }
    }
    if d != [] {
      var init := d[..|d| - 1];
      assert AllDigits(init) by {
        forall i | 0 <= i < |init| ensures IsDigit(init[i]) { assert init[i] == d[i]; }
      }
      LeadingZeroIgnored(init);
      assert z[..|z| - 1] == "0" + init;
      assert z[|z| - 1] == d[|d| - 1];
    }
  }

  /** A digit string without a leading zero is exactly what `str()` writes for its value. */
  lemma {:induction false} CanonicalDigits(d: string)
    requires IsDigits(d)
    requires d[0] != '0' || |d| == 1
    ensures DecimalString(DecimalValue(d)) == d
  {
    if |d| == 1 {
      assert DecimalValue(d) == DigitValue(d[0]) by {
        assert d[..0] == [];
      }
    } else {
      var init := d[..|d| - 1];
      assert IsDigits(init) && init[0] == d[0];
      assert AllDigits(init) by {
        forall i | 0 <= i < |init| ensures IsDigit(init[i]) { assert init[i] == d[i]; }
      }
      CanonicalDigits(init);
      LeadingDigitBound(init);
      var n := DecimalValue(d);
      assert n / 10 == DecimalValue(init) && n % 10 == DigitValue(d[|d| - 1]);
      assert n >= 10;
      assert DigitChar(n % 10) == d[|d| - 1];
      assert d == init + [d[|d| - 1]];
    }
  }

  /** A digit string whose first digit is not 0 has a positive value. */
  lemma {:induction false} LeadingDigitBound(d: string)
    requires IsDigits(d)
    requires d[0] != '0'
    ensures DecimalValue(d) > 0
  {
    if |d| > 1 {
      var init := d[..|d| - 1];
      assert AllDigits(init) by {
        forall i | 0 <= i < |init| ensures IsDigit(init[i]) { assert init[i] == d[i]; }
      }
      assert init[0] == d[0];
      LeadingDigitBound(init);
    }
  }
}
