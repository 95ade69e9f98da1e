/** Integer arithmetic shared by the assessment pages: JavaScript's `Math.round`
    of a quotient, computed exactly, and the decimal rendering of an integer
    inside a template string. */
module Numbers {

  /** `Math.round(a / b)` for b > 0: the integer nearest to a/b, a half rounded up
      (towards +infinity), as JavaScript rounds. */
  function RoundDiv(a: int, b: int): (r: int)
    requires b > 0
    ensures 2 * b * r <= 2 * a + b < 2 * b * r + 2 * b
  {
    (2 * a + b) / (2 * b)
  }

  lemma MulMonotone(c: int, x: int, y: int)
    requires c >= 0 && x <= y
    ensures c * x <= c * y
  {
    assert c * y - c * x == c * (y - x);
  }

  /** Cancelling a positive factor from a strict inequality. */
  lemma MulCancelLess(c: int, x: int, y: int)
    requires c > 0 && c * x < c * y
    ensures x < y
  {
    if x >= y {
      MulMonotone(c, y, x);
    }
  }

  /** If a lies at or above b*lo, the rounded quotient a/b is at least lo. */
  lemma RoundDivAtLeast(a: int, b: int, lo: int)
    requires b > 0 && b * lo <= a
    ensures lo <= RoundDiv(a, b)
  {
    var r := RoundDiv(a, b);
    assert 2 * b * lo < 2 * b * (r + 1);
    MulCancelLess(2 * b, lo, r + 1);
  }

  /** If a lies at or below b*hi, the rounded quotient a/b is at most hi. */
  lemma RoundDivAtMost(a: int, b: int, hi: int)
    requires b > 0 && a <= b * hi
    ensures RoundDiv(a, b) <= hi
  {
    var r := RoundDiv(a, b);
    assert 2 * b * r < 2 * b * (hi + 1);
    MulCancelLess(2 * b, r, hi + 1);
  }

  /** Rounding leaves a quotient that is already an integer unchanged. */
  lemma RoundDivExact(a: int, b: int, k: int)
    requires b > 0 && a == b * k
    ensures RoundDiv(a, b) == k
  {
    RoundDivAtLeast(a, b, k);
    RoundDivAtMost(a, b, k);
  }

  predicate IsDigit(c: char) {
    '0' <= c <= '9'
  }

  predicate AllDigits(s: string) {
    forall i :: 0 <= i < |s| ==> IsDigit(s[i])
  }

  function DigitChar(d: int): (c: char)
    requires 0 <= d < 10
    ensures IsDigit(c)
  {
    ('0' as int + d) as char
  }

  /** The decimal digits of a natural number, most significant first, as a
      template string renders it. */
  function DecimalString(n: nat): (s: string)
    ensures |s| >= 1 && AllDigits(s)
  {
    if n < 10 then [DigitChar(n)] else DecimalString(n / 10) + [DigitChar(n % 10)]
  }

  /** The value of a string of decimal digits. */
  function ParseDecimal(s: string): nat
    requires AllDigits(s)
  {
    if |s| == 0 then 0 else 10 * ParseDecimal(s[..|s| - 1]) + (s[|s| - 1] as int - '0' as int)
  }

  /** Reading back the digits of n gives n. */
  lemma {:induction false} ParseDecimalString(n: nat)
    ensures ParseDecimal(DecimalString(n)) == n
  {
    var s := DecimalString(n);
    if n >= 10 {
      assert s[..|s| - 1] == DecimalString(n / 10);
      ParseDecimalString(n / 10);
    }
  }

  /** An integer as a template string renders it: a minus sign, then the digits. */
  function IntToString(i: int): string {
    if i < 0 then "-" + DecimalString(-i) else DecimalString(i)
  }

  /** Distinct integers render as distinct strings. */
  lemma IntToStringInjective(i: int, j: int)
    ensures IntToString(i) == IntToString(j) ==> i == j
  {
    var si, sj := IntToString(i), IntToString(j);
    if (i < 0) != (j < 0) {
      assert si[0] != sj[0];
    } else if i < 0 {
      if si == sj {
        assert DecimalString(-i) == si[1..] == sj[1..] == DecimalString(-j);
        ParseDecimalString(-i);
        ParseDecimalString(-j);
      }
    } else {
      ParseDecimalString(i);
      ParseDecimalString(j);
    }
  }
}
