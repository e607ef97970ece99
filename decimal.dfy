/**
 * Python's `str(n)` for an integer `n` (optional minus sign, then decimal
 * digits without leading zeros), and a parser that inverts it.
 */
module Decimal {
  import opened Wrappers

  predicate IsDigit(c: char) {
    '0' <= c <= '9'
  }

  predicate AllDigits(s: string) {
    forall k :: 0 <= k < |s| ==> IsDigit(s[k])
  }

  function DigitChar(d: nat): (c: char)
    requires d < 10
    ensures IsDigit(c) && (c as int) - ('0' as int) == d
  {
    ['0', '1', '2', '3', '4', '5', '6', '7', '8', '9'][d]
  }

  function DigitValue(c: char): nat
    requires IsDigit(c)
  {
    (c as int) - ('0' as int)
  }

  /** The decimal digits of `n`: at least one, and no leading zero unless `n` is zero. */
  function NatToDecimal(n: nat): (r: string)
    ensures |r| >= 1 && AllDigits(r)
    ensures r[0] == '0' ==> n == 0
    decreases n
  {
    if n < 10 then [DigitChar(n)] else NatToDecimal(n / 10) + [DigitChar(n % 10)]
  }

  /** The decimal text of `n`, as `str(n)` writes it when `n` is within the digit limit. */
  function IntToDecimal(n: int): (r: string)
    ensures n >= 0 ==> r == NatToDecimal(n)
    ensures n < 0 ==> |r| >= 2 && r[0] == '-' && r[1..] == NatToDecimal(-n)
  {
    if n < 0 then "-" + NatToDecimal(-n) else NatToDecimal(n)
  }

  /**
   * Python's default `sys.get_int_max_str_digits()`: `str` raises
   * `ValueError` for an integer with more decimal digits than this.
   */
  const MaxStrDigits: nat := 4300

  /** `str(n)` succeeds: the digits of `n`, not counting its sign, are within the limit. */
  predicate WithinDigitLimit(n: int) {
    |NatToDecimal(if n < 0 then -n else n)| <= MaxStrDigits
  }

  /** The `ValueError` text `str` raises past the limit. */
  const DigitLimitText: string :=
    "Exceeds the limit (4300 digits) for integer string conversion; "
    + "use sys.set_int_max_str_digits() to increase the limit"

  function Pow10(k: nat): (r: nat)
    ensures r >= 1
  {
    if k == 0 then 1 else 10 * Pow10(k - 1)
  }

  /** A natural number is written with at most `k` digits exactly when it is below `10^k`. */
  lemma {:induction false} DecimalLength(n: nat, k: nat)
    requires k >= 1
    ensures |NatToDecimal(n)| <= k <==> n < Pow10(k)
    decreases n
  {
    if n >= 10 {
      assert |NatToDecimal(n)| == |NatToDecimal(n / 10)| + 1;
      if k == 1 {
        assert Pow10(1) == 10;
      } else {
        DecimalLength(n / 10, k - 1);
        assert n / 10 < Pow10(k - 1) <==> n < 10 * Pow10(k - 1);
      }
    } else {
      assert Pow10(k) == 10 * Pow10(k - 1);
    }
  }

  /** The integers `str` can write are exactly those strictly between `-10^4300` and `10^4300`. */
  lemma DigitLimitBound(n: int)
    ensures WithinDigitLimit(n) <==> -(Pow10(MaxStrDigits) as int) < n < Pow10(MaxStrDigits)
  {
    DecimalLength(if n < 0 then -n else n, MaxStrDigits);
  }

  /** The number a string of digits denotes (most significant digit first). */
  function DigitsValue(s: string): nat
    requires AllDigits(s)
  {
    if s == [] then 0 else 10 * DigitsValue(s[..|s| - 1]) + DigitValue(s[|s| - 1])
  }

  /** Reads back an integer in the form `str` writes: an optional `-`, then one or more digits. */
  function ParseInt(s: string): Option<int> {
    if |s| >= 2 && s[0] == '-' && AllDigits(s[1..]) then Some(-(DigitsValue(s[1..]) as int))
    else if |s| >= 1 && AllDigits(s) then Some(DigitsValue(s))
    else None
  }

  /** Digits read back as the number they were written from. */
  lemma {:induction false} NatToDecimalValue(n: nat)
    ensures DigitsValue(NatToDecimal(n)) == n
    decreases n
  {
    if n >= 10 {
      var p := NatToDecimal(n / 10);
      var r := NatToDecimal(n);
      assert r[..|r| - 1] == p;
      NatToDecimalValue(n / 10);
    }
  }

  /** `str` followed by ParseInt is the identity on every integer. */
  lemma {:induction false} IntToDecimalRoundTrip(n: int)
    ensures ParseInt(IntToDecimal(n)) == Some(n)
  {
    var s := IntToDecimal(n);
    if n < 0 {
      NatToDecimalValue(-n);
      assert ParseInt(s) == Some(-(DigitsValue(s[1..]) as int));
    } else {
      NatToDecimalValue(n);
      assert s[0] != '-';
      assert ParseInt(s) == Some(DigitsValue(s));
    }
  }

  /** Different integers are written differently. */
  lemma IntToDecimalInjective(m: int, n: int)
    requires IntToDecimal(m) == IntToDecimal(n)
    ensures m == n
  {
    IntToDecimalRoundTrip(m);
    IntToDecimalRoundTrip(n);
  }

  /** A non-negative integer is written as digits alone, with no sign. */
  lemma NonNegativeIsDigits(n: int)
    requires n >= 0
    ensures AllDigits(IntToDecimal(n)) && IntToDecimal(n)[0] != '-'
  {
  }
}
