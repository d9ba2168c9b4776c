/**
 * Decimal text of integers: Python's `'%d' % n` formatting and the part of
 * Python's `int(s)` parsing that the key layout of the user store relies on.
 */
module Decimal {
  import opened Wrappers

  predicate IsDigit(c: char) {
    '0' <= c <= '9'
  }

  predicate AllDigits(s: string) {
    forall i :: 0 <= i < |s| ==> IsDigit(s[i])
  }

  function DigitChar(d: nat): (c: char)
    requires d < 10
    ensures IsDigit(c)
  {
    ('0' as int + d) as char
  }

  function DigitValue(c: char): (d: nat)
    requires IsDigit(c)
    ensures d < 10
  {
    c as int - '0' as int
  }

  /** The digits of `n` with no leading zero (only `0` itself starts with '0'). */
  function NatToDecimal(n: nat): (r: string)
    ensures |r| >= 1 && AllDigits(r)
    ensures r[0] == '0' ==> n == 0
    decreases n
  {
    if n < 10 then [DigitChar(n)] else NatToDecimal(n / 10) + [DigitChar(n % 10)]
  }

  /** The value of a string of decimal digits (leading zeros allowed, as `int()` allows them). */
  function DecimalToNat(s: string): nat
    requires AllDigits(s)
    decreases |s|
  {
    if s == [] then 0 else DecimalToNat(s[..|s| - 1]) * 10 + DigitValue(s[|s| - 1])
  }

  lemma {:induction false} NatRoundTrip(n: nat)
    ensures DecimalToNat(NatToDecimal(n)) == n
    decreases n
  {
    if n >= 10 {
      NatRoundTrip(n / 10);
      var s := NatToDecimal(n);
      assert s[..|s| - 1] == NatToDecimal(n / 10);
    }
  }

  /** Python's `'%d' % i`: a '-' in front of the digits of a negative number. */
  function IntToDecimal(i: int): (r: string)
    ensures |r| >= 1
    ensures r[0] == '-' <==> i < 0
    ensures i < 0 ==> |r| >= 2 && AllDigits(r[1..])
    ensures i >= 0 ==> AllDigits(r)
  {
    if i < 0 then "-" + NatToDecimal(-i) else NatToDecimal(i)
  }

  /**
   * Python's `int(s)` on an optional '-' followed by at least one digit;
   * None stands for the ValueError `int` raises on anything else.
   */
  function ParseInt(s: string): (r: Option<int>)
    ensures r.Some? ==> |s| >= 1 && (s[0] == '-' || AllDigits(s))
    ensures r.Some? && r.value < 0 ==> s[0] == '-'
    ensures r.Some? && s[0] != '-' ==> r.value >= 0
  {
    if |s| >= 1 && s[0] == '-' then
      if |s| >= 2 && AllDigits(s[1..]) then Some(0 - DecimalToNat(s[1..]) as int) else None
    else if |s| >= 1 && AllDigits(s) then Some(DecimalToNat(s))
    else None
  }

  /** Parsing the formatted text of any integer gives that integer back. */
  lemma IntRoundTrip(i: int)
    ensures ParseInt(IntToDecimal(i)) == Some(i)
  {
    var s := IntToDecimal(i);
    if i < 0 {
      NatRoundTrip(-i);
      assert s[1..] == NatToDecimal(-i);
    } else {
      NatRoundTrip(i);
    }
  }
}
