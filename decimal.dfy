/**
 * Decimal rendering of integers, as Java's string concatenation
 * (Integer.toString) and String.format("%06d", n) produce it, together with
 * the parser that reads such a rendering back.
 */
module Decimal {

  predicate IsDigit(c: char)
  {
    '0' <= c <= '9'
  }

  predicate AllDigits(s: string)
  {
    forall i :: 0 <= i < |s| ==> IsDigit(s[i])
  }

  function DigitChar(d: int): (c: char)
    requires 0 <= d < 10
    ensures IsDigit(c) && c as int - '0' as int == d
  {
    ('0' as int + d) as char
  }

  function Pow10(k: nat): (p: nat)
    ensures p >= 1
  {
    if k == 0 then 1 else 10 * Pow10(k - 1)
  }

  /** The numeric value of a string of decimal digits (most significant first). */
  function Value(s: string): nat
    requires AllDigits(s)
  {
    if s == [] then 0 else 10 * Value(s[..|s| - 1]) + (s[|s| - 1] as int - '0' as int)
  }

  /** The shortest decimal rendering of n: no sign, no leading zero except for 0 itself. */
  function NatToString(n: nat): (s: string)
    ensures |s| >= 1 && AllDigits(s)
    ensures s[0] == '0' <==> n == 0
  {
    if n < 10 then [DigitChar(n)] else NatToString(n / 10) + [DigitChar(n % 10)]
  }

  /** Integer.toString: a leading '-' for negative numbers, then the digits of the magnitude. */
  function IntToString(n: int): (s: string)
    ensures |s| >= 1 && (s[0] == '-' <==> n < 0)
    ensures n < 0 ==> |s| >= 2 && AllDigits(s[1..]) && s[1] != '0'
    ensures n >= 0 ==> AllDigits(s) && (s[0] == '0' ==> s == "0")
  {
    if n < 0 then "-" + NatToString(-n) else NatToString(n)
  }

  /** Reads back a rendering produced by IntToString. */
  function ParseInt(s: string): int
    requires s != [] && AllDigits(if s[0] == '-' then s[1..] else s)
  {
    if s[0] == '-' then -(Value(s[1..]) as int) else Value(s)
  }

  /**
   * String.format("%0" + width + "d", n) for n >= 0: left-padded with '0' up
   * to width, never truncated, and still reading as n.
   */
  function PadZeros(n: nat, width: nat): (s: string)
    ensures |s| >= width && AllDigits(s) && Value(s) == n
    ensures |s| > width ==> s == NatToString(n)
  {
    var digits := NatToString(n);
    ValueOfNatToString(n);
    if |digits| >= width then digits
    else
      ValueIgnoresLeadingZeros(seq(width - |digits|, _ => '0'), digits);
      seq(width - |digits|, _ => '0') + digits
  }

  lemma {:induction false} ValueOfNatToString(n: nat)
    ensures Value(NatToString(n)) == n
  {
    if n >= 10 {
      var s := NatToString(n);
      assert s[..|s| - 1] == NatToString(n / 10);
      ValueOfNatToString(n / 10);
    }
  }

  lemma IntToStringRoundTrip(n: int)
    ensures var s := IntToString(n);
      s != [] && AllDigits(if s[0] == '-' then s[1..] else s) && ParseInt(s) == n
  {
    var s := IntToString(n);
    if n < 0 {
      assert s[1..] == NatToString(-n);
      ValueOfNatToString(-n);
    } else {
      ValueOfNatToString(n);
    }
  }

  lemma {:induction false} NatToStringLength(n: nat, k: nat)
    requires 1 <= k && n < Pow10(k)
    ensures |NatToString(n)| <= k
  {
    if n >= 10 {
      NatToStringLength(n / 10, k - 1);
    }
  }

  lemma {:induction false} ValueOfZeros(z: string)
    requires forall i :: 0 <= i < |z| ==> z[i] == '0'
    ensures AllDigits(z) && Value(z) == 0
  {
    if z != [] {
      ValueOfZeros(z[..|z| - 1]);
    }
  }

  lemma {:induction false} ValueIgnoresLeadingZeros(z: string, s: string)
    requires forall i :: 0 <= i < |z| ==> z[i] == '0'
    requires AllDigits(s)
    ensures AllDigits(z + s) && Value(z + s) == Value(s)
  {
    if s == [] {
      assert z + s == z;
      ValueOfZeros(z);
    } else {
      assert (z + s)[..|z + s| - 1] == z + s[..|s| - 1];
      ValueIgnoresLeadingZeros(z, s[..|s| - 1]);
    }
  }

  /** For 0 <= n < 10^width the padded rendering has exactly width digits and reads back as n. */
  lemma PadZerosExact(n: nat, width: nat)
    requires 1 <= width && n < Pow10(width)
    ensures var s := PadZeros(n, width); |s| == width && AllDigits(s) && Value(s) == n
  {
    var digits := NatToString(n);
    NatToStringLength(n, width);
    ValueOfNatToString(n);
    ValueIgnoresLeadingZeros(seq(width - |digits|, _ => '0'), digits);
  }
}
