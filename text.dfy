/** Decimal rendering of integers as Python's `str`, `format(i, "0W")` and
    `format(i, "+d")` produce it, the matching decimal parser, and ASCII
    lower-casing. */
module Text {

  import opened Optional

  predicate IsDigit(c: char) {
    '0' <= c <= '9'
  }

  predicate AllDigits(s: string) {
    forall i :: 0 <= i < |s| ==> IsDigit(s[i])
  }

  function DigitChar(d: nat): (c: char)
    requires d < 10
    ensures IsDigit(c) && DigitValue(c) == d
  {
    ('0' as int + d) as char
  }

  function DigitValue(c: char): nat
    requires IsDigit(c)
  {
    c as int - '0' as int
  }

  function Pow10(k: nat): nat {
    if k == 0 then 1 else 10 * Pow10(k - 1)
  }

  /** The decimal digits of `n` without leading zeros, as Python's `str(n)`. */
  function NatToDecimal(n: nat): (s: string)
    ensures |s| >= 1 && AllDigits(s)
    ensures |s| > 1 ==> s[0] != '0'
  {
    if n < 10 then [DigitChar(n)] else NatToDecimal(n / 10) + [DigitChar(n % 10)]
  }

  /** Python's `str(i)` for an int: a minus sign for negative values, then the digits. */
  function IntToDecimal(i: int): (s: string)
    ensures i < 0 <==> (|s| > 0 && s[0] == '-')
  {
    if i < 0 then "-" + NatToDecimal(-i) else NatToDecimal(i)
  }

  /** Python's `format(i, "+d")`: the sign is always written. */
  function SignedDecimal(i: int): (s: string)
    ensures |s| >= 2 && (s[0] == '-' <==> i < 0) && (s[0] == '+' <==> i >= 0)
  {
    (if i < 0 then "-" else "+") + NatToDecimal(if i < 0 then -i else i)
  }

  function Zeros(k: nat): (s: string)
    ensures |s| == k && forall i :: 0 <= i < k ==> s[i] == '0'
  {
    seq(k, _ => '0')
  }

  /** Python's `format(i, "0W")` for an int: the sign (if any), then the
      digits, zero-filled between them up to a total width of `width`. */
  function FormatZeroPadded(i: int, width: nat): (s: string)
    ensures |s| == if |IntToDecimal(i)| < width then width else |IntToDecimal(i)|
  {
    var sign := if i < 0 then "-" else "";
    var digits := NatToDecimal(if i < 0 then -i else i);
    var fill := if |sign| + |digits| < width then width - |sign| - |digits| else 0;
    sign + Zeros(fill) + digits
  }

  /** The value of a string of digits, read most significant first. */
  function DecimalValue(s: string): nat
    requires AllDigits(s)
  {
    if s == [] then 0 else DecimalValue(s[..|s| - 1]) * 10 + DigitValue(s[|s| - 1])
  }

  /** A non-empty run of decimal digits, leading zeros allowed. */
  function ParseDecimal(s: string): (r: Option<nat>)
    ensures r.Some? <==> |s| >= 1 && AllDigits(s)
  {
    if |s| >= 1 && AllDigits(s) then Some(DecimalValue(s)) else None
  }

  lemma {:induction false} DecimalValueOfNat(n: nat)
    ensures DecimalValue(NatToDecimal(n)) == n
  {
    if n >= 10 {
      var s := NatToDecimal(n);
      assert s[..|s| - 1] == NatToDecimal(n / 10);
      DecimalValueOfNat(n / 10);
    }
  }

  /** Reading back what `str` wrote gives the number. */
  lemma ParseNatToDecimal(n: nat)
    ensures ParseDecimal(NatToDecimal(n)) == Some(n)
  {
    DecimalValueOfNat(n);
  }

  lemma {:induction false} DecimalValueOfZeros(k: nat)
    ensures AllDigits(Zeros(k)) && DecimalValue(Zeros(k)) == 0
  {
    if k > 0 {
      assert Zeros(k)[..k - 1] == Zeros(k - 1);
      DecimalValueOfZeros(k - 1);
    }
  }

  /** Leading zeros do not change the value read. */
  lemma {:induction false} DecimalValueLeadingZeros(k: nat, s: string)
    requires AllDigits(s)
    ensures AllDigits(Zeros(k) + s) && DecimalValue(Zeros(k) + s) == DecimalValue(s)
    decreases |s|
  {
    var t := Zeros(k) + s;
    assert AllDigits(t) by {
      forall i | 0 <= i < |t| ensures IsDigit(t[i]) {
        if i >= k { assert t[i] == s[i - k]; }
      }
    }
    if s == [] {
      assert t == Zeros(k);
      DecimalValueOfZeros(k);
    } else {
      assert t[..|t| - 1] == Zeros(k) + s[..|s| - 1];
      assert t[|t| - 1] == s[|s| - 1];
      DecimalValueLeadingZeros(k, s[..|s| - 1]);
    }
  }

  /** A number below 10^k has at most k digits. */
  lemma {:induction false} NatToDecimalLength(n: nat, k: nat)
    requires 1 <= k && n < Pow10(k)
    ensures |NatToDecimal(n)| <= k
  {
    if n >= 10 {
      assert Pow10(k) == 10 * Pow10(k - 1);
      assert k != 1 by {
        assert Pow10(1) == 10 * Pow10(0);
      }
      assert n / 10 < Pow10(k - 1);
      NatToDecimalLength(n / 10, k - 1);
    }
  }

  /** A non-negative number below 10^width is written in exactly `width`
      characters by `format(n, "0W")`, and parses back to itself. */
  lemma ZeroPaddedRoundTrip(n: nat, width: nat)
    requires 1 <= width && n < Pow10(width)
    ensures |FormatZeroPadded(n, width)| == width
    ensures ParseDecimal(FormatZeroPadded(n, width)) == Some(n)
  {
    NatToDecimalLength(n, width);
    var digits := NatToDecimal(n);
    var s := FormatZeroPadded(n, width);
    assert s == Zeros(width - |digits|) + digits;
    DecimalValueLeadingZeros(width - |digits|, digits);
    DecimalValueOfNat(n);
  }

  function LowerChar(c: char): char {
    if 'A' <= c <= 'Z' then (c as int + 32) as char else c
  }

  /** `str.lower` restricted to ASCII letters. */
  function Lower(s: string): (r: string)
    ensures |r| == |s| && forall i :: 0 <= i < |s| ==> r[i] == LowerChar(s[i])
  {
    seq(|s|, i requires 0 <= i < |s| => LowerChar(s[i]))
  }
}
