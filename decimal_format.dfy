/**
 * Exact decimal rounding and fixed-point formatting, as `Coordinates` uses them:
 * `BigDecimal.setScale(scale, RoundingMode.HALF_UP)` and `String.format("%.<scale>f", ...)`
 * with '.' as the decimal separator.
 *
 * A rounded value is kept as an integer count of 10^-scale units, so 52.53 at scale 2
 * is 5253.
 */
module DecimalFormat {
  import opened JavaLang

  function Pow10(n: nat): (p: nat)
    ensures p >= 1
  {
    if n == 0 then 1 else 10 * Pow10(n - 1)
  }

  function Abs(n: int): nat {
    if n < 0 then -n else n
  }

  /** HALF_UP rounding of `x` to `scale` fractional digits: to the nearest multiple of
      10^-scale, and a value exactly half-way is rounded away from zero. */
  function RoundHalfUp(x: real, scale: nat): (n: int)
    ensures 0.0 <= x ==> n as real - 0.5 <= x * Pow10(scale) as real < n as real + 0.5
    ensures x < 0.0 ==> n as real - 0.5 < x * Pow10(scale) as real <= n as real + 0.5
  {
    var y := x * Pow10(scale) as real;
    if 0.0 <= x then (y + 0.5).Floor else -((0.5 - y).Floor)
  }

  /** The bounds in RoundHalfUp's contract single out its result. */
  lemma RoundHalfUpUnique(x: real, scale: nat, n: int)
    requires 0.0 <= x ==> n as real - 0.5 <= x * Pow10(scale) as real < n as real + 0.5
    requires x < 0.0 ==> n as real - 0.5 < x * Pow10(scale) as real <= n as real + 0.5
    ensures RoundHalfUp(x, scale) == n
  {
  }

  /** Rounding is symmetric about zero: ties go away from zero on both sides. */
  lemma RoundHalfUpNegate(x: real, scale: nat)
    ensures RoundHalfUp(-x, scale) == -RoundHalfUp(x, scale)
  {
    var n := RoundHalfUp(x, scale);
    var p := Pow10(scale) as real;
    assert (-x) * p == -(x * p);
    if x == 0.0 {
      assert x * p == 0.0;
    }
    RoundHalfUpUnique(-x, scale, -n);
  }

  /** A value that already has `scale` fractional digits rounds to itself. */
  lemma RoundHalfUpExact(n: int, scale: nat)
    ensures RoundHalfUp(n as real / Pow10(scale) as real, scale) == n
  {
    var p := Pow10(scale) as real;
    var x := n as real / p;
    assert x * p == n as real;
    assert 0.0 <= x <==> 0 <= n;
    RoundHalfUpUnique(x, scale, n);
  }

  /** Rounding preserves every bound that is itself a multiple of 10^-scale. */
  lemma RoundHalfUpWithin(x: real, scale: nat, lo: int, hi: int)
    requires lo as real <= x * Pow10(scale) as real <= hi as real
    ensures lo <= RoundHalfUp(x, scale) <= hi
  {
  }

  function DigitChar(d: nat): (c: char)
    requires d < 10
    ensures '0' <= c <= '9' && (c as int) - ('0' as int) == d
  {
    "0123456789"[d]
  }

  predicate IsDigit(c: char) {
    '0' <= c <= '9'
  }

  function DigitValue(c: char): (d: nat)
    requires IsDigit(c)
    ensures d < 10
  {
    (c as int) - ('0' as int)
  }

  /** The decimal digits of `k` without leading zeros ("0" for zero). */
  function NatDigits(k: nat): (s: string)
    ensures |s| >= 1
    ensures forall i :: 0 <= i < |s| ==> IsDigit(s[i])
  {
    if k < 10 then [DigitChar(k)] else NatDigits(k / 10) + [DigitChar(k % 10)]
  }

  /** The number a string of digits denotes. */
  function DigitsValue(s: string): nat
    requires AllDigits(s)
  {
    if s == [] then 0 else 10 * DigitsValue(s[..|s| - 1]) + DigitValue(s[|s| - 1])
  }

  predicate AllDigits(s: string) {
    forall i :: 0 <= i < |s| ==> IsDigit(s[i])
  }

  /** No leading zero, unless the numeral is "0" itself. */
  predicate IsCanonical(s: string) {
    |s| >= 1 && (|s| == 1 || s[0] != '0')
  }

  lemma {:induction false} NatDigitsValue(k: nat)
    ensures DigitsValue(NatDigits(k)) == k
    ensures IsCanonical(NatDigits(k)) && (k == 0 <==> NatDigits(k) == "0")
  {
    if k >= 10 {
      var s := NatDigits(k);
      NatDigitsValue(k / 10);
      assert s[..|s| - 1] == NatDigits(k / 10);
      assert s[0] == NatDigits(k / 10)[0];
    }
  }

  /** The digits of `a` with a '.' before the last `scale` of them; at least one digit precedes the '.'. */
  function FixedDigits(a: nat, scale: nat): (s: string)
    decreases scale
  {
    if scale == 0 then NatDigits(a) + "." else FixedDigits(a / 10, scale - 1) + [DigitChar(a % 10)]
  }

  /** The part of a fixed-point numeral before its '.'. */
  function IntegerPart(t: string, scale: nat): string
    requires |t| >= scale + 2
  {
    t[..|t| - scale - 1]
  }

  /** The digits of a fixed-point numeral with its '.' taken out. */
  function Unpointed(t: string, scale: nat): string
    requires |t| >= scale + 2
  {
    t[..|t| - scale - 1] + t[|t| - scale..]
  }

  /** Digits, a '.', then exactly `scale` digits. */
  predicate IsFixedNumeral(t: string, scale: nat) {
    |t| >= scale + 2 && t[|t| - scale - 1] == '.' && AllDigits(Unpointed(t, scale))
  }

  /** Appending a digit to a fixed-point numeral moves the '.' one place to the left in scale terms. */
  lemma AppendDigit(u: string, scale: nat, d: char)
    requires IsFixedNumeral(u, scale) && IsDigit(d)
    ensures IsFixedNumeral(u + [d], scale + 1)
    ensures IntegerPart(u + [d], scale + 1) == IntegerPart(u, scale)
    ensures DigitsValue(Unpointed(u + [d], scale + 1)) == 10 * DigitsValue(Unpointed(u, scale)) + DigitValue(d)
  {
    var t := u + [d];
    var x := Unpointed(u, scale);
    assert Unpointed(t, scale + 1) == x + [d];
    assert (x + [d])[..|x|] == x;
  }

  /** The shape of FixedDigits: a canonical integer part, '.', `scale` digits, and the digits
      read without the '.' give back `a`. */
  lemma {:induction false} FixedDigitsParts(a: nat, scale: nat)
    ensures IsFixedNumeral(FixedDigits(a, scale), scale)
    ensures IsCanonical(IntegerPart(FixedDigits(a, scale), scale))
    ensures DigitsValue(Unpointed(FixedDigits(a, scale), scale)) == a
    decreases scale
  {
    var t := FixedDigits(a, scale);
    if scale == 0 {
      NatDigitsValue(a);
      assert IntegerPart(t, 0) == NatDigits(a);
      assert Unpointed(t, 0) == NatDigits(a);
    } else {
      FixedDigitsParts(a / 10, scale - 1);
      AppendDigit(FixedDigits(a / 10, scale - 1), scale - 1, DigitChar(a % 10));
    }
  }

  /** `String.format("%.<scale>f", n / 10^scale)` for scale > 0: an optional minus sign,
      the integer part without leading zeros, '.', and exactly `scale` fractional digits. */
  function FormatFixed(n: int, scale: nat): (s: string)
    requires scale > 0
  {
    (if n < 0 then "-" else "") + FixedDigits(Abs(n), scale)
  }

  /** A string of digits, '.' and '-' only: it has no ':' in it. */
  predicate IsNumeral(s: string) {
    forall i :: 0 <= i < |s| ==> IsDigit(s[i]) || s[i] == '.' || s[i] == '-'
  }

  /** Reads back what FormatFixed writes: `[-]digits.digits` with exactly `scale` fractional digits. */
  function ParseFixed(s: string, scale: nat): (r: Option<int>)
    requires scale > 0
  {
    var negative := |s| > 0 && s[0] == '-';
    var body := if negative then s[1..] else s;
    if !IsFixedNumeral(body, scale) then None
    else
      var a: int := DigitsValue(Unpointed(body, scale));
      Some(if negative then -a else a)
  }

  /** FormatFixed writes only digits, '.' and '-', and starts with '-' exactly for negatives. */
  lemma FormatFixedShape(n: int, scale: nat)
    requires scale > 0
    ensures IsNumeral(FormatFixed(n, scale))
    ensures |FormatFixed(n, scale)| >= scale + 2
    ensures FormatFixed(n, scale)[0] == '-' <==> n < 0
  {
    var t := FixedDigits(Abs(n), scale);
    FixedDigitsParts(Abs(n), scale);
    var k := |t| - scale - 1;
    var u := Unpointed(t, scale);
    assert t[0] == u[0];
    forall i | 0 <= i < |t| ensures IsDigit(t[i]) || t[i] == '.' {
      if i < k { assert t[i] == u[i]; }
      else if i > k { assert t[i] == u[i - 1]; }
    }
  }

  /** ParseFixed on a FixedDigits numeral, with or without a leading '-'. */
  lemma ParseFixedDigits(a: nat, scale: nat, negative: bool)
    requires scale > 0
    ensures var v: int := a;
      ParseFixed(if negative then "-" + FixedDigits(a, scale) else FixedDigits(a, scale), scale)
        == Some(if negative then -v else v)
  {
    var t := FixedDigits(a, scale);
    FixedDigitsParts(a, scale);
    assert t[0] == Unpointed(t, scale)[0];
    var s := if negative then "-" + t else t;
    assert (|s| > 0 && s[0] == '-') == negative;
    if negative {
      assert s[1..] == t;
    }
  }

  /** The round trip: reading back a formatted value gives the value. */
  lemma ParseFormatFixed(n: int, scale: nat)
    requires scale > 0
    ensures ParseFixed(FormatFixed(n, scale), scale) == Some(n)
  {
    ParseFixedDigits(Abs(n), scale, n < 0);
    if n >= 0 {
      assert FormatFixed(n, scale) == FixedDigits(n, scale);
    }
  }

  /** Hence formatting is injective. */
  lemma FormatFixedInjective(m: int, n: int, scale: nat)
    requires scale > 0
    ensures FormatFixed(m, scale) == FormatFixed(n, scale) <==> m == n
  {
    ParseFormatFixed(m, scale);
    ParseFormatFixed(n, scale);
  }
}
