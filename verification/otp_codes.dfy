/**
 * The one-time code generator: a uniformly drawn integer in [100000, 999999]
 * rendered in decimal. The draw is a parameter; the rendering is modelled
 * together with its inverse, decimal parsing.
 */
module OtpCodes {

  /** Bounds of the random draw, both inclusive. */
  const OtpLow: int := 100000
  const OtpHigh: int := 999999

  /** Number of characters in every code. */
  const OtpLength: nat := 6

  predicate IsDigit(c: char) {
    '0' <= c <= '9'
  }

  predicate AllDigits(s: string) {
    forall i :: 0 <= i < |s| ==> IsDigit(s[i])
  }

  function DigitChar(d: int): (c: char)
    requires 0 <= d < 10
    ensures IsDigit(c)
  {
    (('0' as int) + d) as char
  }

  function DigitValue(c: char): (d: int)
    requires IsDigit(c)
    ensures 0 <= d < 10
    ensures DigitChar(d) == c
  {
    (c as int) - ('0' as int)
  }

  function Pow10(k: nat): (p: nat)
    ensures p >= 1
  {
    if k == 0 then 1 else 10 * Pow10(k - 1)
  }

  /** The decimal rendering of a natural number, most significant digit first. */
  function Decimal(n: nat): (s: string)
    ensures |s| >= 1
    ensures AllDigits(s)
    ensures n > 0 ==> s[0] != '0'
  {
    if n < 10 then [DigitChar(n)] else Decimal(n / 10) + [DigitChar(n % 10)]
  }

  /** The value of a string of decimal digits; the empty string reads as 0. */
  function ParseDecimal(s: string): (n: nat)
    requires AllDigits(s)
  {
    if |s| == 0 then 0 else 10 * ParseDecimal(s[..|s| - 1]) + DigitValue(s[|s| - 1])
  }

  /** A rendering without redundant leading zeros. */
  predicate Canonical(s: string) {
    |s| >= 1 && AllDigits(s) && (|s| > 1 ==> s[0] != '0')
  }

  /** Parsing undoes rendering. */
  lemma {:induction false} ParseDecimalOfDecimal(n: nat)
    ensures ParseDecimal(Decimal(n)) == n
  {
    var s := Decimal(n);
    if n < 10 {
      assert s[..|s| - 1] == [];
    } else {
      ParseDecimalOfDecimal(n / 10);
      assert s[..|s| - 1] == Decimal(n / 10);
    }
  }

  /** A digit string whose first digit is not zero has a positive value. */
  lemma {:induction false} ParseDecimalPositive(s: string)
    requires |s| >= 1 && AllDigits(s) && s[0] != '0'
    ensures ParseDecimal(s) > 0
  {
    if |s| == 1 {
      assert s[..0] == [];
    } else {
      var t := s[..|s| - 1];
      assert t[0] == s[0];
      ParseDecimalPositive(t);
    }
  }

  /** Rendering undoes parsing on canonical strings. */
  lemma {:induction false} DecimalOfParseDecimal(s: string)
    requires Canonical(s)
    ensures Decimal(ParseDecimal(s)) == s
  {
    var t := s[..|s| - 1];
    var d := DigitValue(s[|s| - 1]);
    if |s| == 1 {
      assert t == [];
      assert ParseDecimal(s) == d;
    } else {
      assert t[0] == s[0];
      ParseDecimalPositive(t);
      DecimalOfParseDecimal(t);
      var n := ParseDecimal(s);
      assert n == 10 * ParseDecimal(t) + d;
      assert n / 10 == ParseDecimal(t) && n % 10 == d;
      assert s == t + [s[|s| - 1]];
    }
  }

  /** A number with k + 1 digits renders to k + 1 characters. */
  lemma {:induction false} DecimalLength(n: nat, k: nat)
    requires Pow10(k) <= n < Pow10(k + 1)
    ensures |Decimal(n)| == k + 1
  {
    if k == 0 {
      assert n < 10;
    } else {
      assert Pow10(k) == 10 * Pow10(k - 1);
      assert Pow10(k + 1) == 10 * Pow10(k);
      assert Pow10(k - 1) <= n / 10 < Pow10(k);
      DecimalLength(n / 10, k - 1);
    }
  }

  /** The shape of every generated code: six digits, the first not zero. */
  predicate IsOtpCode(s: string) {
    |s| == OtpLength && AllDigits(s) && s[0] != '0'
  }

  /** The code sent for the draw `draw`: six digits, no leading zero, reading back as the draw. */
  function GenerateOtp(draw: int): (code: string)
    requires OtpLow <= draw <= OtpHigh
    ensures IsOtpCode(code)
    ensures ParseDecimal(code) == draw
  {
    assert Pow10(5) == OtpLow && Pow10(6) == OtpHigh + 1;
    DecimalLength(draw, 5);
    ParseDecimalOfDecimal(draw);
    Decimal(draw)
  }

  /** Distinct draws give distinct codes. */
  lemma GenerateOtpInjective(a: int, b: int)
    requires OtpLow <= a <= OtpHigh && OtpLow <= b <= OtpHigh
    ensures GenerateOtp(a) == GenerateOtp(b) <==> a == b
  {
  }

  /** Every six-digit string without a leading zero is the code of exactly one draw. */
  lemma GenerateOtpOnto(code: string)
    requires IsOtpCode(code)
    ensures OtpLow <= ParseDecimal(code) <= OtpHigh
    ensures GenerateOtp(ParseDecimal(code)) == code
  {
    DecimalOfParseDecimal(code);
    var n := ParseDecimal(code);
    var k: nat := 5;
    if n < Pow10(k) {
      ShortNumberShortDecimal(n, k);
      assert false;
    }
    if n >= Pow10(k + 1) {
      LongNumberLongDecimal(n, k + 1);
      assert false;
    }
  }

  /** Numbers below 10^k render to at most k characters. */
  lemma {:induction false} ShortNumberShortDecimal(n: nat, k: nat)
    requires 1 <= k && n < Pow10(k)
    ensures |Decimal(n)| <= k
  {
    if n >= 10 {
      assert Pow10(1) == 10;
      assert Pow10(k) == 10 * Pow10(k - 1);
      ShortNumberShortDecimal(n / 10, k - 1);
    }
  }

  /** Numbers at or above 10^k render to more than k characters. */
  lemma {:induction false} LongNumberLongDecimal(n: nat, k: nat)
    requires Pow10(k) <= n
    ensures |Decimal(n)| > k
  {
    if k > 0 {
      assert Pow10(k) == 10 * Pow10(k - 1);
      assert n >= 10;
      LongNumberLongDecimal(n / 10, k - 1);
    }
  }
}
