/**
 * The decimal text Swift's string interpolation `"\(n)"` gives for an `Int`,
 * and a reader for that text that serves as its inverse.
 */
module IntText {
  import opened Wrappers

  predicate IsDigit(c: char) {
    '0' <= c <= '9'
  }

  function DigitValue(c: char): nat
    requires IsDigit(c)
  {
    c as int - '0' as int
  }

  function DigitChar(d: nat): (c: char)
    requires d < 10
    ensures IsDigit(c) && DigitValue(c) == d
  {
    ('0' as int + d) as char
  }

  predicate AllDigits(s: string) {
    forall i :: 0 <= i < |s| ==> IsDigit(s[i])
  }

  /** The digits of `n`, most significant first, without leading zeros. */
  function NaturalText(n: nat): (s: string)
    ensures |s| >= 1 && AllDigits(s)
    ensures s[0] == '0' ==> n == 0
    ensures n < 10 <==> |s| == 1
    decreases n
  {
    if n < 10 then [DigitChar(n)] else NaturalText(n / 10) + [DigitChar(n % 10)]
  }

  /** `"\(n)"`: a minus sign for a negative value, then the digits of its magnitude. */
  function DecimalText(n: int): (s: string)
    ensures |s| >= 1
    ensures s[0] == '-' <==> n < 0
  {
    if n < 0 then "-" + NaturalText(-n) else NaturalText(n)
  }

  /** Reads a non-empty run of decimal digits. */
  function ParseNatural(s: string): (r: Option<nat>)
    ensures r.Some? <==> |s| >= 1 && AllDigits(s)
    decreases |s|
  {
    if |s| == 0 || !IsDigit(s[|s| - 1]) then None
    else if |s| == 1 then Some(DigitValue(s[0]))
    else match ParseNatural(s[..|s| - 1])
      case None => None
      case Some(v) => Some(10 * v + DigitValue(s[|s| - 1]))
  }

  /** Reads an optionally negated run of decimal digits. */
  function ParseDecimal(s: string): Option<int> {
    if |s| >= 1 && s[0] == '-' then
      match ParseNatural(s[1..])
      case None => None
      case Some(v) => Some(-(v as int))
    else ParseNatural(s)
  }

  /** Reading back the digits of a natural number gives that number. */
  lemma {:induction false} NaturalRoundTrip(n: nat)
    ensures ParseNatural(NaturalText(n)) == Some(n)
    decreases n
  {
    if n >= 10 {
      var s := NaturalText(n);
      assert s[..|s| - 1] == NaturalText(n / 10);
      NaturalRoundTrip(n / 10);
    }
  }

  /** Reading back the interpolated text of any `Int` gives that `Int`. */
  lemma DecimalRoundTrip(n: int)
    ensures ParseDecimal(DecimalText(n)) == Some(n)
  {
    if n < 0 {
      var digits := NaturalText(-n);
      NaturalRoundTrip(-n);
      NegativeText(digits, -n);
      assert DecimalText(n) == "-" + digits;
    } else {
      var digits := NaturalText(n);
      NaturalRoundTrip(n);
      NonNegativeText(digits);
      assert DecimalText(n) == digits;
    }
  }

  /** Text that starts with a digit is read as a natural number. */
  lemma NonNegativeText(digits: string)
    requires |digits| >= 1 && IsDigit(digits[0])
    ensures ParseDecimal(digits) == ParseNatural(digits)
  {
  }

  /** A leading minus sign negates the number that follows. */
  lemma NegativeText(digits: string, v: nat)
    requires ParseNatural(digits) == Some(v)
    ensures ParseDecimal("-" + digits) == Some(-(v as int))
  {
    assert ("-" + digits)[1..] == digits;
  }

  /** Distinct integers have distinct decimal text. */
  lemma DecimalTextInjective(a: int, b: int)
    ensures DecimalText(a) == DecimalText(b) ==> a == b
  {
    DecimalRoundTrip(a);
    DecimalRoundTrip(b);
  }
}
