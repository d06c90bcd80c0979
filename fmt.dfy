/**
 * The `%d` verb of Go's fmt package on an int: optional minus sign, then
 * the decimal digits without leading zeros, with a parser as its inverse
 * (`ParseDecimal(Decimal(n)) == n`).
 */
module Fmt {

  predicate IsDigit(c: char) {
    '0' <= c <= '9'
  }

  predicate AllDigits(s: string) {
    forall i :: 0 <= i < |s| ==> IsDigit(s[i])
  }

  /** A well-formed `%d` rendering: digits, optionally preceded by '-'. */
  predicate IsDecimal(s: string) {
    if |s| > 0 && s[0] == '-' then |s| > 1 && AllDigits(s[1..]) else |s| > 0 && AllDigits(s)
  }

  function DigitChar(d: nat): (c: char)
    requires d < 10
    ensures IsDigit(c)
  {
    ('0' as int + d) as char
  }

  function DigitValue(c: char): (d: nat)
    requires IsDigit(c)
    ensures d < 10
  {
    c as int - '0' as int
  }

  /** Decimal digits of a natural number, most significant first. */
  function NatDecimal(n: nat): (s: string)
    ensures |s| > 0 && AllDigits(s)
    ensures |s| > 1 ==> s[0] != '0'
    decreases n
  {
    if n < 10 then [DigitChar(n)] else NatDecimal(n / 10) + [DigitChar(n % 10)]
  }

  /** fmt.Sprintf("%d", n). */
  function Decimal(n: int): (s: string)
    ensures IsDecimal(s)
  {
    if n < 0 then "-" + NatDecimal(-n) else NatDecimal(n)
  }

  /** The value of a string of decimal digits. */
  function ParseNat(s: string): nat
    requires AllDigits(s)
    decreases |s|
  {
    if s == [] then 0 else ParseNat(s[..|s| - 1]) * 10 + DigitValue(s[|s| - 1])
  }

  /** The value of a well-formed `%d` rendering. */
  function ParseDecimal(s: string): int
    requires IsDecimal(s)
  {
    if s[0] == '-' then -(ParseNat(s[1..]) as int) else ParseNat(s)
  }

  lemma {:induction false} NatDecimalRoundTrip(n: nat)
    ensures ParseNat(NatDecimal(n)) == n
    decreases n
  {
    if n >= 10 {
      var s := NatDecimal(n);
      assert s[..|s| - 1] == NatDecimal(n / 10);
      NatDecimalRoundTrip(n / 10);
    }
  }

  /** Parsing the `%d` rendering of any int gives back that int. */
  lemma DecimalRoundTrip(n: int)
    ensures ParseDecimal(Decimal(n)) == n
  {
    var s := Decimal(n);
    if n < 0 {
      assert s[1..] == NatDecimal(-n);
      NatDecimalRoundTrip(-n);
    } else {
      NatDecimalRoundTrip(n);
    }
  }

  /** Hence distinct ints render differently. */
  lemma DecimalInjective(a: int, b: int)
    ensures Decimal(a) == Decimal(b) ==> a == b
  {
    DecimalRoundTrip(a);
    DecimalRoundTrip(b);
  }
}
