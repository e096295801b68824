/**
 * `strconv.Atoi` on a 64-bit platform: an optional `+` or `-` sign followed by
 * one or more ASCII decimal digits whose value fits in a Go `int` (int64).
 * Anything else (the empty string, a lone sign, inner spaces, underscores,
 * other characters, an out-of-range value) is an error.
 */
module Decimal {
  import opened Results
  import Text

  const IntMin: int := -0x8000_0000_0000_0000
  const IntMax: int := 0x7fff_ffff_ffff_ffff

  predicate InIntRange(n: int) {
    IntMin <= n <= IntMax
  }

  predicate IsDigit(c: char) {
    '0' <= c <= '9'
  }

  predicate AllDigits(s: string) {
    forall i :: 0 <= i < |s| ==> IsDigit(s[i])
  }

  function DigitValue(c: char): nat
    requires IsDigit(c)
  {
    (c as int) - ('0' as int)
  }

  /** The value of a digit string read most significant digit first. */
  function DigitsValue(s: string): nat
    requires AllDigits(s)
  {
    if s == [] then 0 else DigitsValue(s[..|s| - 1]) * 10 + DigitValue(s[|s| - 1])
  }

  /** The sign and the digits of `s`: a leading `+` or `-` is split off. */
  function SplitSign(s: string): (bool, string) {
    if s != [] && (s[0] == '+' || s[0] == '-') then (s[0] == '-', s[1..]) else (false, s)
  }

  /** `strconv.Atoi`. */
  function Atoi(s: string): Option<int> {
    var (negative, digits) := SplitSign(s);
    if digits == [] || !AllDigits(digits) then None
    else
      var magnitude: int := DigitsValue(digits);
      var n: int := if negative then -magnitude else magnitude;
      if InIntRange(n) then Some(n) else None
  }

  /** The decimal digits of a natural number, without leading zeros. */
  function Digits(n: nat): (s: string)
    ensures s != [] && AllDigits(s)
    ensures DigitsValue(s) == n
  {
    if n < 10 then ['0' + n as char]
    else
      var s := Digits(n / 10) + ['0' + (n % 10) as char];
      assert s[..|s| - 1] == Digits(n / 10);
      s
  }

  /** How Go formats an `int` with `%d` or `strconv.Itoa`. */
  function DecimalString(n: int): string {
    if n < 0 then "-" + Digits(-n) else Digits(n)
  }

  /** Atoi reads back every formatted int64, negative numbers and zero included. */
  lemma AtoiDecimalString(n: int)
    requires InIntRange(n)
    ensures Atoi(DecimalString(n)) == Some(n)
  {
    var s := DecimalString(n);
    if n < 0 {
      assert SplitSign(s) == (true, Digits(-n));
    } else {
      assert s[0] != '+' && s[0] != '-';
      assert SplitSign(s) == (false, Digits(n));
    }
  }

  /** Formatted ints contain no comma and no white space at either end. */
  lemma DecimalStringPlain(n: int)
    ensures ',' !in DecimalString(n)
    ensures DecimalString(n) != [] && DecimalString(n)[0] != ' '
    ensures DecimalString(n)[|DecimalString(n)| - 1] != ' '
    ensures Text.Trimmed(DecimalString(n))
  {
    var d := Digits(if n < 0 then -n else n);
    assert DecimalString(n)[|DecimalString(n)| - 1] == d[|d| - 1];
  }
}
