/**
 Decimal numerals: printing, scanning and reading them back.

 A numeral has no sign and no leading zero other than zero itself.  The scanner takes the
 longest run of digits, as a greedy pattern does, and reading is positional; a printed
 number followed by anything that is not a digit is scanned whole and read back as itself.
 Digits are ASCII.
 */
module Decimal {
  predicate IsDigit(c: char) {
    '0' <= c <= '9'
  }

  predicate AllDigits(s: string) {
    forall i :: 0 <= i < |s| ==> IsDigit(s[i])
  }

  function DigitChar(d: nat): (c: char)
    requires d < 10
    ensures IsDigit(c) && DigitValue(c) == d
  {
    '0' + d as char
  }

  function DigitValue(c: char): nat
    requires IsDigit(c)
  {
    (c - '0') as nat
  }

  function ToDecimal(n: nat): (s: string)
    ensures |s| > 0
  {
    if n < 10 then [DigitChar(n)] else ToDecimal(n / 10) + [DigitChar(n % 10)]
  }

  function Value(s: string): nat
    requires AllDigits(s)
  {
    if |s| == 0 then 0 else 10 * Value(s[..|s| - 1]) + DigitValue(s[|s| - 1])
  }

  /** The longest run of digits at the start. */
  function LeadingDigits(s: string): (digits: string)
    ensures AllDigits(digits) && digits <= s
  {
    if |s| == 0 || !IsDigit(s[0]) then [] else [s[0]] + LeadingDigits(s[1..])
  }

  lemma {:induction false} DecimalReadsBack(n: nat)
    ensures AllDigits(ToDecimal(n)) && Value(ToDecimal(n)) == n
  {
    if n < 10 {
      var one := ToDecimal(n);
      assert |one[..0]| == 0;
    } else {
      DecimalReadsBack(n / 10);
      var s := ToDecimal(n);
      assert s[..|s| - 1] == ToDecimal(n / 10);
    }
  }

  lemma {:induction false} LeadingDigitsStop(digits: string, rest: string)
    requires AllDigits(digits) && (|rest| == 0 || !IsDigit(rest[0]))
    ensures LeadingDigits(digits + rest) == digits
  {
    var all := digits + rest;
    if |digits| == 0 {
      assert all == rest;
    } else {
      assert all[1..] == digits[1..] + rest;
      LeadingDigitsStop(digits[1..], rest);
      assert [digits[0]] + digits[1..] == digits;
    }
  }
}
