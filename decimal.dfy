// Decimal rendering of non-negative integers, as Go's fmt verb %d prints
// the row numbers, run lengths and image dimensions of the prompt.

module Decimal {

  predicate IsDigit(ch: char) {
    '0' <= ch <= '9'
  }

  /** The character of a single decimal digit. */
  function DigitChar(d: nat): (ch: char)
    requires d < 10
    ensures IsDigit(ch) && ch as int - '0' as int == d
  {
    ('0' as int + d) as char
  }

  /** The value of a single decimal digit character. */
  function DigitValue(ch: char): (d: nat)
    requires IsDigit(ch)
    ensures d < 10 && DigitChar(d) == ch
  {
    ch as int - '0' as int
  }

  /** `%d` of a non-negative integer: its shortest decimal representation. */
  function NatToString(n: nat): (s: string)
    ensures 1 <= |s|
    ensures n < 10 <==> |s| == 1
    decreases n
  {
    if n < 10 then [DigitChar(n)] else NatToString(n / 10) + [DigitChar(n % 10)]
  }

  predicate AllDigits(s: string) {
    forall i :: 0 <= i < |s| ==> IsDigit(s[i])
  }

  /** `%d` of a non-negative number prints only digits, and no leading zero. */
  lemma {:induction false} NatToStringDigits(n: nat)
    ensures AllDigits(NatToString(n))
    ensures NatToString(n)[0] == '0' ==> n == 0
    decreases n
  {
    if n >= 10 {
      NatToStringDigits(n / 10);
      assert NatToString(n)[0] == NatToString(n / 10)[0];
    }
  }

  /** The number a string of decimal digits denotes (the reading of %d's output). */
  function DecimalValue(s: string): (n: nat)
    requires AllDigits(s)
  {
    if s == [] then 0 else 10 * DecimalValue(s[..|s| - 1]) + DigitValue(s[|s| - 1])
  }

  /** Reading back the printed digits gives the number printed. */
  lemma {:induction false} DecimalRoundTrip(n: nat)
    ensures AllDigits(NatToString(n)) && DecimalValue(NatToString(n)) == n
    decreases n
  {
    var s := NatToString(n);
    NatToStringDigits(n);
    if n >= 10 {
      DecimalRoundTrip(n / 10);
      assert s[..|s| - 1] == NatToString(n / 10);
    }
  }

  /** Distinct numbers are printed differently. */
  lemma NatToStringInjective(m: nat, n: nat)
    requires NatToString(m) == NatToString(n)
    ensures m == n
  {
    DecimalRoundTrip(m);
    DecimalRoundTrip(n);
  }

  /** In digits followed by a non-digit, the first non-digit is at the
      length of the digits. */
  lemma FirstNonDigit(d: string, r: string)
    requires AllDigits(d) && r != [] && !IsDigit(r[0])
    ensures forall i :: 0 <= i < |d| ==> IsDigit((d + r)[i])
    ensures !IsDigit((d + r)[|d|])
  {
  }

  /** Digits followed by text that starts with a non-digit can be split
      back only one way. */
  lemma DigitsSplit(d1: string, r1: string, d2: string, r2: string)
    requires AllDigits(d1) && AllDigits(d2) && d1 + r1 == d2 + r2
    requires r1 != [] && r2 != [] && !IsDigit(r1[0]) && !IsDigit(r2[0])
    ensures d1 == d2 && r1 == r2
  {
    FirstNonDigit(d1, r1);
    FirstNonDigit(d2, r2);
    assert |d1| == |d2|;
    var s := d1 + r1;
    assert d1 == s[..|d1|] && d2 == s[..|d2|];
    assert r1 == s[|d1|..] && r2 == s[|d2|..];
  }

  /** A number printed with `%d` and followed by a non-digit can be read back. */
  lemma NatToStringSplit(m: nat, r1: string, n: nat, r2: string)
    requires NatToString(m) + r1 == NatToString(n) + r2
    requires r1 != [] && r2 != [] && !IsDigit(r1[0]) && !IsDigit(r2[0])
    ensures m == n && r1 == r2
  {
    NatToStringDigits(m);
    NatToStringDigits(n);
    DigitsSplit(NatToString(m), r1, NatToString(n), r2);
    NatToStringInjective(m, n);
  }
}
