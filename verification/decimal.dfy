/**
 * Decimal text of natural numbers: JavaScript's `String(n)` for a
 * non-negative integer, and the unary `+` that reads a string of digits
 * back as a number (so `+"03"` is 3 and `+""` is 0).
 */
module Decimal {

  predicate IsDigit(c: char) {
    '0' <= c <= '9'
  }

  predicate AllDigits(s: string) {
    forall i :: 0 <= i < |s| ==> IsDigit(s[i])
  }

  function DigitChar(d: nat): (c: char)
    requires d < 10
    ensures IsDigit(c)
  {
    ('0' as int + d) as char
  }

  function DigitValue(c: char): (d: nat)
    requires IsDigit(c)
    ensures d < 10 && DigitChar(d) == c
  {
    c as int - '0' as int
  }

  /** `String(n)`: the shortest decimal text of `n`. */
  function Show(n: nat): (s: string)
    ensures |s| >= 1 && AllDigits(s)
    ensures |s| == 1 <==> n < 10
    ensures s[0] == '0' ==> n == 0
  {
    if n < 10 then [DigitChar(n)] else Show(n / 10) + [DigitChar(n % 10)]
  }

  /** Unary `+` on a string of digits. */
  function Parse(s: string): (n: nat)
    requires AllDigits(s)
  {
    if |s| == 0 then 0 else Parse(s[..|s| - 1]) * 10 + DigitValue(s[|s| - 1])
  }

  /**
   * What unary `+` reads: zero exactly for a string of zeros (the empty
   * string included), and the last character is the units digit.
   */
  lemma {:induction false} ParseDigits(s: string)
    requires AllDigits(s)
    ensures Parse(s) == 0 <==> forall i :: 0 <= i < |s| ==> s[i] == '0'
    ensures |s| > 0 ==> Parse(s) % 10 == DigitValue(s[|s| - 1])
  {
    if |s| > 0 {
      var p := s[..|s| - 1];
      ParseDigits(p);
      assert forall i :: 0 <= i < |p| ==> p[i] == s[i];
    }
  }

  /** Reading the decimal text of `n` back gives `n`. */
  lemma {:induction false} ParseShow(n: nat)
    ensures Parse(Show(n)) == n
  {
    if n >= 10 {
      var s := Show(n);
      assert s[..|s| - 1] == Show(n / 10);
      ParseShow(n / 10);
    }
  }

  /** `String` is injective on the naturals. */
  lemma ShowInjective(a: nat, b: nat)
    ensures Show(a) == Show(b) <==> a == b
  {
    if Show(a) == Show(b) {
      ParseShow(a);
      ParseShow(b);
    }
  }

  /** A leading zero does not change the value read back. */
  lemma {:induction false} ParseLeadingZero(s: string)
    requires AllDigits(s)
    ensures AllDigits("0" + s) && Parse("0" + s) == Parse(s)
  {
    var z := "0" + s;
    if |s| > 0 {
      assert z[..|z| - 1] == "0" + s[..|s| - 1];
      ParseLeadingZero(s[..|s| - 1]);
    }
  }
}
