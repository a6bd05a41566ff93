/** Decimal numerals, as number formatting writes them and `parseInt` reads them. */
module Decimals {

  predicate IsDigit(c: char) { '0' <= c <= '9' }

  function DigitOf(n: nat): (c: char)
    requires n < 10
    ensures IsDigit(c)
  {
    ('0' as int + n) as char
  }

  function ValueOf(c: char): (n: nat)
    requires IsDigit(c)
    ensures n < 10 && DigitOf(n) == c
  {
    c as int - '0' as int
  }

  function Numeral(n: nat): (s: string)
    ensures |s| >= 1
    decreases n
  {
    if n < 10 then [DigitOf(n)] else Numeral(n / 10) + [DigitOf(n % 10)]
  }

  predicate AllDigits(s: string) { forall i :: 0 <= i < |s| ==> IsDigit(s[i]) }

  function Parse(s: string): nat
    requires AllDigits(s)
  {
    if s == "" then 0 else 10 * Parse(s[..|s| - 1]) + ValueOf(s[|s| - 1])
  }

  lemma {:induction false} NumeralIsDigits(n: nat)
    ensures AllDigits(Numeral(n))
    decreases n
  {
    if n >= 10 {
      NumeralIsDigits(n / 10);
    }
  }

  /** Reading a numeral back gives the number it was written from. */
  lemma {:induction false} ParseNumeral(n: nat)
    ensures AllDigits(Numeral(n)) && Parse(Numeral(n)) == n
    decreases n
  {
    NumeralIsDigits(n);
    if n < 10 {
      assert Numeral(n)[..0] == "";
      assert ValueOf(DigitOf(n)) == n;
    } else {
      ParseNumeral(n / 10);
      assert Numeral(n)[..|Numeral(n)| - 1] == Numeral(n / 10);
      assert ValueOf(DigitOf(n % 10)) == n % 10;
    }
  }

  lemma NumeralInjective(m: nat, n: nat)
    requires Numeral(m) == Numeral(n)
    ensures m == n
  {
    ParseNumeral(m);
    ParseNumeral(n);
  }
}
