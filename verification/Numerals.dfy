/** Decimal numerals, as `to_string` and `ostream <<` write them. */
module Numerals {

  predicate IsDigit(c: char) { '0' <= c <= '9' }

  function Digit(n: nat): (c: char)
    requires n < 10
    ensures IsDigit(c) && DigitValue(c) == n
  {
    ('0' as int + n) as char
  }

  function DigitValue(c: char): (n: nat)
    requires IsDigit(c)
    ensures n < 10
  {
    c as int - '0' as int
  }

  predicate AllDigits(s: string) {
    forall i | 0 <= i < |s| :: IsDigit(s[i])
  }

  function Numeral(n: nat): (s: string)
    ensures s != "" && AllDigits(s)
    decreases n
  {
    if n < 10 then [Digit(n)] else Numeral(n / 10) + [Digit(n % 10)]
  }

  function NumeralValue(s: string): nat
    requires AllDigits(s)
    decreases s
  {
    if s == "" then 0 else 10 * NumeralValue(s[..|s|-1]) + DigitValue(s[|s|-1])
  }

  lemma {:induction false} ValueOfNumeral(n: nat)
    ensures NumeralValue(Numeral(n)) == n
    decreases n
  {
    var s := Numeral(n);
    if n >= 10 {
      ValueOfNumeral(n / 10);
      assert s[..|s|-1] == Numeral(n / 10);
    } else {
      assert s[..|s|-1] == "";
    }
  }

  lemma NumeralInjective(m: nat, n: nat)
    requires Numeral(m) == Numeral(n)
    ensures m == n
  {
    ValueOfNumeral(m);
    ValueOfNumeral(n);
  }

  /** What is left of a numeral when a numeral is taken off its end is a numeral again. */
  lemma {:induction false} NumeralPrefix(d: string, j: nat, k: nat) returns (m: nat)
    requires d != "" && Numeral(j) == d + Numeral(k)
    ensures m >= 1 && d == Numeral(m)
    decreases k
  {
    assert j >= 10 by { assert |d + Numeral(k)| >= 2; }
    var s := Numeral(j);
    assert s[..|s|-1] == Numeral(j / 10);
    if k < 10 {
      m := j / 10;
      assert (d + Numeral(k))[..|s|-1] == d;
    } else {
      assert (d + Numeral(k))[..|s|-1] == d + Numeral(k / 10);
      m := NumeralPrefix(d, j / 10, k / 10);
    }
  }
}
