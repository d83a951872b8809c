/** Decimal notation of natural numbers, as Python's `str` and `int` give and read it. */
module Decimal {
  predicate IsDigit(c: char) {
    '0' <= c <= '9'
  }

  predicate AllDigits(s: string) {
    forall c | c in s :: IsDigit(c)
  }

  function DigitOf(n: nat): (c: char)
    requires n < 10
    ensures IsDigit(c)
  {
    '0' + (n as char)
  }

  function ValueOfDigit(c: char): (n: nat)
    requires IsDigit(c)
    ensures n < 10 && DigitOf(n) == c
  {
    (c - '0') as nat
  }

  /** The shortest decimal numeral of `n`. */
  function Digits(n: nat): (s: string)
    ensures s != [] && AllDigits(s)
  {
    if n < 10 then [DigitOf(n)] else Digits(n / 10) + [DigitOf(n % 10)]
  }

  function ValueOf(s: string): nat
    requires AllDigits(s)
  {
    if s == [] then 0 else 10 * ValueOf(s[..|s| - 1]) + ValueOfDigit(s[|s| - 1])
  }

  /** Reading a numeral back gives the number, so no two numbers have the same numeral. */
  lemma {:induction false} ReadingDigitsBack(n: nat)
    ensures ValueOf(Digits(n)) == n
  {
    if n < 10 {
      assert Digits(n)[..0] == [];
    } else {
      var s := Digits(n);
      ReadingDigitsBack(n / 10);
      assert s[..|s| - 1] == Digits(n / 10);
    }
  }

  lemma DigitsAreDistinct(m: nat, n: nat)
    requires Digits(m) == Digits(n)
    ensures m == n
  {
    ReadingDigitsBack(m);
    ReadingDigitsBack(n);
  }
}
