/** Decimal numerals, as JavaScript writes integers into strings. */
module Decimal {

  predicate IsDigit(c: char) {
    '0' <= c <= '9'
  }

  function DigitValue(c: char): (v: nat)
    requires IsDigit(c)
    ensures v < 10
  {
    c as int - '0' as int
  }

  function Digit(v: nat): (c: char)
    requires v < 10
    ensures IsDigit(c) && DigitValue(c) == v
  {
    ('0' as int + v) as char
  }

  predicate AllDigits(s: string) {
    forall i | 0 <= i < |s| :: IsDigit(s[i])
  }

  function Value(s: string): nat
    requires AllDigits(s)
  {
    if s == [] then 0 else 10 * Value(s[..|s| - 1]) + DigitValue(s[|s| - 1])
  }

  function Numeral(n: nat): (s: string)
    ensures AllDigits(s) && s != []
  {
    if n < 10 then [Digit(n)] else Numeral(n / 10) + [Digit(n % 10)]
  }

  function SignedNumeral(z: int): (s: string)
    ensures s != []
  {
    if z < 0 then "-" + Numeral(-z) else Numeral(z)
  }

  lemma {:induction false} NumeralValue(n: nat)
    ensures Value(Numeral(n)) == n
  {
    if n < 10 {
      assert Numeral(n)[..0] == [];
    } else {
      NumeralValue(n / 10);
      assert Numeral(n)[..|Numeral(n)| - 1] == Numeral(n / 10);
    }
  }

  lemma SignedNumeralIsInjective(a: int, b: int)
    ensures SignedNumeral(a) == SignedNumeral(b) <==> a == b
  {
    NumeralValue(if a < 0 then -a else a);
    NumeralValue(if b < 0 then -b else b);
    var s, t := SignedNumeral(a), SignedNumeral(b);
    if s == t {
      assert a < 0 <==> s[0] == '-' by {
        assert a >= 0 ==> IsDigit(s[0]);
      }
      assert b < 0 <==> t[0] == '-' by {
        assert b >= 0 ==> IsDigit(t[0]);
      }
      if a < 0 {
        assert s[1..] == Numeral(-a) && t[1..] == Numeral(-b);
      }
    }
  }
}
