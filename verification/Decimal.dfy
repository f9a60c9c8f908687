/** Decimal numerals, as strconv.Itoa and %d write non-negative numbers. */
module Decimal {

  function Digits(n: nat): string {
    if n < 10 then [('0' as int + n) as char] else Digits(n / 10) + [('0' as int + n % 10) as char]
  }

  lemma {:induction false} DigitsInjective(a: nat, b: nat)
    ensures Digits(a) == Digits(b) ==> a == b
  {
    if a >= 10 && b >= 10 {
      assert Digits(a)[..|Digits(a)| - 1] == Digits(a / 10);
      assert Digits(b)[..|Digits(b)| - 1] == Digits(b / 10);
      DigitsInjective(a / 10, b / 10);
      if Digits(a) == Digits(b) {
        assert Digits(a)[|Digits(a)| - 1] == Digits(b)[|Digits(b)| - 1];
      }
    } else if a >= 10 {
      DigitsNonEmpty(a / 10);
    } else if b >= 10 {
      DigitsNonEmpty(b / 10);
    }
  }

  lemma DigitsNonEmpty(n: nat)
    ensures |Digits(n)| >= 1
  {}

  lemma {:induction false} DigitsAreDigits(n: nat)
    ensures forall c :: c in Digits(n) ==> '0' <= c <= '9'
  {
    if n >= 10 { DigitsAreDigits(n / 10); }
  }
}
