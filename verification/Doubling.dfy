/** Waits that double and are capped: the breaker's cooldown, the consumer's idle sleep. */
module Doubling {

  function Min(a: int, b: int): int { if a < b then a else b }

  function Pow2(n: nat): nat { if n == 0 then 1 else 2 * Pow2(n - 1) }

  /** The first wait doubled n times, but never above the cap. */
  function Capped(first: int, n: nat, cap: int): int { Min(first * Pow2(n), cap) }

  lemma CappedDoubles(first: int, n: nat, cap: int)
    requires first >= 0 && cap >= 0
    ensures 0 <= Capped(first, n, cap)
    ensures Min(Capped(first, n, cap) * 2, cap) == Capped(first, n + 1, cap)
    ensures Capped(first, n, cap) >= Min(first, cap)
  {
    assert first * Pow2(n + 1) == first * Pow2(n) * 2;
    GrowsFromFirst(first, n);
  }

  lemma {:induction false} GrowsFromFirst(first: int, n: nat)
    requires first >= 0
    ensures first * Pow2(n) >= first
  {
    if n > 0 {
      GrowsFromFirst(first, n - 1);
      assert first * Pow2(n) == first * Pow2(n - 1) * 2;
    }
  }
}
