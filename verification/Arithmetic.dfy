/** Division facts used by the ring indices and by the varint weights. */
module Arithmetic {

  lemma AtLeastOne(d: int, cap: int)
    requires d >= 1 && cap > 0
    ensures d * cap >= cap
  {
  }

  /** Quotient and remainder are determined by n == q * cap + m. */
  lemma Quotient(n: nat, q: int, m: nat, cap: nat)
    requires m < cap && n == q * cap + m
    ensures n / cap == q
  {
    var q', m' := n / cap, n % cap;
    assert n == q' * cap + m';
    assert (q' - q) * cap == q' * cap - q * cap;
    if q' - q >= 1 {
      AtLeastOne(q' - q, cap);
    } else if q - q' >= 1 {
      assert (q - q') * cap == q * cap - q' * cap;
      AtLeastOne(q - q', cap);
    }
  }

  lemma Remainder(n: nat, q: int, m: nat, cap: nat)
    requires m < cap && n == q * cap + m
    ensures n % cap == m
  {
    Quotient(n, q, m, cap);
    assert n == n / cap * cap + n % cap;
  }
}
