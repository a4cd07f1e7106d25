/** Division of natural numbers. */
module Arithmetic {
  /** A quotient and a remainder below the divisor are the only ones. */
  lemma DivMod(d: nat, q: nat, r: nat)
    requires r < d
    ensures (d * q + r) / d == q && (d * q + r) % d == r
  {
    var n := d * q + r;
    assert n == d * (n / d) + n % d;
    SmallMultiple(d, n / d - q, r - n % d);
  }

  /** A multiple of d strictly between -d and d is zero. */
  lemma SmallMultiple(d: nat, e: int, t: int)
    requires 0 - d < t < d && d * e == t
    ensures e == 0
  {}
}
