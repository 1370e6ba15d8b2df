/** The nonlinear facts the other modules need. */
module Arithmetic {
  lemma MulMonotone(a: int, b: int, s: int)
    requires 0 <= a <= b && 0 <= s
    ensures 0 <= a * s <= b * s
  {
  }

  lemma Quotient(x: nat, a: nat, r: nat, q: nat)
    requires q > 0 && x == a * q + r && r < q
    ensures x / q == a && x % q == r
  {
    var b := x / q;
    assert x == b * q + x % q;
    assert (a - b) * q == a * q - b * q;
    if a > b {
      MulMonotone(1, a - b, q);
    } else if a < b {
      MulMonotone(1, b - a, q);
    }
  }
}
