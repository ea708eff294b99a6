/** Named products, so that proofs can treat them as plain numbers, and the few nonlinear facts they rest on. */
module Arithmetic {

  lemma MonotoneTimes(f: int, x: int, y: int)
    requires 0 <= f && x <= y
    ensures f * x <= f * y
  {
    assert f * (y - x) >= 0;
    assert f * y == f * x + f * (y - x);
  }

  function Times(a: nat, b: nat): nat {
    MonotoneTimes(a, 0, b);
    a * b
  }

  function Mul(a: real, b: real): real {
    a * b
  }

  /** Division undoes multiplication, without a remainder. */
  lemma DivideProduct(d: nat, c: nat)
    requires d > 0
    ensures d * c / d == c && d * c % d == 0
  {
    var q, r := d * c / d, d * c % d;
    var e: int := c - q;
    assert d * e == r;
    if e >= 1 {
      MonotoneTimes(d, 1, e);
    } else if e <= -1 {
      MonotoneTimes(d, e, -1);
    }
  }
}
