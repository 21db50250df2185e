/** Facts about integer division shared by the digit and bit computations. */
module Arith {
  lemma MulAtLeast(a: int, d: int)
    requires a >= 1 && d > 0
    ensures a * d >= d
  {
    var e := a - 1;
    assert a * d == e * d + d;
    assert e * d >= 0;
  }

  /** Uniqueness of quotient and remainder. */
  lemma DivModUnique(x: int, d: int, k: int, t: int)
    requires d > 0 && x == k * d + t && 0 <= t < d
    ensures x % d == t && x / d == k
  {
    var q, r := x / d, x % d;
    assert x == q * d + r;
    var diff := k - q;
    assert diff * d == r - t by {
      assert k * d - q * d == diff * d;
    }
    if diff >= 1 {
      MulAtLeast(diff, d);
    } else if diff <= -1 {
      MulAtLeast(-diff, d);
    }
  }

  /** Reducing a summand first does not change the remainder of the sum. */
  lemma ModAddMod(x: int, y: int, d: int)
    requires d > 0
    ensures (x % d + y) % d == (x + y) % d
  {
    var q, r := x / d, x % d;
    var q2, r2 := (r + y) / d, (r + y) % d;
    assert x + y == (q + q2) * d + r2 by {
      assert x == q * d + r && r + y == q2 * d + r2;
      assert q * d + q2 * d == (q + q2) * d;
    }
    DivModUnique(x + y, d, q + q2, r2);
  }
}
