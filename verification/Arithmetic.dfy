/** Quotients and remainders. */
module Arithmetic {

  function Abs(b: int): int {
    if b < 0 then -b else b
  }

  lemma {:induction false} MulAtLeast(b: int, q: int, k: int)
    requires 0 <= k <= b && q >= 0
    ensures b * q >= k * q
    decreases q
  {
    if q > 0 {
      MulAtLeast(b, q - 1, k);
      assert b * q == b * (q - 1) + b && k * q == k * (q - 1) + k;
    }
  }

  lemma MulSigns(b: int, q: int)
    ensures b * q == (-b) * (-q) && (-b) * q == -(b * q) && b * (-q) == -(b * q)
  {
  }

  lemma MulBound(b: int, q: int)
    requires b != 0 && q != 0
    ensures b * q >= Abs(b) || b * q <= -Abs(b)
  {
    MulAtLeast(Abs(q), Abs(b), 1);
    MulSigns(b, q);
    assert Abs(q) * Abs(b) == Abs(b) * Abs(q);
    assert b * q == Abs(b) * Abs(q) || b * q == -(Abs(b) * Abs(q));
  }

  /** Quotient and remainder are unique once the remainder is not negative. */
  lemma DivUnique(a: int, b: int, q: int, r: int)
    requires b != 0 && a == b * q + r && 0 <= r < Abs(b)
    ensures a / b == q && a % b == r
  {
    var q1, r1 := a / b, a % b;
    assert b * (q - q1) == r1 - r;
    if q != q1 {
      MulBound(b, q - q1);
    }
  }

  lemma QuotientBound(u: int, b: int)
    requires u >= 0 && b != 0
    ensures Abs(b) >= 2 ==> 2 * Abs(u / b) <= u
    ensures u / 1 == u && u / -1 == -u
  {
    var q, r := u / b, u % b;
    assert u == b * q + r;
    DivUnique(u, -1, -u, 0);
    if Abs(b) >= 2 {
      MulSigns(b, q);
      MulAtLeast(Abs(b), Abs(q), 2);
      assert b * q == Abs(b) * Abs(q) || b * q == -(Abs(b) * Abs(q));
      if b * q != Abs(b) * Abs(q) {
        MulBound(b, q);
      }
    }
  }
}
