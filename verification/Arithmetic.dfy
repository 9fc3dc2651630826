/** The few facts about products and quotients the image proofs need. */
module Arithmetic {
  lemma {:induction false} MulMonotone(x: nat, y: nat, m: nat)
    requires x <= y
    ensures x * m <= y * m
    decreases y
  {
    if x < y {
      MulMonotone(x, y - 1, m);
      assert (y - 1) * m == y * m - m;
    }
  }

  lemma {:induction false} MulGap(x: nat, y: nat, m: nat)
    ensures x < y ==> x * m + m <= y * m
  {
    if x < y {
      MulMonotone(x + 1, y, m);
      assert (x + 1) * m == x * m + m;
    }
  }

  /** A quotient and a remainder below the divisor determine the number. */
  lemma {:induction false} DivModUnique(n: nat, m: nat, q: nat, r: nat)
    requires m > 0 && n == q * m + r && r < m
    ensures n / m == q && n % m == r
  {
    assert n == (n / m) * m + n % m;
    MulGap(n / m, q, m);
    MulGap(q, n / m, m);
  }

  // ----- Reals -----

  lemma {:induction false} DivIs(x: real, y: real, q: real)
    requires y > 0.0
    ensures x / y == q <==> x == q * y
  {
    assert (x / y) * y == x;
  }

  lemma {:induction false} MulOrder(x: real, y: real, f: real)
    requires f > 0.0
    ensures x <= y <==> x * f <= y * f
  {
    if x < y { Product(y - x, f); assert (y - x) * f == y * f - x * f; }
    if y < x { Product(x - y, f); assert (x - y) * f == x * f - y * f; }
  }

  lemma {:induction false} Product(x: real, y: real)
    requires x > 0.0 && y > 0.0
    ensures x * y > 0.0
  {
  }

  lemma {:induction false} Between(a: real, x: real, b: real, f: real)
    requires a <= x < b && f > 0.0
    ensures a * f <= x * f && x * f < b * f
  {
    MulOrder(a, x, f);
    MulOrder(b, x, f);
  }
}
