/** Facts about multiplication and remainders that the solver does not find unaided. */
module Arithmetic {

  lemma {:induction false} MulLess(a: nat, b: nat, n: nat)
    requires a < b
    ensures a * n + n <= b * n
    decreases b
  {
    assert b * n == (b - 1) * n + n;
    if a < b - 1 {
      MulLess(a, b - 1, n);
    }
  }

  /** Quotient and remainder are unique. */
  lemma DivModUnique(q: nat, r: nat, n: nat)
    requires r < n
    ensures (q * n + r) / n == q && (q * n + r) % n == r
  {
    var x := q * n + r;
    var d := x / n;
    assert x == d * n + x % n;
    if d < q {
      MulLess(d, q, n);
    } else if q < d {
      MulLess(q, d, n);
    }
  }

  lemma DivModOf(x: nat, q: nat, r: nat, n: nat)
    requires r < n && x == q * n + r
    ensures x / n == q && x % n == r
  {
    DivModUnique(q, r, n);
  }

  lemma Distribute(a: nat, b: nat, n: nat)
    ensures (a + b) * n == a * n + b * n
  {
  }

  /** Quotients and remainders of a sum, with the carry. */
  lemma DivModOfSum(a: nat, b: nat, n: nat)
    requires n > 0
    ensures a % n + b % n < n ==> (a + b) / n == a / n + b / n && (a + b) % n == a % n + b % n
    ensures a % n + b % n >= n ==> (a + b) / n == a / n + b / n + 1 && (a + b) % n == a % n + b % n - n
  {
    var q, r, q', r' := a / n, a % n, b / n, b % n;
    assert a == q * n + r && b == q' * n + r';
    Distribute(q, q', n);
    Distribute(q + q', 1, n);
    if r + r' < n {
      DivModOf(a + b, q + q', r + r', n);
    } else {
      DivModOf(a + b, q + q' + 1, r + r' - n, n);
    }
  }

  lemma MulAssociative(a: nat, b: nat, c: nat)
    ensures a * (b * c) == (a * b) * c
  {
  }

  /** A multiple of a multiple is a multiple. */
  lemma MultipleMod(a: nat, m: nat, n: nat)
    requires n > 0 && m % n == 0
    ensures (a * m) % n == 0
  {
    var k := m / n;
    assert m == k * n;
    MulAssociative(a, k, n);
    DivModOf(a * m, a * k, 0, n);
  }
}
