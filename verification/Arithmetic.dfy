/** The facts about products, quotients and remainders that the proofs about sizes and ranks need. */
module Arithmetic {
  function Min(a: int, b: int): int {
    if a < b then a else b
  }

  function Max(a: int, b: int): int {
    if a < b then b else a
  }

  lemma MulMonotone(a: int, b: int, c: int)
    requires a <= b && 0 <= c
    ensures a * c <= b * c
  {
  }

  lemma DivModUnique(x: int, n: int, q: int, r: int)
    requires 0 < n && x == q * n + r && 0 <= r < n
    ensures x / n == q && x % n == r
  {
    var p := x / n;
    assert x == p * n + x % n;
    if p < q {
      MulMonotone(p + 1, q, n);
    } else if q < p {
      MulMonotone(q + 1, p, n);
    }
  }

  lemma MultipleMod(q: int, n: int)
    requires 0 < n
    ensures (q * n) % n == 0 && q * n / n == q
  {
    DivModUnique(q * n, n, q, 0);
  }

  lemma ModSum(a: int, b: int, n: int)
    requires 0 < n && a % n == 0 && b % n == 0
    ensures (a + b) % n == 0
  {
    assert a + b == (a / n + b / n) * n;
    MultipleMod(a / n + b / n, n);
  }

  lemma ModDifference(a: int, b: int, n: int)
    requires 0 < n && a % n == 0 && b % n == 0
    ensures (a - b) % n == 0
  {
    assert a - b == (a / n - b / n) * n;
    MultipleMod(a / n - b / n, n);
  }

  lemma ModProduct(k: int, a: int, n: int)
    requires 0 < n && a % n == 0
    ensures k * a % n == 0
  {
    assert k * a == k * (a / n) * n;
    MultipleMod(k * (a / n), n);
  }

  lemma QuotientMonotone(x: int, y: int, n: int)
    requires 0 < n && x <= y
    ensures x / n <= y / n
  {
    var p, q := x / n, y / n;
    assert n * p <= x && y < n * q + n;
    if q + 1 <= p {
      MulMonotone(q + 1, p, n);
    }
  }

  lemma QuotientRange(x: nat, n: nat, q: nat)
    requires 0 < n
    ensures x / n == q <==> q * n <= x < q * n + n
  {
    if q * n <= x < q * n + n {
      DivModUnique(x, n, q, x - q * n);
    }
  }
}
