// Rounding to a multiple, as the scheduler does it on item counts.
module Rounding {

  lemma ProductAtLeast(x: int, m: int)
    requires x >= 1 && m > 0
    ensures x * m >= m
  {
    if x > 1 {
      ProductAtLeast(x - 1, m);
      assert x * m == (x - 1) * m + m;
    }
  }

  lemma Distribute(x: int, y: int, m: int)
    ensures (x - y) * m == x * m - y * m && (x + y) * m == x * m + y * m
  {
  }

  /** Quotient and remainder are determined by the division equation. */
  lemma DivisionUnique(a: int, q: int, r: int, m: int)
    requires m > 0 && a == q * m + r && 0 <= r < m
    ensures a / m == q && a % m == r
  {
    var p, t := a / m, a % m;
    assert a == p * m + t;
    Distribute(p, q, m);
    Distribute(q, p, m);
    if p > q {
      ProductAtLeast(p - q, m);
    } else if q > p {
      ProductAtLeast(q - p, m);
    }
  }

  lemma MultipleDivides(k: int, m: int)
    requires m > 0
    ensures (k * m) % m == 0 && (k * m) / m == k
  {
    DivisionUnique(k * m, k, 0, m);
  }

  /** The multiple of `multiple` reached from `n` by going up less than one step. */
  function RoundUp(n: nat, multiple: nat): (r: nat)
    requires multiple > 0
    ensures r % multiple == 0 && n <= r < n + multiple
  {
    MultipleDivides((n + multiple - 1) / multiple, multiple);
    ((n + multiple - 1) / multiple) * multiple
  }

  /** The multiple of `multiple` reached from `n` by going down less than one step. */
  function RoundDown(n: nat, multiple: nat): (r: nat)
    requires multiple > 0
    ensures r % multiple == 0 && r <= n < r + multiple
  {
    MultipleDivides(n / multiple, multiple);
    (n / multiple) * multiple
  }

  /** Two multiples of `m` less than one step apart are equal. */
  lemma CloseMultiplesEqual(a: nat, b: nat, m: nat)
    requires m > 0 && a % m == 0 && b % m == 0 && a < b + m && b < a + m
    ensures a == b
  {
    assert a == (a / m) * m + 0 && b == (b / m) * m;
    if b <= a {
      DivisionUnique(a, b / m, a - b, m);
    } else {
      DivisionUnique(b, a / m, b - a, m);
    }
  }

  /** A strictly smaller multiple is smaller by a whole step. */
  lemma MultiplesStep(a: nat, b: nat, m: nat)
    requires m > 0 && a % m == 0 && b % m == 0 && a < b
    ensures a + m <= b
  {
    if b < a + m {
      CloseMultiplesEqual(a, b, m);
    }
  }

  /** Rounding up stays below every multiple that is above. */
  lemma RoundUpLeast(n: nat, m: nat, c: nat)
    requires m > 0 && c % m == 0 && n <= c
    ensures RoundUp(n, m) <= c
  {
    if c < RoundUp(n, m) {
      MultiplesStep(c, RoundUp(n, m), m);
    }
  }

  /** Rounding down stays above every multiple that is below. */
  lemma RoundDownGreatest(n: nat, m: nat, c: nat)
    requires m > 0 && c % m == 0 && c <= n
    ensures c <= RoundDown(n, m)
  {
    if RoundDown(n, m) < c {
      MultiplesStep(RoundDown(n, m), c, m);
    }
  }

  lemma SumOfMultiples(a: nat, b: nat, m: nat)
    requires m > 0 && a % m == 0 && b % m == 0
    ensures (a + b) % m == 0
  {
    assert a + b == (a / m + b / m) * m;
    MultipleDivides(a / m + b / m, m);
  }
}
