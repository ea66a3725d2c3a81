/** Remainders by a divisor that is not a constant: which slot of a ring an index names. */
module Remainders {

  lemma Parts(a: nat, n: nat)
    requires n > 0
    ensures a == n * (a / n) + a % n && 0 <= a % n < n
  {
  }

  lemma MulStep(n: nat, p: nat, q: nat)
    requires p < q
    ensures n * p + n <= n * q
  {
    var k := q - p - 1;
    assert n * q == n * p + n + n * k;
  }

  /** Indices less than a ring apart name different slots. */
  lemma SameRemainder(a: nat, b: nat, n: nat)
    requires n > 0 && a % n == b % n && a <= b < a + n
    ensures a == b
  {
    var p, q := a / n, b / n;
    Parts(a, n);
    Parts(b, n);
    if p < q {
      MulStep(n, p, q);
    } else if q < p {
      MulStep(n, q, p);
    }
  }

  /** The remainder of n * q + r is r. */
  lemma Remainder(n: nat, q: nat, r: nat)
    requires r < n
    ensures (n * q + r) % n == r
  {
    var a := n * q + r;
    var p := a / n;
    assert a == n * p + a % n;
    if p < q {
      MulStep(n, p, q);
    } else if q < p {
      MulStep(n, q, p);
    }
  }
}
