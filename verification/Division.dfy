/** Quotients rounded up, as page counts are computed. */
module Division {

  /** `ceil(n / size)`. */
  function CeilDiv(n: nat, size: nat): nat
    requires size > 0
  {
    (n + size - 1) / size
  }

  lemma MulMonotone(d: nat, a: int, b: int)
    ensures a <= b ==> d * a <= d * b
  {
  }

  /** Quotient and remainder are unique. */
  lemma DivUnique(n: nat, d: nat, q: nat, r: nat)
    requires d > 0 && n == d * q + r && r < d
    ensures n / d == q
  {
    var k, s := n / d, n % d;
    assert n == d * k + s;
    MulMonotone(d, k + 1, q);
    MulMonotone(d, q + 1, k);
  }

  lemma CeilingOfOne(n: nat, size: nat)
    requires 0 < n <= size
    ensures CeilDiv(n, size) == 1
  {
    DivUnique(n + size - 1, size, 1, n - 1);
  }

  lemma CeilingBeyondOne(n: nat, size: nat)
    requires size > 0
    ensures CeilDiv(n, size) > 1 <==> n > size
  {
    if 0 < n <= size {
      CeilingOfOne(n, size);
    } else if n == 0 {
      DivUnique(size - 1, size, 0, size - 1);
    } else {
      var q, r := (n + size - 1) / size, (n + size - 1) % size;
      assert n + size - 1 == size * q + r;
      if q <= 1 { MulMonotone(size, q, 1); }
    }
  }

  lemma CeilingStep(n: nat, size: nat)
    requires n > size > 0
    ensures CeilDiv(n, size) == 1 + CeilDiv(n - size, size)
  {
    var q, r := (n - 1) / size, (n - 1) % size;
    assert n - 1 == size * q + r;
    assert n + size - 1 == size * (q + 1) + r;
    DivUnique(n + size - 1, size, q + 1, r);
  }

  /** The least number of pages that holds n rows. */
  lemma CeilingIsLeast(n: nat, size: nat)
    requires size > 0
    ensures n <= CeilDiv(n, size) * size < n + size
  {
    var q, r := (n + size - 1) / size, (n + size - 1) % size;
    assert n + size - 1 == size * q + r;
    assert size * q == q * size;
  }
}
