/** Facts about multiplication and the Euclidean remainder used by the cursor and frame arithmetic. */
module Arith {
  /** The remainder is the unique r in [0, n) with x == q * n + r. */
  lemma ModUnique(x: int, q: int, r: int, n: int)
    requires 0 < n && 0 <= r < n && x == q * n + r
    ensures x % n == r && x / n == q
  {
    var q0, r0 := x / n, x % n;
    assert (q - q0) * n == r0 - r;
    if q - q0 > 0 {
      MulAtLeast(q - q0, n);
    } else if q - q0 < 0 {
      MulAtLeast(q0 - q, n);
    }
  }

  lemma {:induction false} MulAtLeast(d: int, n: int)
    requires 1 <= d && 0 < n
    ensures n <= d * n
    decreases d
  {
    if d > 1 {
      MulAtLeast(d - 1, n);
      assert d * n == (d - 1) * n + n;
    }
  }

  /** Reducing mod n before adding does not change the remainder. */
  lemma ModAdd(a: int, b: int, n: int)
    requires 0 < n
    ensures (a % n + b) % n == (a + b) % n
  {
    var q, r := a / n, a % n;
    var q2, r2 := (r + b) / n, (r + b) % n;
    assert a + b == (q + q2) * n + r2;
    ModUnique(a + b, q + q2, r2, n);
  }

  /** Multiplying by a natural number keeps an ordering. */
  lemma {:induction false} MulMonotone(k: nat, a: int, b: int)
    requires a <= b
    ensures k * a <= k * b
    decreases k
  {
    if k > 0 {
      MulMonotone(k - 1, a, b);
      MulSucc(k - 1, a);
      MulSucc(k - 1, b);
    }
  }

  /** Multiplying by a successor adds one more factor. */
  lemma MulSucc(a: int, b: int)
    ensures (a + 1) * b == a * b + b
  {
  }
}
