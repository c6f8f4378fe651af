/** Remainders, in the small steps the ring buffers need. */
module Arithmetic {

  lemma NoSmallMultiple(d: int, n: nat)
    ensures !(0 < d * n < n)
  {
    if d >= 1 {
      assert d * n == (d - 1) * n + n;
      assert (d - 1) * n >= 0;
    } else {
      assert d * n <= 0;
    }
  }

  /** A quotient and a remainder in range are the only ones. */
  lemma RemainderIs(x: nat, n: nat, q: int, r: nat)
    requires r < n && x == q * n + r
    ensures x % n == r
  {
    var d := x / n;
    assert x == d * n + x % n;
    assert (d - q) * n == d * n - q * n;
    assert (q - d) * n == q * n - d * n;
    NoSmallMultiple(d - q, n);
    NoSmallMultiple(q - d, n);
  }
}
