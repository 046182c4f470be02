/**
 * Quotients and remainders.
 */
module Division {

  lemma MulAtLeast(k: int, d: nat)
    requires k >= 1
    ensures k * d >= d
  {
  }

  lemma DivMod(x: nat, d: nat, k: nat, r: nat)
    requires d > 0 && r < d && x == k * d + r
    ensures x / d == k && x % d == r
  {
    var q, s := x / d, x % d;
    assert x == q * d + s;
    assert (q - k) * d == r - s;
    if q > k { MulAtLeast(q - k, d); }
    assert (k - q) * d == s - r;
    if q < k { MulAtLeast(k - q, d); }
  }

  /** Adding a multiple does not change the remainder. */
  lemma AddMultiple(a: nat, b: nat, d: nat)
    requires d > 0 && a % d == 0
    ensures (a + b) % d == b % d
  {
    var k, q := a / d, b / d;
    assert a == k * d && b == q * d + b % d;
    assert (k + q) * d == k * d + q * d;
    DivMod(a + b, d, k + q, b % d);
  }
}
