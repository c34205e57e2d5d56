/** Facts about remainders that the solver does not find by itself. */
module Arithmetic {

  lemma Regroup(q: nat, n: nat)
    ensures q * (2 * n) == (2 * q) * n && (2 * q + 1) * n == (2 * q) * n + n
  {
  }

  lemma Divide(x: nat, n: nat) returns (q: nat, r: nat)
    requires n > 0
    ensures x == q * n + r && r == x % n && r < n
  {
    q, r := x / n, x % n;
  }

  /** The remainder by n, when x was divided by twice n. */
  lemma RemainderByHalf(x: nat, n: nat, q: nat, r: nat)
    requires n > 0 && x == q * (2 * n) + r && r < 2 * n
    ensures x % n == r % n == if r < n then r else r - n
  {
    Regroup(q, n);
    if r < n {
      RemainderIs(x, n, 2 * q, r);
      RemainderIs(r, n, 0, r);
    } else {
      RemainderIs(x, n, 2 * q + 1, r - n);
      RemainderIs(r, n, 1, r - n);
    }
  }

  lemma RemainderIs(x: nat, n: nat, q: nat, r: nat)
    requires n > 0 && x == q * n + r && r < n
    ensures x % n == r
  {
    var d := q - x / n;
    assert d >= 1 ==> d * n >= n;
    assert d <= -1 ==> d * n <= 0 - n;
    assert x == n * (x / n) + x % n;
    assert d * n == x % n - r;
  }
}
