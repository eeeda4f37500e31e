/** Products, quotients and remainders. */
module Arithmetic {

  lemma Quotient(a: nat, b: nat)
    requires 0 < b <= a
    ensures a / b > 0 && (a / b) * b <= a
  {
  }

  lemma ScaleUp(n: nat, a: int, b: int)
    requires a <= b
    ensures n * a <= n * b
  {
  }

  lemma Cancel(a: nat, b: nat, n: nat)
    requires n > 0 && n * a <= n * b
    ensures a <= b
  {
    if a > b {
      Grow(n, b, a);
    }
  }

  lemma Grow(n: nat, a: nat, b: nat)
    requires a < b
    ensures n * a + n <= n * b
  {
    var k: nat := b - a - 1;
    ScaleUp(n, 0, k);
    assert b == a + 1 + k;
    assert n * (a + 1 + k) == n * a + n + n * k;
  }

  lemma Successor(k: nat, n: nat)
    requires n > 0
    ensures (k + 1) % n == if k % n + 1 == n then 0 else k % n + 1
  {
    var q, r := k / n, k % n;
    assert k == n * q + r;
    if r + 1 == n {
      assert k + 1 == n * (q + 1);
      Remainder(n, q + 1, 0, k + 1);
    } else {
      Remainder(n, q, r + 1, k + 1);
    }
  }

  lemma Remainder(n: int, q: int, r: int, a: int)
    requires 0 <= r < n && a == n * q + r
    ensures a % n == r
  {
    var d := a / n - q;
    assert n * d == r - a % n by {
      assert a == n * (a / n) + a % n;
      assert n * (a / n) - n * q == n * d;
    }
    NoMultiple(n, d);
  }

  lemma NoMultiple(n: int, d: int)
    requires n > 0
    ensures -n < n * d < n ==> d == 0
  {
    if d >= 1 {
      assert n * d >= n * 1;
    } else if d <= -1 {
      assert n * d <= n * -1;
    }
  }
}
