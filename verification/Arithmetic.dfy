/** Quotients and remainders, without leaving nonlinear terms to the verifier. */
module Arithmetic {

  lemma RemainderIs(t: int, q: int, n: nat, i: nat)
    requires i < n && t == q * n + i
    ensures t % n == i
  {
    SameQuotient(t / n, t % n, q, i, n);
  }

  /** A number below `n` away from a multiple of `n` determines that multiple. */
  lemma SameQuotient(q: int, r: int, q': int, r': int, n: nat)
    requires 0 <= r < n && 0 <= r' < n && q * n + r == q' * n + r'
    ensures q == q' && r == r'
  {
    assert (q - q') * n == r' - r;
    if q > q' { MulAtLeast(q - q', n); }
    if q < q' {
      assert (q' - q) * n == r - r';
      MulAtLeast(q' - q, n);
    }
  }

  lemma MulAtLeast(a: int, n: nat)
    requires a >= 1
    ensures a * n >= n
  {
    assert (a - 1) * n >= 0;
    assert a * n == (a - 1) * n + n;
  }

  lemma SameRemainder(t: nat, u: nat, n: nat)
    requires n > 0 && t % n == u % n && -(n as int) < t - u < n
    ensures t == u
  {
    var a, b := t / n, u / n;
    assert t == a * n + t % n && u == b * n + u % n;
    assert (a - b) * n == t - u;
    if a > b { MulAtLeast(a - b, n); }
    if a < b {
      assert (b - a) * n == u - t;
      MulAtLeast(b - a, n);
    }
  }

  lemma QuotientIs(t: nat, q: nat, n: nat, i: nat)
    requires i < n && t == q * n + i
    ensures t / n == q
  {
    SameQuotient(t / n, t % n, q, i, n);
  }

  /** Dividing by ten and then by `m` is dividing by `10 * m`. */
  lemma DivideByTenFirst(t: nat, m: nat)
    requires m > 0
    ensures t / 10 / m == t / (10 * m)
  {
    var q, r := t / 10 / m, t / 10 % m;
    assert t / 10 == q * m + r;
    assert q * (10 * m) == 10 * (q * m);
    QuotientIs(t, q, 10 * m, 10 * r + t % 10);
  }

  lemma DropMultiple(t: nat, m: nat, n: nat)
    requires n > 0 && m % n == 0
    ensures (t + m) % n == t % n
  {
    var a, b := t / n, m / n;
    assert t == a * n + t % n && m == b * n;
    assert (a + b) * n == a * n + b * n;
    RemainderIs(t + m, a + b, n, t % n);
  }

  lemma QuotientBound(n: nat, d: nat, m: nat)
    requires d > 0 && n * d <= m
    ensures n <= m / d
  {
    var q, r := m / d, m % d;
    assert m == q * d + r;
    MulOrder(n, q, d, r);
  }

  /** A multiple of `d` below `q * d + r` with `r < d` is at most the `q`-th. */
  lemma {:induction false} MulOrder(n: nat, q: nat, d: nat, r: nat)
    requires r < d && n * d <= q * d + r
    ensures n <= q
  {
    assert n > 0 ==> n * d >= d;
    if n > 0 && q > 0 {
      assert (n - 1) * d == n * d - d;
      assert (q - 1) * d == q * d - d;
      MulOrder(n - 1, q - 1, d, r);
    }
  }
}
