/** Quotients and remainders by a variable divisor. */
module Arithmetic {
  lemma MulAtLeast(n: int, d: int)
    requires n > 0
    ensures d >= 1 ==> n * d >= n
    ensures d <= -1 ==> n * d <= -n
  {
    if d >= 1 {
      assert n * d == n + n * (d - 1);
    } else if d <= -1 {
      assert n * d == -n + n * (d + 1);
    }
  }

  lemma Division(i: nat, q: nat, r: nat, n: nat)
    requires r < n && i == q * n + r
    ensures i / n == q && i % n == r
  {
    var d := i / n - q;
    assert n * d == r - i % n by {
      assert i == n * (i / n) + i % n;
      assert n * d == n * (i / n) - n * q;
    }
    MulAtLeast(n, d);
  }

  lemma QuotientBelow(k: nat, n: nat, m: nat)
    requires 0 < n && k < n * m
    ensures k / n < m
  {
    assert n * (k / n - m) == n * (k / n) - n * m;
    MulAtLeast(n, k / n - m);
  }

  lemma Regroup(n: int, c: int, a: int, k: int, s: int)
    ensures (n * c) * a + (n * k + s) == (c * a + k) * n + s
  {}

  lemma Regroup2(m: int, a: int, q: int, s: int)
    ensures m * a + (m * q + s) == (a + q) * m + s
  {}

  lemma Product(a: nat, b: nat)
    ensures a * b >= 0
  {}

  /** A remainder by m determines the remainder by a divisor of m. */
  lemma ModMod(x: nat, m: nat, n: nat)
    requires 0 < n && 0 < m && m % n == 0
    ensures (x % m) % n == x % n
  {
    ModModOf(x, n, m / n, x / m, x % m / n, x % m % n);
  }

  lemma ModModOf(x: nat, n: nat, c: nat, a: nat, k: nat, s: nat)
    requires s < n && x == (n * c) * a + (n * k + s)
    ensures x % n == s
  {
    Regroup(n, c, a, k, s);
    Product(c, a);
    Division(x, c * a + k, s, n);
  }

  /** Adding with a carry: quotient and remainder of a sum. */
  lemma SumDivMod(x: nat, y: nat, m: nat)
    requires 0 < m
    ensures (x + y) % m == (x % m + y) % m
    ensures (x + y) / m == x / m + (x % m + y) / m
  {
    var t := x % m + y;
    SumDivModOf(x + y, m, x / m, t / m, t % m);
  }

  lemma SumDivModOf(z: nat, m: nat, a: nat, q: nat, s: nat)
    requires s < m && z == m * a + (m * q + s)
    ensures z % m == s && z / m == a + q
  {
    Regroup2(m, a, q, s);
    Division(z, a + q, s, m);
  }

  /** Adding less than m changes a remainder by m unless it adds nothing. */
  lemma ModMoves(a: nat, e: nat, m: nat)
    requires e < m
    ensures (a + e) % m == a % m <==> e == 0
  {
    SumDivMod(a, e, m);
    var t := a % m;
    if t + e < m {
      Division(t + e, 0, t + e, m);
    } else {
      Division(t + e, 1, t + e - m, m);
    }
  }

  // The same with quotients and remainders by name, which keeps nonlinear terms out of the callers' proofs.

  function Quotient(x: nat, n: nat): nat
    requires 0 < n
  {
    x / n
  }

  function Remainder(x: nat, n: nat): nat
    requires 0 < n
  {
    x % n
  }

  lemma DivMod(x: nat, n: nat)
    requires 0 < n
    ensures x == n * Quotient(x, n) + Remainder(x, n) && Remainder(x, n) < n
  {}

  lemma SumQuotient(x: nat, y: nat, m: nat)
    requires 0 < m
    ensures Remainder(x + y, m) == Remainder(Remainder(x, m) + y, m)
    ensures Quotient(x + y, m) == Quotient(x, m) + Quotient(Remainder(x, m) + y, m)
  {
    SumDivMod(x, y, m);
  }

  lemma RemainderMoves(a: nat, e: nat, m: nat)
    requires e < m
    ensures Remainder(a + e, m) == Remainder(a, m) <==> e == 0
  {
    ModMoves(a, e, m);
  }
}
