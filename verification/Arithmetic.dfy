/** Facts about products and quotients. */
module Arithmetic {
  lemma Multiply(a: int, b: int, n: int)
    requires a < b && n > 0
    ensures a * n + n <= b * n
  {
    assert b * n - a * n == (b - a) * n;
    assert (b - a - 1) * n >= 0;
  }

  lemma DivMod(n: int, q: int, r: int)
    requires 0 <= r < n
    ensures (q * n + r) / n == q && (q * n + r) % n == r
  {
    var d := (q * n + r) / n;
    assert q * n + r == d * n + (q * n + r) % n;
    if d < q {
      Multiply(d, q, n);
    } else if q < d {
      Multiply(q, d, n);
    }
  }

  lemma AddMultiple(n: int, y: int, x: int)
    requires n > 0
    ensures (y * n + x) % n == x % n
  {
    var q, r := x / n, x % n;
    assert x == q * n + r;
    assert y * n + q * n == (y + q) * n;
    DivMod(n, y + q, r);
  }

  lemma ModStep(n: int, x: int)
    requires n > 0
    ensures (x % n + 1) % n == (x + 1) % n
  {
    var q, r := x / n, x % n;
    assert x + 1 == q * n + (r + 1);
    AddMultiple(n, q, r + 1);
  }

  /** Wrapping at a multiple of `n` does not disturb remainders. */
  lemma ModMod(n: int, c: int, x: int)
    requires n > 0 && c > 0
    ensures x % (c * n) % n == x % n
  {
    assert c * n > 0;
    var a, b := x / (c * n), x % (c * n);
    assert x == a * (c * n) + b == (a * c) * n + b;
    AddMultiple(n, a * c, b);
  }
}
