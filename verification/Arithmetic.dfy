/** The few nonlinear facts the layouts rest on. */
module Arithmetic {

  lemma MulGap(n: nat, a: nat, b: nat)
    requires a < b
    ensures a * n + n <= b * n
  {
    assert b * n == a * n + (b - a) * n;
    assert (b - a) * n >= n by { assert b - a >= 1; MulAtLeast(b - a, n); }
  }

  lemma MulAtLeast(k: nat, n: nat)
    requires k >= 1
    ensures k * n >= n
  {
    assert k * n == (k - 1) * n + n;
  }

  /** Row-major positions are distinct. */
  lemma PairInjective(n: nat, a: nat, b: nat, c: nat, d: nat)
    requires b < n && d < n && a * n + b == c * n + d
    ensures a == c && b == d
  {
    if a < c {
      MulGap(n, a, c);
    } else if c < a {
      MulGap(n, c, a);
    }
  }

  /** Row-major positions decompose again. */
  lemma DivModOf(n: nat, a: nat, b: nat)
    requires b < n
    ensures (a * n + b) / n == a && (a * n + b) % n == b
  {
    var x := a * n + b;
    assert x == x / n * n + x % n;
    PairInjective(n, a, b, x / n, x % n);
  }

  lemma PairBound(n: nat, m: nat, a: nat, b: nat)
    requires a < m && b < n
    ensures a * n + b < m * n
  {
    MulGap(n, a, m);
  }

  /** The same one level deeper: `m` rows of `n`, and rows of `size == m * n` above them. */
  lemma Nested(n: nat, m: nat, size: nat, d: nat, a: nat, b: nat)
    requires a < m && b < n && size == m * n
    ensures a * n + b < size
    ensures forall w: nat :: d < w ==> d * size + (a * n + b) < w * size
  {
    PairBound(n, m, a, b);
    var x := a * n + b;
    forall w: nat | d < w ensures d * size + x < w * size { PairBound(size, w, d, x); }
  }

  lemma NestedApart(n: nat, size: nat, d: nat, a: nat, b: nat, d': nat, a': nat, b': nat)
    requires b < n && b' < n && a * n + b < size && a' * n + b' < size
    ensures d * size + (a * n + b) == d' * size + (a' * n + b') <==> d == d' && a == a' && b == b'
  {
    var x, x' := a * n + b, a' * n + b';
    if d * size + x == d' * size + x' {
      PairInjective(size, d, x, d', x');
      PairInjective(n, a, b, a', b');
    }
  }

  lemma DivBound(n: nat, m: nat, x: nat)
    requires n > 0 && x < m * n
    ensures x / n < m
  {
    assert x == x / n * n + x % n;
    if x / n >= m {
      if x / n > m { MulGap(n, m, x / n); }
    }
  }

  function Min(a: int, b: int): int { if a < b then a else b }

  function Max(a: int, b: int): int { if a < b then b else a }

  /** `(x + n - 1) // n`. */
  function CeilDiv(x: nat, n: nat): nat
    requires n > 0
  {
    (x + n - 1) / n
  }

  /** It is the least `q` with `q * n >= x`. */
  lemma CeilDivMeans(x: nat, n: nat)
    requires n > 0
    ensures x <= CeilDiv(x, n) * n < x + n
  {
    var y := x + n - 1;
    assert y == y / n * n + y % n;
  }

  lemma CeilDivAtMost(x: nat, n: nat, q: nat)
    requires n > 0
    ensures CeilDiv(x, n) <= q <==> x <= q * n
  {
    CeilDivMeans(x, n);
    var c := CeilDiv(x, n);
    if c > q { MulGap(n, q, c); } else if c < q { MulGap(n, c, q); }
  }

  /** A share rounded up by less than `a` still covers, and `a` less does not. */
  lemma RoundedShare(x: nat, n: nat, a: nat, r: nat)
    requires x > 0 && n > 0 && a > 0 && CeilDiv(x, n) <= r < CeilDiv(x, n) + a
    ensures r * n >= x && (r - a) * n < x
  {
    CeilDivAtMost(x, n, r);
    if r >= a {
      CeilDivAtMost(x, n, r - a);
    } else {
      MulAtLeast(n, a - r);
      assert (r - a) * n == -((a - r) * n);
    }
  }

  /** The place of peer `i` in the order that starts just after `me`. */
  function Turn(g: nat, me: nat, i: int): int
    requires g > 0
  {
    (i + g - me - 1) % g
  }

  lemma ModTwice(x: nat, g: nat)
    requires x < 2 * g
    ensures x % g == if x < g then x else x - g
  {
    if x < g { DivModOf(g, 0, x); } else { DivModOf(g, 1, x - g); }
  }

  /** The rotation `(delta + me + 1) % g` of the kernels visits every peer once. */
  lemma Swizzle(g: nat, me: nat, i: nat, delta: nat)
    requires me < g && i < g && delta < g
    ensures 0 <= Turn(g, me, i) < g
    ensures (delta + me + 1) % g == i <==> delta == Turn(g, me, i)
  {
    ModTwice(i + g - me - 1, g);
    ModTwice(delta + me + 1, g);
  }
}
