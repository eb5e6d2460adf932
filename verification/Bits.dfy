/** Bit tricks of the host arithmetic, on unbounded naturals: masks that round to a power
    of two and the lowest set bit. */
module Bits {
  import opened Arithmetic

  function Pow2(n: nat): (p: nat)
    ensures p > 0
  {
    if n == 0 then 1 else 2 * Pow2(n - 1)
  }

  /** The bitwise `x & y`. */
  function BitAnd(x: nat, y: nat): nat
    decreases x
  {
    if x == 0 || y == 0 then 0
    else 2 * BitAnd(x / 2, y / 2) + (if x % 2 == 1 && y % 2 == 1 then 1 else 0)
  }

  lemma {:induction false} BitAndBelow(x: nat, y: nat)
    ensures BitAnd(x, y) <= x
    decreases x
  {
    if x != 0 && y != 0 { BitAndBelow(x / 2, y / 2); }
  }

  /** The bitwise `x & ~y`. */
  function AndNot(x: nat, y: nat): (r: nat)
    ensures r <= x
  {
    BitAndBelow(x, y);
    x - BitAnd(x, y)
  }

  lemma {:induction false} BitAndSelf(x: nat)
    ensures BitAnd(x, x) == x
  {
    if x != 0 { BitAndSelf(x / 2); }
  }

  lemma HalfMod(x: nat, p: nat)
    requires p > 0
    ensures x % (2 * p) == 2 * (x / 2 % p) + x % 2
  {
    var h, r := x / 2, x % 2;
    assert h == h / p * p + h % p;
    assert x == (h / p) * (2 * p) + (2 * (h % p) + r);
    DivModOf(2 * p, h / p, 2 * (h % p) + r);
  }

  /** Masking with one less than a power of two is the remainder. */
  lemma {:induction false} MaskIsRemainder(x: nat, n: nat)
    ensures BitAnd(x, Pow2(n) - 1) == x % Pow2(n)
    decreases n
  {
    if n > 0 && x > 0 {
      MaskIsRemainder(x / 2, n - 1);
      HalfMod(x, Pow2(n - 1));
      assert (Pow2(n) - 1) / 2 == Pow2(n - 1) - 1 && (Pow2(n) - 1) % 2 == 1;
    } else if x == 0 {
      assert x % Pow2(n) == 0;
    }
  }

  /** `(x + a - 1) & ~(a - 1)`, as the launchers and the chunk layout round up. */
  function AlignUp(x: nat, a: nat): nat
    requires a > 0
  {
    AndNot(x + a - 1, a - 1)
  }

  ghost predicate IsPow2(a: nat) {
    exists n: nat :: a == Pow2(n)
  }

  /** For a power of two that is the least multiple not below `x`. */
  lemma AlignUpMeans(x: nat, a: nat)
    requires a > 0 && IsPow2(a)
    ensures AlignUp(x, a) % a == 0
    ensures x <= AlignUp(x, a) < x + a
  {
    var n: nat :| a == Pow2(n);
    AlignUpRounds(x, n);
    RoundDown(x + a - 1, a);
  }

  lemma AlignUpRounds(x: nat, n: nat)
    ensures var y := x + Pow2(n) - 1; AlignUp(x, Pow2(n)) == y - y % Pow2(n)
  {
    MaskIsRemainder(x + Pow2(n) - 1, n);
  }

  lemma RoundDown(y: nat, a: nat)
    requires a > 0
    ensures (y - y % a) % a == 0 && y - a < y - y % a <= y
  {
    assert y == y / a * a + y % a;
    DivModOf(a, y / a, 0);
  }

  /** The largest power of two that divides `v`. */
  function LowBit(v: nat): (b: nat)
    requires v > 0
    ensures 0 < b <= v
  {
    if v % 2 == 1 then 1 else 2 * LowBit(v / 2)
  }

  /** `v & -v`, which is `v & ~(v - 1)`, is the lowest set bit. */
  lemma {:induction false} LowBitIsMask(v: nat)
    requires v > 0
    ensures AndNot(v, v - 1) == LowBit(v)
  {
    if v % 2 == 1 {
      if v > 1 { BitAndSelf(v / 2); assert (v - 1) / 2 == v / 2; }
    } else {
      LowBitIsMask(v / 2);
      assert (v - 1) / 2 == v / 2 - 1;
    }
  }

  lemma {:induction false} LowBitPow2(v: nat)
    requires v > 0
    ensures IsPow2(LowBit(v))
  {
    if v % 2 == 1 {
      assert LowBit(v) == Pow2(0);
    } else {
      LowBitPow2(v / 2);
      var n: nat :| LowBit(v / 2) == Pow2(n);
      assert LowBit(v) == Pow2(n + 1);
    }
  }
}
