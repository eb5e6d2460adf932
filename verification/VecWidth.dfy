/** Vector widths: the gcd test of the launchers and the alignment of every address. */
module VecWidth {
  import opened Arithmetic
  import opened Bits

  ghost predicate Divides(d: nat, n: nat) {
    exists k: nat :: n == k * d
  }

  lemma DividesBy(d: nat, n: nat, k: nat)
    requires n == k * d
    ensures Divides(d, n)
  {
  }

  lemma DividesIsMod(d: nat, n: nat)
    requires d > 0
    ensures Divides(d, n) <==> n % d == 0
  {
    assert n == n / d * d + n % d;
    if n % d == 0 { DividesBy(d, n, n / d); }
    if Divides(d, n) {
      var k: nat :| n == k * d;
      DivModOf(d, k, 0);
    }
  }

  lemma DividesSum(d: nat, a: nat, b: nat)
    requires Divides(d, a) && Divides(d, b)
    ensures Divides(d, a + b)
  {
    var i: nat, j: nat :| a == i * d && b == j * d;
    assert a + b == (i + j) * d;
  }

  lemma DividesMultiple(d: nat, a: nat, k: nat)
    requires Divides(d, a)
    ensures Divides(d, k * a)
  {
    var i: nat :| a == i * d;
    assert k * a == (k * i) * d;
  }

  lemma DividesRest(d: nat, a: nat, b: nat)
    requires Divides(d, a + b) && Divides(d, a)
    ensures Divides(d, b)
  {
    var i: nat, j: nat :| a + b == i * d && a == j * d;
    if i < j { MulGap(d, i, j); }
    if i >= j {
      assert b == (i - j) * d;
    } else {
      assert b == 0 * d;
    }
  }

  lemma DividesTrans(d: nat, e: nat, n: nat)
    requires Divides(d, e) && Divides(e, n)
    ensures Divides(d, n)
  {
    var k: nat :| n == k * e;
    DividesMultiple(d, e, k);
  }

  // ---------------------------------------------------------------------- gcd

  function Gcd(a: nat, b: nat): nat
    decreases b
  {
    if b == 0 then a else Gcd(b, a % b)
  }

  /** The gcd divides both, and every common divisor divides it. */
  lemma {:induction false} GcdUniversal(a: nat, b: nat, d: nat)
    ensures Divides(d, Gcd(a, b)) <==> Divides(d, a) && Divides(d, b)
    decreases b
  {
    if b == 0 {
      DividesBy(d, 0, 0);
    } else {
      GcdUniversal(b, a % b, d);
      assert a == a / b * b + a % b;
      if Divides(d, b) {
        DividesMultiple(d, b, a / b);
        if Divides(d, a % b) { DividesSum(d, a / b * b, a % b); }
        if Divides(d, a) { DividesRest(d, a / b * b, a % b); }
      }
    }
  }

  /** The accumulator of the width test: 0 before the first input. */
  function GcdAll(s: seq<int>): nat
    requires forall i :: 0 <= i < |s| ==> s[i] > 0
  {
    if s == [] then 0
    else
      var g := GcdAll(s[..|s| - 1]);
      if g == 0 then s[|s| - 1] else Gcd(g, s[|s| - 1])
  }

  lemma {:induction false} GcdAllUniversal(s: seq<int>, d: nat)
    requires forall i :: 0 <= i < |s| ==> s[i] > 0
    requires s != []
    ensures GcdAll(s) > 0
    ensures Divides(d, GcdAll(s)) <==> forall i :: 0 <= i < |s| ==> Divides(d, s[i])
  {
    var n := |s| - 1;
    assert forall i :: 0 <= i < n ==> s[..n][i] == s[i];
    if n > 0 {
      GcdAllUniversal(s[..n], d);
      var g := GcdAll(s[..n]);
      GcdUniversal(g, s[n], d);
      if Gcd(g, s[n]) == 0 {
        GcdUniversal(g, s[n], 0);
        DividesBy(0, 0, 0);
        assert false;
      }
    }
  }

  predicate Supported(w: nat) { w == 1 || w == 4 || w == 8 || w == 16 }

  function Width(g: nat): (w: nat)
    ensures Supported(w)
  {
    if g >= 16 then 16 else if g >= 8 then 8 else if g >= 4 then 4 else 1
  }

  /** The width the launchers compute, by folding a gcd and comparing it with 16, 8, 4. */
  method VecWidthBytes(alignments: seq<int>) returns (w: nat)
    ensures (exists i :: 0 <= i < |alignments| && alignments[i] <= 0) ==> w == 1
    ensures (forall i :: 0 <= i < |alignments| ==> alignments[i] > 0) ==> w == Width(GcdAll(alignments))
  {
    var align := 0;
    for i := 0 to |alignments|
      invariant forall j :: 0 <= j < i ==> alignments[j] > 0
      invariant align == GcdAll(alignments[..i])
    {
      var a := alignments[i];
      if a <= 0 {
        return 1;
      }
      align := if align == 0 then a else Gcd(align, a);
      assert alignments[..i + 1][..i] == alignments[..i];
    }
    assert alignments[..|alignments|] == alignments;
    if align >= 16 {
      return 16;
    }
    if align >= 8 {
      return 8;
    }
    if align >= 4 {
      return 4;
    }
    return 1;
  }

  /** Exactly when the chosen width divides all its inputs, as the helper's description
      says it always does: the gcd is below 4, is 4 or 8, or is a multiple of 16. */
  lemma WidthDividesExactly(s: seq<int>)
    requires s != [] && forall i :: 0 <= i < |s| ==> s[i] > 0
    ensures var g := GcdAll(s);
      (forall i :: 0 <= i < |s| ==> s[i] % Width(g) == 0) <==> (g < 4 || g == 4 || g == 8 || g % 16 == 0)
  {
    var g := GcdAll(s);
    var w := Width(g);
    GcdAllUniversal(s, w);
    DividesIsMod(w, g);
    forall i | 0 <= i < |s| ensures s[i] % w == 0 <==> Divides(w, s[i]) { DividesIsMod(w, s[i]); }
  }

  /** It is never narrower than it could be: a supported width that divides all inputs is
      at most the chosen one. */
  lemma WidthIsWidest(s: seq<int>, w: nat)
    requires s != [] && forall i :: 0 <= i < |s| ==> s[i] > 0
    requires Supported(w) && forall i :: 0 <= i < |s| ==> s[i] % w == 0
    ensures w <= Width(GcdAll(s))
  {
    var g := GcdAll(s);
    forall i | 0 <= i < |s| ensures Divides(w, s[i]) { DividesIsMod(w, s[i]); }
    GcdAllUniversal(s, w);
    var k: nat :| g == k * w;
    MulAtLeast(k, w);
  }

  /** 24 is an input on which the description fails. */
  lemma WidthOf24()
    ensures Width(GcdAll([24])) == 16 && 24 % 16 != 0
  {
    assert [24][..0] == [];
  }

  // ------------------------------------------------- inputs with a power of two

  lemma {:induction false} Pow2Divisor(n: nat, g: nat)
    requires Divides(g, Pow2(n))
    ensures IsPow2(g)
  {
    var k: nat :| Pow2(n) == k * g;
    if n == 0 {
      DividesOne(k, g);
      assert g == Pow2(0);
    } else if k % 2 == 0 {
      hide IsPow2;
      HalfLeft(Pow2(n - 1), k, g);
      DividesBy(g, Pow2(n - 1), k / 2);
      Pow2Divisor(n - 1, g);
    } else {
      hide IsPow2;
      OddTimes(k, g);
      HalfRight(Pow2(n - 1), k, g);
      DividesBy(g / 2, Pow2(n - 1), k);
      Pow2Divisor(n - 1, g / 2);
      TwiceIsPow2(g);
    }
  }

  lemma DividesOne(k: nat, g: nat)
    requires k * g == 1
    ensures g == 1
  {
    if g >= 2 { MulGap(g, 0, k); }
  }

  lemma HalfLeft(p: nat, k: nat, g: nat)
    requires 2 * p == k * g && k % 2 == 0
    ensures p == k / 2 * g
  {
    assert k == 2 * (k / 2);
    assert (2 * (k / 2)) * g == 2 * (k / 2 * g);
  }

  lemma HalfRight(p: nat, k: nat, g: nat)
    requires 2 * p == k * g && g % 2 == 0
    ensures p == k * (g / 2)
  {
    HalfLeft(p, g, k);
  }

  lemma TwiceIsPow2(g: nat)
    requires g % 2 == 0 && IsPow2(g / 2)
    ensures IsPow2(g)
  {
    var m: nat :| g / 2 == Pow2(m);
    assert g == Pow2(m + 1);
  }

  lemma OddTimes(k: nat, g: nat)
    requires k % 2 == 1
    ensures k * g % 2 == g % 2
  {
    assert k == 2 * (k / 2) + 1;
    assert (2 * (k / 2) + 1) * g == 2 * (k / 2 * g) + g;
  }

  lemma {:induction false} Pow2Width(n: nat)
    ensures Divides(Width(Pow2(n)), Pow2(n))
    decreases n
  {
    if n <= 4 {
      assert Pow2(0) == 1 && Pow2(1) == 2 && Pow2(2) == 4 && Pow2(3) == 8 && Pow2(4) == 16;
      DividesBy(Width(Pow2(n)), Pow2(n), if n < 2 then Pow2(n) else 1);
    } else {
      Pow2Width(n - 1);
      Pow2AtLeast16(n - 1);
      DividesMultiple(16, Pow2(n - 1), 2);
    }
  }

  lemma {:induction false} Pow2AtLeast16(n: nat)
    requires n >= 4
    ensures Pow2(n) >= 16
  {
    if n > 4 { Pow2AtLeast16(n - 1); } else { assert Pow2(3) == 8; }
  }

  /** When one input is a power of two the width divides every input. */
  lemma PowerOfTwoSuffices(s: seq<int>, i: nat)
    requires i < |s| && forall j :: 0 <= j < |s| ==> s[j] > 0
    requires IsPow2(s[i])
    ensures forall j :: 0 <= j < |s| ==> Divides(Width(GcdAll(s)), s[j])
  {
    var g := GcdAll(s);
    DividesBy(g, g, 1);
    GcdAllUniversal(s, g);
    var n: nat :| s[i] == Pow2(n);
    Pow2Divisor(n, g);
    var m: nat :| g == Pow2(m);
    Pow2Width(m);
    GcdAllUniversal(s, Width(g));
  }

  // --------------------------------------------------------- runtime callers

  /** `base_alignment`: the lowest set bit of an address, a huge power of two for null. */
  function BaseAlignment(addr: nat): (a: nat)
    ensures a > 0
  {
    if addr == 0 then 0x4000_0000_0000_0000 else LowBit(addr)
  }

  lemma BaseAlignmentPow2(addr: nat)
    ensures IsPow2(BaseAlignment(addr)) && Divides(BaseAlignment(addr), addr)
  {
    if addr == 0 {
      Pow2Of62();
      DividesBy(BaseAlignment(0), 0, 0);
    } else {
      LowBitPow2(addr);
      LowBitDivides(addr);
    }
  }

  lemma Pow2Of62()
    ensures Pow2(62) == 0x4000_0000_0000_0000
  {
    SmallPowers();
    hide Pow2;
    Pow2Sum(8, 8);
    Pow2Sum(16, 16);
    Pow2Sum(32, 16);
    Pow2Sum(48, 8);
    Pow2Sum(56, 6);
  }

  lemma SmallPowers()
    ensures Pow2(6) == 64 && Pow2(8) == 256
  {
    assert Pow2(3) == 8 && Pow2(6) == 64;
  }

  lemma {:induction false} Pow2Sum(m: nat, n: nat)
    ensures Pow2(m + n) == Pow2(m) * Pow2(n)
    decreases n
  {
    if n > 0 {
      Pow2Sum(m, n - 1);
      assert Pow2(m) * (2 * Pow2(n - 1)) == 2 * (Pow2(m) * Pow2(n - 1));
    }
  }

  lemma {:induction false} LowBitDivides(v: nat)
    requires v > 0
    ensures Divides(LowBit(v), v)
  {
    if v % 2 == 1 {
      DividesBy(1, v, v);
    } else {
      LowBitDivides(v / 2);
      var k: nat :| v / 2 == k * LowBit(v / 2);
      assert v == k * (2 * LowBit(v / 2));
    }
  }

  /** The inputs `_vec_for` hands to the width test: the alignment of every address but
      the last argument, which is a size and goes in raw. */
  function VecForInputs(ptrs: seq<nat>, size: nat): (s: seq<int>)
    ensures |s| == |ptrs| + 1
  {
    seq(|ptrs| + 1, i requires 0 <= i <= |ptrs| => if i < |ptrs| then BaseAlignment(ptrs[i]) else size)
  }

  function VecFor(ptrs: seq<nat>, size: nat): nat
    requires size > 0
  {
    Width(GcdAll(VecForInputs(ptrs, size)))
  }

  /** With at least one address the width divides every address and the size itself. */
  lemma VecForDivides(ptrs: seq<nat>, size: nat)
    requires ptrs != [] && size > 0
    ensures forall i :: 0 <= i < |ptrs| ==> Divides(VecFor(ptrs, size), ptrs[i])
    ensures Divides(VecFor(ptrs, size), size)
  {
    var s := VecForInputs(ptrs, size);
    var w := VecFor(ptrs, size);
    BaseAlignmentPow2(ptrs[0]);
    PowerOfTwoSuffices(s, 0);
    assert Divides(w, s[|ptrs|]);
    forall i | 0 <= i < |ptrs| ensures Divides(w, ptrs[i]) {
      assert Divides(w, s[i]);
      BaseAlignmentPow2(ptrs[i]);
      DividesTrans(w, BaseAlignment(ptrs[i]), ptrs[i]);
    }
  }

  lemma {:induction false} LowBitMultiple(v: nat, n: nat)
    requires v > 0 && Divides(Pow2(n), v)
    ensures Divides(Pow2(n), LowBit(v))
  {
    var k: nat :| v == k * Pow2(n);
    if n == 0 {
      DividesBy(1, LowBit(v), LowBit(v));
    } else {
      var h := Pow2(n - 1);
      assert v == 2 * (k * h);
      DividesBy(h, v / 2, k);
      LowBitMultiple(v / 2, n - 1);
      var j: nat :| LowBit(v / 2) == j * h;
      DividesBy(Pow2(n), LowBit(v), j);
    }
  }

  /** A supported width that divides an address divides its alignment. */
  lemma WidthOfBase(w: nat, addr: nat)
    requires Supported(w) && Divides(w, addr)
    ensures BaseAlignment(addr) % w == 0
  {
    if addr > 0 {
      assert Pow2(0) == 1 && Pow2(1) == 2 && Pow2(2) == 4 && Pow2(3) == 8 && Pow2(4) == 16;
      LowBitMultiple(addr, if w == 1 then 0 else if w == 4 then 2 else if w == 8 then 3 else 4);
      DividesIsMod(w, LowBit(addr));
    }
  }

  /** And no wider supported width does. */
  lemma VecForWidest(ptrs: seq<nat>, size: nat, w: nat)
    requires size > 0 && Supported(w) && Divides(w, size)
    requires forall i :: 0 <= i < |ptrs| ==> Divides(w, ptrs[i])
    ensures w <= VecFor(ptrs, size)
  {
    var s := VecForInputs(ptrs, size);
    forall i | 0 <= i < |s| ensures s[i] % w == 0 {
      if i < |ptrs| { WidthOfBase(w, ptrs[i]); } else { DividesIsMod(w, size); }
    }
    WidthIsWidest(s, w);
  }

  /** `_pick_vec_bytes` hands three lowest set bits to the width test. */
  function PickVec(input: nat, output: nat, slice: nat): nat {
    Width(GcdAll([BaseAlignment(input), BaseAlignment(output), BaseAlignment(slice)]))
  }

  lemma PickVecDivides(input: nat, output: nat, slice: nat)
    ensures var w := PickVec(input, output, slice);
      Divides(w, input) && Divides(w, output) && Divides(w, slice)
  {
    var s := [BaseAlignment(input), BaseAlignment(output), BaseAlignment(slice)];
    var w := PickVec(input, output, slice);
    BaseAlignmentPow2(input);
    BaseAlignmentPow2(output);
    BaseAlignmentPow2(slice);
    PowerOfTwoSuffices(s, 0);
    assert Divides(w, s[0]) && Divides(w, s[1]) && Divides(w, s[2]);
    DividesTrans(w, s[0], input);
    DividesTrans(w, s[1], output);
    DividesTrans(w, s[2], slice);
  }

  lemma PickVecWidest(input: nat, output: nat, slice: nat, w: nat)
    requires Supported(w) && Divides(w, input) && Divides(w, output) && Divides(w, slice)
    ensures w <= PickVec(input, output, slice)
  {
    WidthOfBase(w, input);
    WidthOfBase(w, output);
    WidthOfBase(w, slice);
    WidthIsWidest([BaseAlignment(input), BaseAlignment(output), BaseAlignment(slice)], w);
  }

  // ------------------------------------------------------- every address used

  lemma Widths16(g: nat)
    ensures Divides(Width(g), 16)
  {
    var w := Width(g);
    DividesBy(w, 16, if w == 16 then 1 else if w == 8 then 2 else if w == 4 then 4 else 16);
  }

  /** A base, a stride taken `i` times, an offset and `e` whole elements stay aligned. */
  lemma AddressAligned(w: nat, base: nat, stride: nat, i: nat, off: nat, e: nat)
    requires Divides(w, base) && Divides(w, stride) && Divides(w, off)
    ensures Divides(w, base + i * stride + off + e * w)
  {
    DividesMultiple(w, stride, i);
    DividesSum(w, base, i * stride);
    DividesSum(w, base + i * stride, off);
    DividesBy(w, e * w, e);
    DividesSum(w, base + i * stride + off, e * w);
  }

  /** One-shot pulls: with comm buffers aligned to 16 on every rank, every load and store
      of every peer, tile and lane is aligned to the chosen width. */
  lemma OneShotAligned(local: nat, peer: nat, output: nat, slice: nat, me: nat, i: nat, e: nat)
    requires slice > 0 && Divides(16, local) && Divides(16, peer)
    ensures var w := VecFor([local, output], slice);
      && Divides(w, peer + me * slice + e * w)
      && Divides(w, output + i * slice + e * w)
  {
    var w := VecFor([local, output], slice);
    VecForDivides([local, output], slice);
    assert Divides(w, [local, output][1]);
    Widths16(GcdAll(VecForInputs([local, output], slice)));
    DividesTrans(w, 16, peer);
    DividesBy(w, 0, 0);
    AddressAligned(w, peer, slice, me, 0, e);
    AddressAligned(w, output, slice, i, 0, e);
  }

  /** Pipelined pulls: the same for the piece at `off`, although the piece size differs
      from the stride. `me` is 0 for an all_gather. */
  lemma PipelinedAligned(local: nat, peer: nat, output: nat, slice: nat, size: nat, off: nat, me: nat, i: nat, e: nat)
    requires slice > 0 && size > 0 && Divides(16, local) && Divides(16, peer)
    ensures var w := VecFor([local + me * slice + off, output + off, slice], size);
      && Divides(w, peer + me * slice + off + e * w)
      && Divides(w, output + off + i * slice + e * w)
      && Divides(w, size)
  {
    var ptrs := [local + me * slice + off, output + off, slice];
    var w := VecFor(ptrs, size);
    VecForDivides(ptrs, size);
    assert Divides(w, ptrs[0]) && Divides(w, ptrs[1]) && Divides(w, ptrs[2]);
    Widths16(GcdAll(VecForInputs(ptrs, size)));
    DividesTrans(w, 16, peer);
    DividesTrans(w, 16, local);
    DividesMultiple(w, slice, me);
    DividesSum(w, local, me * slice);
    DividesRest(w, local + me * slice, off);
    DividesBy(w, 0, 0);
    AddressAligned(w, peer, slice, me, off, e);
    AddressAligned(w, output + off, slice, i, 0, e);
  }

  /** Fused copies: every slice, channel, chunk and lane of the input, the output or any comm
      buffer (whichever `buffer` is), when partition and chunk sizes are multiples of 16. */
  lemma FusedAligned(input: nat, output: nat, slice: nat, buffer: nat, t: nat, ch: nat, partition: nat, k: nat,
      chunk: nat, base: nat, e: nat, w: nat, addr: nat)
    requires buffer == input || buffer == output || Divides(16, buffer)
    requires Divides(16, partition) && Divides(16, chunk) && base == ch * partition + k * chunk
    requires w == PickVec(input, output, slice) && addr == buffer + t * slice + base + e * w
    ensures Divides(w, addr)
  {
    PickVecDivides(input, output, slice);
    Widths16(GcdAll([BaseAlignment(input), BaseAlignment(output), BaseAlignment(slice)]));
    hide PickVec, Divides;
    if Divides(16, buffer) { DividesTrans(w, 16, buffer); }
    DividesTrans(w, 16, partition);
    DividesTrans(w, 16, chunk);
    DividesMultiple(w, partition, ch);
    DividesMultiple(w, chunk, k);
    DividesSum(w, ch * partition, k * chunk);
    AddressAligned(w, buffer, slice, t, base, e);
  }
}
