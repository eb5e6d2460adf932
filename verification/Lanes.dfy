/** What the copy kernels share: the masked vector store, and programs that advance in any
    order. */
module Lanes {
  import opened Arithmetic

  /** One lane: `n` consecutive bytes. */
  method StoreElement(src: seq<bv8>, dst: array<bv8>, from: nat, to: nat, n: nat)
    requires from + n <= |src| && to + n <= dst.Length
    modifies dst
    ensures forall j :: 0 <= j < dst.Length ==>
      dst[j] == if to <= j < to + n then src[from + (j - to)] else old(dst[j])
  {
    forall k | 0 <= k < n {
      dst[to + k] := src[from + k];
    }
  }

  /** `block` lanes of `elt` bytes from element `first` on; lanes at or past `full` are masked. */
  method StoreLanes(src: seq<bv8>, dst: array<bv8>, from: nat, to: nat, first: nat, block: nat, full: nat, elt: nat)
    requires first <= full
    requires from + full * elt <= |src| && to + full * elt <= dst.Length
    modifies dst
    ensures forall j :: 0 <= j < dst.Length ==>
      dst[j] == if to + first * elt <= j < to + Min(first + block, full) * elt then src[from + (j - to)]
          else old(dst[j])
  {
    ghost var lo := first * elt;
    ghost var done := lo;
    for lane := 0 to block
      invariant lo <= done == Min(first + lane, full) * elt
      invariant forall j :: 0 <= j < dst.Length ==>
        dst[j] == if to + lo <= j < to + done then src[from + (j - to)] else old(dst[j])
    {
      var e := first + lane;
      if e < full {
        MulGap(elt, e, full);
        StoreElement(src, dst, from + e * elt, to + e * elt, elt);
        assert (e + 1) * elt == e * elt + elt;
        done := done + elt;
      }
    }
  }

  // ------------------------------------------------- programs in any order

  function Upto(n: nat): (s: set<int>)
    ensures forall p :: p in s <==> 0 <= p < n
  {
    if n == 0 then {} else Upto(n - 1) + {n - 1}
  }

  /** What the programs have still to do before each reaches its limit. */
  function Pending(next: seq<nat>, limits: seq<nat>): nat
    requires |limits| == |next|
  {
    if next == [] then 0
    else
      var p := |next| - 1;
      Pending(next[..p], limits[..p]) + if next[p] < limits[p] then limits[p] - next[p] else 0
  }

  /** Moving one program that is below its limit forward leaves less. */
  lemma {:induction false} PendingLess(next: seq<nat>, limits: seq<nat>, p: nat, further: nat)
    requires |limits| == |next| && p < |next| && next[p] < limits[p] && next[p] < further
    ensures Pending(next[p := further], limits) < Pending(next, limits)
  {
    var m := |next| - 1;
    if p < m {
      PendingLess(next[..m], limits[..m], p, further);
      assert next[p := further][..m] == next[..m][p := further];
    } else {
      assert next[p := further][..m] == next[..m];
    }
  }
}
