/** What each byte copy of a call is for: which copy fills a comm-buffer byte, which
    byte every output position must receive, and which copy brings it there. */
module CopyPlan {
  import opened Arithmetic
  import opened Schedule
  import opened Protocol

  /** The one copy that fills address `a` of member `i`'s comm buffer, and its executor. */
  function Writer(op: Op, i: nat, a: nat): (nat, Copy) {
    if op.kind.Put? && i == 1 then (0, PutByte(a)) else (i, Stage(a))
  }

  /** The byte that address `a` of member `i`'s comm buffer holds during the call. */
  function Content(op: Op, i: nat, a: nat): bv8 {
    var j := if op.kind.Put? then 0 else i;
    if j < |op.inputs| && a < |op.inputs[j]| then op.inputs[j][a] else 0
  }

  /** Bytes of output member `me` receives. */
  function OutLen(op: Op, me: nat): nat {
    match op.kind
    case Bare => 0
    case AllGather => |op.ranks| * op.slice
    case AllToAll => |op.ranks| * op.slice
    case Put => if me == 1 then op.slice else 0
    case Get => if me == 1 then op.slice else 0
  }

  /** The byte that output position `o` of member `me` must receive: segment `i` of an
      all_gather is member `i`'s input, segment `i` of an all2all is member `i`'s slice
      for `me`, and a put or get delivers the source's bytes. */
  function OutByte(op: Op, me: nat, o: nat): bv8
    requires op.slice > 0
  {
    match op.kind
    case AllGather => Content(op, o / op.slice, o % op.slice)
    case AllToAll => Content(op, o / op.slice, me * op.slice + o % op.slice)
    case _ => Content(op, 0, o)
  }

  /** The specification of a call, whatever path it takes. */
  function Expected(op: Op, me: nat): (out: seq<bv8>)
    requires op.slice > 0
    ensures |out| == OutLen(op, me)
  {
    seq(OutLen(op, me), o requires 0 <= o => OutByte(op, me, o))
  }

  /** The output position a copy fills, if it fills one. */
  predicate ToOutput(x: Copy) { x.Pull? || x.SelfCopy? || x.CopyOut? }

  function OutAddr(op: Op, me: nat, x: Copy): nat {
    match x
    case Pull(i, off) => i * op.slice + off
    case SelfCopy(off) => me * op.slice + off
    case CopyOut(off) => off
    case _ => 0
  }

  lemma PeerAddress(op: Op, me: nat, off: nat)
    requires me < |op.ranks| && off < op.slice
    ensures Sel(op, me) * op.slice + off < StageLen(op)
    ensures Offset(op, Stage(Sel(op, me) * op.slice + off)) == off
  {
    if op.kind.AllToAll? {
      PairBound(op.slice, |op.ranks|, me, off);
      DivModOf(op.slice, me, off);
    }
  }

  /** A copy that reads a comm buffer reads a byte that some copy of the call fills, in
      the barrier interval just before, or in the same chunk of the fused kernel. */
  lemma SourceHasWriter(sys: System, op: Op, me: nat, x: Copy)
    requires ValidOp(sys, op) && me < |op.ranks| && Valid(op, me, x) && Source(op, me, x).Peer?
    ensures var Peer(i, a) := Source(op, me, x);
      var (e, w) := Writer(op, i, a);
      && i < |op.ranks| && e < |op.ranks| && Valid(op, e, w)
      && (if IsFused(op) then x.Pull? && i != me && !w.Pull? && CellOf(op, Offset(op, w)) == CellOf(op, x.off)
          else Hi(op, w) + 1 == Hi(op, x))
  {
    match x
    case Pull(i, off) => PeerAddress(op, me, off);
    case PutByte(off) =>
    case CopyOut(off) =>
  }

  /** What a copy should bring from a comm buffer is what that byte holds. */
  lemma SourceContent(sys: System, op: Op, me: nat, x: Copy)
    requires ValidOp(sys, op) && me < |op.ranks| && Valid(op, me, x) && Source(op, me, x).Peer?
    ensures var Peer(i, a) := Source(op, me, x);
      Content(op, i, a) == if ToOutput(x) then OutByte(op, me, OutAddr(op, me, x)) else Content(op, 1, x.off)
  {
    match x
    case Pull(i, off) => DivModOf(op.slice, i, off);
    case PutByte(off) =>
    case CopyOut(off) =>
  }

  /** Copies from the caller's own input bring the right byte by construction. */
  lemma InputContent(sys: System, op: Op, me: nat, mem: map<Loc, bv8>, x: Copy)
    requires ValidOp(sys, op) && me < |op.ranks| && Valid(op, me, x) && Source(op, me, x).Input?
    ensures CopyValue(op, me, mem, x) ==
      if ToOutput(x) then OutByte(op, me, OutAddr(op, me, x)) else Content(op, me, x.a)
  {
    if x.SelfCopy? {
      DivModOf(op.slice, me, x.off);
      PeerAddress(op, me, x.off);
    }
  }

  /** Every output position is filled by one of the member's copies. */
  lemma OutputCovered(sys: System, op: Op, me: nat, o: nat) returns (x: Copy)
    requires ValidOp(sys, op) && me < |op.ranks| && o < OutLen(op, me)
    ensures Valid(op, me, x) && ToOutput(x) && OutAddr(op, me, x) == o
  {
    if op.kind.Put? {
      x := CopyOut(o);
    } else if op.kind.Get? {
      x := Pull(0, o);
    } else {
      var i, off := o / op.slice, o % op.slice;
      DivBound(op.slice, |op.ranks|, o);
      x := if IsFused(op) && i == me then SelfCopy(off) else Pull(i, off);
    }
  }

  /** Two different copies of a call never fill the same comm-buffer byte. */
  lemma OneWriter(sys: System, op: Op, e: nat, x: Copy, i: nat, a: nat)
    requires ValidOp(sys, op) && e < |op.ranks| && i < |op.ranks| && Valid(op, e, x) && !ToOutput(x)
    requires Destination(op, e, 0, x) == Comm(op.ranks[i], a)
    ensures Writer(op, i, a) == (e, x)
  {
  }

  /** Every slice offset of a fused call lies in a chunk that holds it. */
  lemma OffsetInChunk(op: Op, off: nat)
    requires op.path.Fused? && op.path.partition > 0 && op.path.chunk > 0 && off < op.slice
    ensures ValidChunk(op, CellOf(op, off).0, CellOf(op, off).1)
  {
    var p, q := op.path.partition, op.path.chunk;
    assert off == off / p * p + off % p;
    assert off % p == off % p / q * q + off % p % q;
  }

  /** The chunks of a channel are numbered from zero without gaps. */
  lemma EarlierChunk(op: Op, ch: nat, k: nat, k0: nat)
    requires ValidChunk(op, ch, k) && k0 <= k
    ensures ValidChunk(op, ch, k0)
  {
    if k0 < k { MulGap(op.path.chunk, k0, k); }
  }
}
