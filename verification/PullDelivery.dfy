/** What the pull launches of a call leave in its output: one launch on the one-shot path,
    a launch for every piece on the pipelined one. */
module PullDelivery {
  import opened Arithmetic
  import opened Schedule
  import opened Protocol
  import opened CopyPlan
  import PullKernels
  import ChunkLayout
  import VecWidth

  /** An all_gather or all2all whose sizes fit. */
  ghost predicate Collective(op: Op) {
    && (op.kind.AllGather? || op.kind.AllToAll?)
    && op.slice > 0 && |op.inputs| == |op.ranks|
    && (forall p :: 0 <= p < |op.ranks| ==> |op.inputs[p]| == StageLen(op))
  }

  /** In every member's comm buffer the bytes of the piece `[off, off + size)` are staged. */
  ghost predicate PieceStaged(op: Op, comms: seq<seq<bv8>>, off: nat, size: nat)
    requires Collective(op)
  {
    && (forall p :: 0 <= p < |op.ranks| ==> op.ranks[p] < |comms| && StageLen(op) <= |comms[op.ranks[p]]|)
    && (forall p, a :: 0 <= p < |op.ranks| && 0 <= a < StageLen(op) && off <= Offset(op, Stage(a)) < off + size ==>
      comms[op.ranks[p]][a] == op.inputs[p][a])
  }

  /** The first `end` bytes of every segment of the output are the specified ones. */
  ghost predicate Filled(op: Op, me: nat, end: nat, now: seq<bv8>)
    requires op.slice > 0
  {
    |now| == OutLen(op, me) && forall j :: 0 <= j < |now| && j % op.slice < end ==> now[j] == OutByte(op, me, j)
  }

  lemma PieceReadable(op: Op, me: nat, comms: seq<seq<bv8>>, off: nat, size: nat)
    requires Collective(op) && me < |op.ranks| && off + size <= op.slice && PieceStaged(op, comms, off, size)
    ensures PullKernels.Readable(comms, op.ranks, Sel(op, me) * op.slice + off, size)
    ensures off + (|op.ranks| - 1) * op.slice + size <= OutLen(op, me)
  {
    if op.kind.AllToAll? { MulGap(op.slice, me, |op.ranks|); }
    assert (|op.ranks| - 1) * op.slice + op.slice == |op.ranks| * op.slice;
  }

  /** Where byte `x` of segment `i` lies relative to a piece that starts at `off`. */
  lemma InPiece(n: nat, off: nat, i: nat, x: nat)
    requires off <= x < n
    ensures (i * n + x - off) / n == i && (i * n + x - off) % n == x - off
  {
    DivModOf(n, i, x - off);
  }

  lemma BeforePiece(n: nat, off: nat, i: nat, x: nat)
    requires x < off < n
    ensures (i * n + x - off) % n == x + n - off
  {
    var rest := x + n - off;
    if i > 0 {
      assert i * n + x - off == (i - 1) * n + rest;
      DivModOf(n, i - 1, rest);
    } else {
      NegativeMod(n, off - x);
    }
  }

  lemma NegativeMod(n: nat, d: nat)
    requires 0 < d < n
    ensures (0 - d) % n == n - d
  {
    var y := 0 - d;
    assert y == y / n * n + y % n;
  }

  /** The byte that a launch on a staged piece pulls to `x` of segment `i`. */
  lemma PulledByte(op: Op, me: nat, comms: seq<seq<bv8>>, off: nat, size: nat, i: nat, x: nat)
    requires Collective(op) && me < |op.ranks| && off + size <= op.slice && PieceStaged(op, comms, off, size)
    requires i < |op.ranks| && off <= x < off + size
    ensures Sel(op, me) * op.slice + x < StageLen(op) && op.ranks[i] < |comms|
    ensures Sel(op, me) * op.slice + x < |comms[op.ranks[i]]|
    ensures comms[op.ranks[i]][Sel(op, me) * op.slice + x] == OutByte(op, me, i * op.slice + x)
  {
    PeerAddress(op, me, x);
    DivModOf(op.slice, i, x);
    hide Sel, Offset, OutByte;
    WantedByte(op, me, i, x);
    var a := Sel(op, me) * op.slice + x;
    assert Offset(op, Stage(a)) == x;
  }

  lemma WantedByte(op: Op, me: nat, i: nat, x: nat)
    requires Collective(op) && me < |op.ranks| && i < |op.ranks| && x < op.slice
    requires Sel(op, me) * op.slice + x < StageLen(op)
    ensures OutByte(op, me, i * op.slice + x) == op.inputs[i][Sel(op, me) * op.slice + x]
  {
    DivModOf(op.slice, i, x);
  }

  lemma ByteDelivered(op: Op, me: nat, comms: seq<seq<bv8>>, off: nat, size: nat, was: seq<bv8>, now: seq<bv8>,
      i: nat, x: nat)
    requires Collective(op) && me < |op.ranks| && off + size <= op.slice && size > 0
    requires PieceStaged(op, comms, off, size) && Filled(op, me, off, was)
    requires PullKernels.Readable(comms, op.ranks, Sel(op, me) * op.slice + off, size)
    requires PullKernels.Gathered(comms, op.ranks, Sel(op, me) * op.slice + off, off, size, op.slice, was, now)
    requires i < |op.ranks| && x < off + size && i * op.slice + x < |now| && (i * op.slice + x) % op.slice == x
    ensures now[i * op.slice + x] == OutByte(op, me, i * op.slice + x)
  {
    hide PieceStaged, OutByte, Sel, OutLen;
    if x < off {
      BeforePiece(op.slice, off, i, x);
    } else {
      InPiece(op.slice, off, i, x);
      PulledByte(op, me, comms, off, size, i, x);
    }
  }

  /** One launch on a staged piece fills exactly that piece of every segment. */
  lemma PieceDelivers(op: Op, me: nat, comms: seq<seq<bv8>>, off: nat, size: nat, was: seq<bv8>, now: seq<bv8>)
    requires Collective(op) && me < |op.ranks| && off + size <= op.slice && size > 0
    requires PieceStaged(op, comms, off, size) && Filled(op, me, off, was)
    requires PullKernels.Readable(comms, op.ranks, Sel(op, me) * op.slice + off, size)
    requires PullKernels.Gathered(comms, op.ranks, Sel(op, me) * op.slice + off, off, size, op.slice, was, now)
    ensures Filled(op, me, off + size, now)
  {
    Lengths(op, me, comms, off, size, was, now);
    hide PieceStaged, OutByte, Sel, OutLen, PullKernels.Gathered, PullKernels.Readable;
    forall j | 0 <= j < |now| && j % op.slice < off + size ensures now[j] == OutByte(op, me, j) {
      DivBound(op.slice, |op.ranks|, j);
      assert j == j / op.slice * op.slice + j % op.slice;
      ByteDelivered(op, me, comms, off, size, was, now, j / op.slice, j % op.slice);
    }
  }

  lemma Lengths(op: Op, me: nat, comms: seq<seq<bv8>>, off: nat, size: nat, was: seq<bv8>, now: seq<bv8>)
    requires Collective(op) && Filled(op, me, off, was)
    requires PullKernels.Readable(comms, op.ranks, Sel(op, me) * op.slice + off, size)
    requires PullKernels.Gathered(comms, op.ranks, Sel(op, me) * op.slice + off, off, size, op.slice, was, now)
    ensures |now| == OutLen(op, me) == |op.ranks| * op.slice
  {
  }

  // ------------------------------------------------------------ the launches of a call

  /** One launch of the runtime, for the piece `[off, off + size)`: the kernel of the
      call's kind, with the width picked for these addresses. */
  method PullPiece(op: Op, me: nat, comms: seq<seq<bv8>>, off: nat, size: nat, dst: array<bv8>, vec: int, numSms: nat)
    requires Collective(op) && me < |op.ranks| && off + size <= op.slice && size > 0 && numSms > 0
    requires PieceStaged(op, comms, off, size) && size % PullKernels.EltBytes(vec) == 0
    requires dst.Length == OutLen(op, me)
    modifies dst
    ensures Filled(op, me, off, old(dst[..])) ==> Filled(op, me, off + size, dst[..])
  {
    PieceReadable(op, me, comms, off, size);
    hide PieceStaged, PullKernels.Gathered, PullKernels.EltBytes, Filled, OutLen;
    var outcome;
    if op.kind.AllGather? {
      outcome := PullKernels.LaunchAllGatherPull(comms, op.ranks, dst, off, off, me, size, op.slice, vec, numSms);
    } else {
      assert off + me * op.slice == Sel(op, me) * op.slice + off;
      outcome := PullKernels.LaunchAllToAllPull(comms, op.ranks, dst, off, off, me, size, op.slice, op.slice, vec,
        numSms);
    }
    if Filled(op, me, off, old(dst[..])) {
      PieceDelivers(op, me, comms, off, size, old(dst[..]), dst[..]);
    }
  }

  /** The one-shot path: `local` and `output` are the addresses of this rank's comm buffer
      and of the output. */
  method PullWhole(op: Op, me: nat, comms: seq<seq<bv8>>, dst: array<bv8>, local: nat, output: nat, numSms: nat)
    requires Collective(op) && me < |op.ranks| && numSms > 0
    requires PieceStaged(op, comms, 0, op.slice) && dst.Length == OutLen(op, me)
    modifies dst
    ensures dst[..] == Expected(op, me)
  {
    var vec := VecWidth.VecFor([local, output], op.slice);
    PullKernels.RuntimeHasNoTail([local, output], op.slice);
    hide PieceStaged, PullKernels.EltBytes;
    PullPiece(op, me, comms, 0, op.slice, dst, vec, numSms);
  }

  /** The pipelined path: piece by piece, each from the comm buffers as they stand when
      its turn comes, when that piece is staged everywhere and later ones need not be. */
  method PullPieces(op: Op, me: nat, comms: seq<seq<seq<bv8>>>, ps: seq<(nat, nat)>, dst: array<bv8>, local: nat,
      output: nat, numSms: nat)
    requires Collective(op) && me < |op.ranks| && numSms > 0
    requires ChunkLayout.Contiguous(ps, op.slice) && forall k :: 0 <= k < |ps| ==> ps[k].1 > 0
    requires |comms| == |ps| && forall k :: 0 <= k < |ps| ==> PieceStaged(op, comms[k], ps[k].0, ps[k].1)
    requires dst.Length == OutLen(op, me)
    modifies dst
    ensures dst[..] == Expected(op, me)
  {
    hide PieceStaged, PullKernels.EltBytes, OutByte;
    for k := 0 to |ps|
      invariant k < |ps| ==> Filled(op, me, ps[k].0, dst[..])
      invariant k == |ps| ==> Filled(op, me, op.slice, dst[..])
    {
      var (off, size) := ps[k];
      PieceInside(ps, op.slice, k);
      var ptrs := [local + Sel(op, me) * op.slice + off, output + off, op.slice];
      var vec := VecWidth.VecFor(ptrs, size);
      PullKernels.RuntimeHasNoTail(ptrs, size);
      PullPiece(op, me, comms[k], off, size, dst, vec, numSms);
    }
  }

  /** A piece ends where the next one starts, and the last where the slice ends. */
  lemma {:induction false} PieceInside(ps: seq<(nat, nat)>, axis: nat, k: nat)
    requires ChunkLayout.Contiguous(ps, axis) && k < |ps|
    ensures ps[k].0 + ps[k].1 <= axis
    ensures ps[k].0 + ps[k].1 == if k + 1 < |ps| then ps[k + 1].0 else axis
    decreases |ps| - k
  {
    if k + 1 < |ps| { PieceInside(ps, axis, k + 1); }
  }
}
