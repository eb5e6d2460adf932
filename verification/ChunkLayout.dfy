/** Splitting a collective into pipelined pieces. */
module ChunkLayout {
  import opened Arithmetic
  import opened Bits
  import opened Schedule

  /** The settings that decide the split; `Valid` is what the configuration object checks. */
  datatype Knobs = Knobs(pipelineChunks: int, maxPipelineChunks: int, minChunk: int, alignment: nat)
  {
    ghost predicate Valid() {
      && 1 <= pipelineChunks <= maxPipelineChunks
      && minChunk > 0
      && alignment >= 16 && IsPow2(alignment)
    }
  }

  datatype Choice = Default | Override(chunks: int)

  datatype Layout = Pieces(pieces: seq<(nat, nat)>) | Rejected

  /** The pieces asked for, by the call or the settings, within the configured ceiling. */
  function Target(knobs: Knobs, choice: Choice): int {
    Min(if choice.Override? then choice.chunks else knobs.pipelineChunks, knobs.maxPipelineChunks)
  }

  /** How many pieces to aim for: as many as asked for and as the minimum size allows;
      `unchunkable` stands for the TMA and copy-engine paths. */
  function EffectivePipelineChunks(knobs: Knobs, unchunkable: bool, axis: nat, choice: Choice): (n: int)
    requires knobs.minChunk > 0
    ensures 1 <= n
    ensures n > 1 ==> n <= Target(knobs, choice) <= knobs.maxPipelineChunks && n * knobs.minChunk <= axis
    ensures n > 1 <==> !unchunkable && Target(knobs, choice) > 1 && 2 * knobs.minChunk <= axis
    ensures n > 1 ==> n == Target(knobs, choice) || axis < (n + 1) * knobs.minChunk
  {
    if unchunkable then 1
    else
      var target := Target(knobs, choice);
      if target <= 1 || axis < 2 * knobs.minChunk then 1
      else
        var bySize := Max(1, axis / knobs.minChunk);
        var n := Max(1, Min(target, bySize));
        BelowQuotient(axis, knobs.minChunk, n);
        AtLeastTwo(axis, knobs.minChunk);
        n
  }

  /** With room for them a call gets as many pieces as it asks for itself, or else as the
      settings say, up to the ceiling; never more than either. */
  lemma AskedPieces(knobs: Knobs, axis: nat, choice: Choice, asked: int)
    requires knobs.minChunk > 0 && asked == if choice.Override? then choice.chunks else knobs.pipelineChunks
    ensures EffectivePipelineChunks(knobs, false, axis, choice) <= Max(1, asked)
    ensures 1 < asked <= knobs.maxPipelineChunks && asked * knobs.minChunk <= axis ==>
      EffectivePipelineChunks(knobs, false, axis, choice) == asked
    ensures 1 < knobs.maxPipelineChunks <= asked && knobs.maxPipelineChunks * knobs.minChunk <= axis ==>
      EffectivePipelineChunks(knobs, false, axis, choice) == knobs.maxPipelineChunks
  {
    var n := EffectivePipelineChunks(knobs, false, axis, choice);
    var target := Target(knobs, choice);
    if target > 1 && target * knobs.minChunk <= axis {
      if 2 < target { MulGap(knobs.minChunk, 2, target); }
      if n < target { MulGap(knobs.minChunk, n + 1, target); }
    }
  }

  lemma BelowQuotient(x: nat, d: nat, n: nat)
    requires d > 0
    ensures n <= x / d <==> n * d <= x
    ensures n == x / d ==> x < (n + 1) * d
  {
    assert x == x / d * d + x % d;
    assert (x / d + 1) * d == x / d * d + d;
    if n < x / d { MulGap(d, n, x / d); } else if x / d < n { MulGap(d, x / d, n); }
  }

  lemma AtLeastTwo(x: nat, d: nat)
    requires d > 0 && 2 * d <= x
    ensures x / d >= 2
  {
    BelowQuotient(x, d, 2);
  }

  /** The size of every piece but the last. */
  function Nominal(axis: nat, chunks: nat, align: nat): nat
    requires chunks > 0 && align > 0
  {
    AlignUp(CeilDiv(axis, chunks), align)
  }

  /** The least aligned size of which `chunks` cover the axis. */
  lemma NominalMeans(axis: nat, chunks: nat, align: nat)
    requires axis > 0 && chunks > 0 && IsPow2(align) && align > 0
    ensures Nominal(axis, chunks, align) > 0
    ensures Nominal(axis, chunks, align) % align == 0
    ensures Nominal(axis, chunks, align) * chunks >= axis
    ensures (Nominal(axis, chunks, align) - align) * chunks < axis
  {
    hide AlignUp, CeilDiv;
    var c, n := CeilDiv(axis, chunks), Nominal(axis, chunks, align);
    AlignUpMeans(c, align);
    RoundedShare(axis, chunks, align, n);
  }

  ghost predicate Contiguous(ps: seq<(nat, nat)>, axis: nat) {
    && ps != [] && ps[0].0 == 0
    && (forall k :: 0 < k < |ps| ==> ps[k].0 == ps[k - 1].0 + ps[k - 1].1)
    && ps[|ps| - 1].0 + ps[|ps| - 1].1 == axis
  }

  /** Piece `k` is the `k`-th multiple of `nominal`, cut off at the end of the axis. */
  ghost predicate Even(ps: seq<(nat, nat)>, axis: nat, nominal: nat) {
    && |ps| * nominal >= axis
    && (forall k :: 0 <= k < |ps| ==> k * nominal < axis)
    && (forall k :: 0 <= k < |ps| ==> ps[k] == (k * nominal, Min(nominal, axis - k * nominal)))
  }

  /** The first `|ps|` even pieces, which end at `off`. */
  ghost predicate Built(ps: seq<(nat, nat)>, off: nat, axis: nat, nominal: nat) {
    && off == Min(|ps| * nominal, axis)
    && (ps != [] ==> Contiguous(ps, off))
    && (forall k :: 0 <= k < |ps| ==> k * nominal < axis)
    && (forall k :: 0 <= k < |ps| ==> ps[k] == (k * nominal, Min(nominal, axis - k * nominal)))
  }

  lemma OneMore(ps: seq<(nat, nat)>, off: nat, axis: nat, nominal: nat)
    requires Built(ps, off, axis, nominal) && off < axis
    ensures var size := Min(nominal, axis - off);
      off + size <= axis && Built(ps + [(off, size)], off + size, axis, nominal)
  {
    assert (|ps| + 1) * nominal == |ps| * nominal + nominal;
  }

  /** `_chunk_layout`. Whatever the alignment, the pieces tile the axis; for a power of
      two they are the even ones, and the code that absorbs a remainder is not reached. */
  method Split(axis: nat, chunks: int, align: nat) returns (layout: Layout)
    requires align > 0
    ensures layout.Rejected? <==> chunks < 1
    ensures layout.Pieces? ==> Contiguous(layout.pieces, axis) && |layout.pieces| <= chunks
    ensures layout.Pieces? && (chunks == 1 || axis == 0) ==> layout.pieces == [(0, axis)]
    ensures layout.Pieces? && chunks > 1 && axis > 0 && IsPow2(align) ==>
      Even(layout.pieces, axis, Nominal(axis, chunks, align))
  {
    if chunks < 1 {
      return Rejected;
    }
    if chunks == 1 || axis <= 0 {
      return Pieces([(0, axis)]);
    }
    var nominal := Nominal(axis, chunks, align);
    hide Built, Contiguous, Nominal, IsPow2;
    var ps: seq<(nat, nat)>, off: nat := [], 0;
    assert Built(ps, off, axis, nominal) by { BuiltEmpty(axis, nominal); }
    while off < axis && |ps| < chunks
      invariant |ps| <= chunks && 0 <= off <= axis && (ps == [] ==> off == 0)
      invariant Built(ps, off, axis, nominal)
      decreases chunks - |ps|
    {
      var size: nat := Min(nominal, axis - off);
      OneMore(ps, off, axis, nominal);
      ps := ps + [(off, size)];
      off := off + size;
    }
    FullyBuilt(ps, off, axis, chunks, align);
    if off < axis {
      var last := ps[|ps| - 1];
      ps := ps[|ps| - 1 := (last.0, last.1 + (axis - off))];
    }
    return Pieces(ps);
  }

  lemma BuiltEmpty(axis: nat, nominal: nat)
    ensures Built([], 0, axis, nominal)
  {
  }

  lemma FullyBuilt(ps: seq<(nat, nat)>, off: nat, axis: nat, chunks: nat, align: nat)
    requires chunks > 1 && axis > 0 && align > 0 && ps != []
    requires Built(ps, off, axis, Nominal(axis, chunks, align)) && (off < axis ==> |ps| == chunks)
    ensures off == axis ==> Contiguous(ps, axis)
    ensures off < axis ==> var last := ps[|ps| - 1];
      Contiguous(ps[|ps| - 1 := (last.0, last.1 + (axis - off))], axis)
    ensures IsPow2(align) ==> off == axis && Even(ps, axis, Nominal(axis, chunks, align))
  {
    hide Nominal, IsPow2;
    if IsPow2(align) { NominalMeans(axis, chunks, align); }
  }

  /** The pieces of an even split are positive, start on aligned offsets, and byte `off`
      lies in piece `off / nominal` and in no other. */
  lemma EvenPieces(ps: seq<(nat, nat)>, axis: nat, chunks: nat, align: nat, off: nat)
    requires axis > 0 && chunks > 0 && IsPow2(align) && align > 0
    requires Even(ps, axis, Nominal(axis, chunks, align)) && off < axis
    ensures forall k :: 0 <= k < |ps| ==> ps[k].1 > 0 && ps[k].0 % align == 0
    ensures forall k :: 0 <= k < |ps| ==>
      (ps[k].0 <= off < ps[k].0 + ps[k].1 <==> k == off / Nominal(axis, chunks, align))
    ensures off / Nominal(axis, chunks, align) < |ps|
  {
    var n := Nominal(axis, chunks, align);
    NominalMeans(axis, chunks, align);
    hide Nominal;
    DivBound(n, |ps|, off);
    forall k | 0 <= k < |ps|
      ensures ps[k].1 > 0 && ps[k].0 % align == 0
      ensures ps[k].0 <= off < ps[k].0 + ps[k].1 <==> k == off / n
    {
      AlignedMultiple(n, align, k);
      InPiece(n, axis, off, k);
    }
  }

  lemma AlignedMultiple(n: nat, align: nat, k: nat)
    requires align > 0 && n % align == 0
    ensures k * n % align == 0
  {
    assert n == n / align * align;
    assert k * n == (k * (n / align)) * align;
    DivModOf(align, k * (n / align), 0);
  }

  lemma InPiece(n: nat, axis: nat, off: nat, k: nat)
    requires n > 0 && off < axis && k * n < axis
    ensures k * n <= off < k * n + Min(n, axis - k * n) <==> k == off / n
  {
    assert off == off / n * n + off % n;
    if k < off / n { MulGap(n, k, off / n); } else if off / n < k { MulGap(n, off / n, k); }
  }

  /** With the piece count the runtime asks for, every piece but the last has at least
      the configured minimum, and the split never exceeds `max_pipeline_chunks`. */
  lemma PiecesLargeEnough(knobs: Knobs, unchunkable: bool, axis: nat, choice: Choice, ps: seq<(nat, nat)>)
    requires knobs.Valid()
    requires var n := EffectivePipelineChunks(knobs, unchunkable, axis, choice);
      n > 1 && |ps| <= n && Even(ps, axis, Nominal(axis, n, knobs.alignment))
    ensures |ps| <= knobs.maxPipelineChunks
    ensures forall k :: 0 <= k < |ps| - 1 ==> ps[k].1 >= knobs.minChunk
  {
    var n := EffectivePipelineChunks(knobs, unchunkable, axis, choice);
    NominalAtLeast(axis, n, knobs.alignment, knobs.minChunk);
    hide EffectivePipelineChunks, Nominal, Target, IsPow2;
    forall k | 0 <= k < |ps| - 1 ensures ps[k].1 >= knobs.minChunk {
      FullPiece(ps, axis, Nominal(axis, n, knobs.alignment), k);
    }
  }

  /** If `chunks` pieces of the minimum size fit, the nominal size reaches the minimum. */
  lemma NominalAtLeast(axis: nat, chunks: nat, align: nat, minimum: nat)
    requires chunks > 0 && align > 0 && IsPow2(align) && chunks * minimum <= axis
    ensures Nominal(axis, chunks, align) >= minimum
  {
    hide AlignUp, IsPow2, CeilDiv;
    AlignUpMeans(CeilDiv(axis, chunks), align);
    ShareAtLeast(axis, chunks, minimum);
  }

  lemma ShareAtLeast(axis: nat, chunks: nat, minimum: nat)
    requires chunks > 0 && chunks * minimum <= axis
    ensures CeilDiv(axis, chunks) >= minimum
  {
    if minimum > 0 {
      assert (minimum - 1) * chunks == chunks * minimum - chunks;
      CeilDivAtMost(axis, chunks, minimum - 1);
    }
  }

  /** Every even piece but the last has the nominal size. */
  lemma FullPiece(ps: seq<(nat, nat)>, axis: nat, nominal: nat, k: nat)
    requires Even(ps, axis, nominal) && k + 1 < |ps|
    ensures ps[k].1 == nominal
  {
    var next := k + 1;
    assert next * nominal < axis;
    MulGap(nominal, k, next);
  }

  /** A call split this way has the path the protocol model expects: the barrier window
      of a byte is that of its piece. */
  lemma PipelinedPath(op: Op, ps: seq<(nat, nat)>, chunks: nat, align: nat)
    requires op.slice > 0 && chunks > 0 && IsPow2(align) && align > 0
    requires Even(ps, op.slice, Nominal(op.slice, chunks, align))
    requires op.path == Pipelined(Nominal(op.slice, chunks, align), |ps|)
    ensures op.path.nominal > 0 && op.path.pieces > 0
    ensures forall off :: 0 <= off < op.slice ==> off / op.path.nominal < op.path.pieces
  {
    NominalMeans(op.slice, chunks, align);
    forall off: nat | off < op.slice ensures off / op.path.nominal < op.path.pieces {
      EvenPieces(ps, op.slice, chunks, align, off);
    }
  }
}
