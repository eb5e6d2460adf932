/** How the fused launchers cut a slice into channel partitions and chunks. */
module FusedLayout {
  import opened Arithmetic
  import opened Bits
  import opened Schedule
  import Protocol

  /** Bytes per channel, rounded up to the alignment. */
  function PartitionBytes(slice: nat, channels: nat, align: nat): nat
    requires channels > 0 && align > 0
  {
    AlignUp(CeilDiv(slice, channels), align)
  }

  /** The least aligned size of which all channels together cover the slice. */
  lemma PartitionMeans(slice: nat, channels: nat, align: nat)
    requires slice > 0 && channels > 0 && align > 0 && IsPow2(align)
    ensures PartitionBytes(slice, channels, align) > 0
    ensures PartitionBytes(slice, channels, align) % align == 0
    ensures channels * PartitionBytes(slice, channels, align) >= slice
    ensures channels * (PartitionBytes(slice, channels, align) - align) < slice
  {
    hide AlignUp, CeilDiv;
    var c, p := CeilDiv(slice, channels), PartitionBytes(slice, channels, align);
    AlignUpMeans(c, align);
    RoundedShare(slice, channels, align, p);
    assert channels * p == p * channels && channels * (p - align) == (p - align) * channels;
  }

  /** The launcher's check, and the path it launches. */
  function LaunchPath(slice: nat, channels: nat, align: nat, chunk: nat, maxChunks: nat): (p: Path)
    requires channels > 0 && align > 0 && chunk > 0
    ensures p.OneShot? || p.Fused?
  {
    var partition := PartitionBytes(slice, channels, align);
    if CeilDiv(partition, chunk) > maxChunks then OneShot else Fused(partition, chunk)
  }

  /** Bytes that the channel at `ch` is responsible for; 0 if its program returns at once. */
  function PartitionSize(slice: nat, partition: nat, ch: nat): nat {
    if ch * partition >= slice then 0 else Min(partition, slice - ch * partition)
  }

  function ChunkSize(size: nat, chunk: nat, k: nat): nat {
    if k * chunk >= size then 0 else Min(chunk, size - k * chunk)
  }

  /** The chunks a kernel program iterates over are those the protocol gives cells to. */
  lemma ChunkCount(op: Op, ch: nat, k: nat)
    requires op.path.Fused? && op.path.chunk > 0
    ensures ValidChunk(op, ch, k) <==>
      k < CeilDiv(PartitionSize(op.slice, op.path.partition, ch), op.path.chunk)
  {
    CeilDivAtMost(PartitionSize(op.slice, op.path.partition, ch), op.path.chunk, k);
  }

  /** The launcher's check keeps every signalled cell inside the pad: a launched call has
      the sizes the protocol model requires. */
  lemma LaunchFitsPad(op: Op, channels: nat, align: nat, chunk: nat, maxChunks: nat)
    requires op.slice > 0 && channels > 0 && align > 0 && IsPow2(align) && chunk > 0
    requires op.path == LaunchPath(op.slice, channels, align, chunk, maxChunks) && op.path.Fused?
    ensures op.path.partition > 0 && op.path.chunk > 0
    ensures forall ch: nat, k: nat :: ValidChunk(op, ch, k) ==> ch < channels && k < maxChunks
  {
    PartitionMeans(op.slice, channels, align);
    hide PartitionBytes, CeilDiv;
    var p := op.path.partition;
    CeilDivMeans(p, chunk);
    forall ch: nat, k: nat | ValidChunk(op, ch, k) ensures ch < channels && k < maxChunks {
      InsidePad(op, ch, k, channels, CeilDiv(p, chunk));
    }
  }

  lemma InsidePad(op: Op, ch: nat, k: nat, channels: nat, n: nat)
    requires op.path.Fused? && ValidChunk(op, ch, k)
    requires channels * op.path.partition >= op.slice && n * op.path.chunk >= op.path.partition
    ensures ch < channels && k < n
  {
    if ch >= channels { if ch > channels { MulGap(op.path.partition, channels, ch); } }
    if k >= n { if k > n { MulGap(op.path.chunk, n, k); } }
  }

  /** The first byte of chunk `k` of channel `ch`, and how many bytes it has. */
  function ChunkBase(partition: nat, chunk: nat, ch: nat, k: nat): nat {
    ch * partition + k * chunk
  }

  function ChunkBytes(slice: nat, partition: nat, chunk: nat, ch: nat, k: nat): nat {
    ChunkSize(PartitionSize(slice, partition, ch), chunk, k)
  }

  predicate InChunk(slice: nat, partition: nat, chunk: nat, ch: nat, k: nat, off: int) {
    var base := ChunkBase(partition, chunk, ch, k);
    base <= off < base + ChunkBytes(slice, partition, chunk, ch, k)
  }

  /** Each byte of a slice lies in one chunk of one channel. */
  lemma ChunkOf(slice: nat, partition: nat, chunk: nat, off: nat, ch: nat, k: nat)
    requires partition > 0 && chunk > 0 && off < slice
    ensures InChunk(slice, partition, chunk, ch, k, off) <==> off / partition == ch && off % partition / chunk == k
  {
    var size := PartitionSize(slice, partition, ch);
    InStep(partition, slice, off, ch);
    if off / partition == ch {
      assert off == ch * partition + off % partition;
      InStep(chunk, size, off % partition, k);
    } else {
      assert ch * partition <= ch * partition + k * chunk;
      ChunkWithin(size, chunk, k);
    }
  }

  lemma ChunkWithin(size: nat, chunk: nat, k: nat)
    ensures ChunkSize(size, chunk, k) > 0 ==> k * chunk + ChunkSize(size, chunk, k) <= size
  {
  }

  /** A chunk lies inside the slice. */
  lemma ChunkInSlice(slice: nat, partition: nat, chunk: nat, ch: nat, k: nat)
    requires chunk > 0 && k < CeilDiv(PartitionSize(slice, partition, ch), chunk)
    ensures ChunkBytes(slice, partition, chunk, ch, k) > 0
    ensures ChunkBase(partition, chunk, ch, k) + ChunkBytes(slice, partition, chunk, ch, k) <= slice
  {
    CeilDivAtMost(PartitionSize(slice, partition, ch), chunk, k);
    ChunkWithin(PartitionSize(slice, partition, ch), chunk, k);
  }

  /** Tiling: byte `off` of a slice lies in chunk `k` of channel `ch` exactly when the
      protocol's cell for it is `(ch, k)`; so no byte is copied twice and none is left. */
  lemma Tiling(op: Op, off: nat, ch: nat, k: nat)
    requires op.path.Fused? && op.path.partition > 0 && op.path.chunk > 0 && off < op.slice
    ensures InChunk(op.slice, op.path.partition, op.path.chunk, ch, k, off) <==> Protocol.CellOf(op, off) == (ch, k)
  {
    ChunkOf(op.slice, op.path.partition, op.path.chunk, off, ch, k);
  }

  /** Cutting `[0, total)` into steps of `n`: `x` lies in step `x / n` only. */
  lemma InStep(n: nat, total: nat, x: nat, k: nat)
    requires n > 0 && x < total
    ensures k * n <= x < k * n + ChunkSize(total, n, k) <==> k == x / n
    ensures ChunkSize(total, n, k) <= n
  {
    assert x == x / n * n + x % n;
    if k < x / n { MulGap(n, k, x / n); } else if x / n < k { MulGap(n, x / n, k); }
  }

  // --------------------------------------------------------- the static bound

  /** The settings the bound rests on, with the checks made on construction. */
  datatype Config = Config(maxCollectiveBytes: nat, alignment: nat, chunk: nat, channels: nat)
  {
    ghost predicate Valid() {
      && maxCollectiveBytes > 0
      && alignment >= 16 && IsPow2(alignment)
      && maxCollectiveBytes % alignment == 0
      && chunk > 0 && chunk % alignment == 0
      && channels > 0
    }

    function MaxChunksPerChannel(): nat requires chunk > 0 {
      CeilDiv(maxCollectiveBytes, chunk) + 1
    }
  }

  /** Rounding the partition up never exceeds the bound the pad is sized by, for any slice
      the runtime accepts; even the spare chunk is never used. */
  lemma StaticBound(cfg: Config, slice: nat)
    requires cfg.Valid() && 0 < slice <= cfg.maxCollectiveBytes
    ensures CeilDiv(PartitionBytes(slice, cfg.channels, cfg.alignment), cfg.chunk) < cfg.MaxChunksPerChannel()
    ensures LaunchPath(slice, cfg.channels, cfg.alignment, cfg.chunk, cfg.MaxChunksPerChannel()).Fused?
  {
    PartitionWithin(cfg, slice);
    hide PartitionBytes, CeilDiv, IsPow2;
    var m, p := cfg.maxCollectiveBytes, PartitionBytes(slice, cfg.channels, cfg.alignment);
    CeilDivMeans(m, cfg.chunk);
    CeilDivAtMost(p, cfg.chunk, CeilDiv(m, cfg.chunk));
  }

  lemma PartitionWithin(cfg: Config, slice: nat)
    requires cfg.Valid() && 0 < slice <= cfg.maxCollectiveBytes
    ensures PartitionBytes(slice, cfg.channels, cfg.alignment) <= cfg.maxCollectiveBytes
  {
    hide AlignUp, IsPow2, CeilDiv;
    var a := cfg.alignment;
    var c := CeilDiv(slice, cfg.channels);
    MulAtLeast(cfg.channels, slice);
    CeilDivAtMost(slice, cfg.channels, slice);
    AlignUpMeans(c, a);
    MultipleBelow(AlignUp(c, a), cfg.maxCollectiveBytes, a);
  }

  lemma MultipleBelow(p: nat, m: nat, a: nat)
    requires a > 0 && p % a == 0 && m % a == 0 && p < m + a
    ensures p <= m
  {
    assert p == p / a * a && m == m / a * a;
    if p / a > m / a { MulGap(a, m / a, p / a); } else if p / a < m / a { MulGap(a, p / a, m / a); }
  }
}
