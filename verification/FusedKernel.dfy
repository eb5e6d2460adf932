/** The copies of the fused kernel: block copies with a byte tail, and the sender's and
    receiver's loops over channels, chunks and peers. */
module FusedKernel {
  import opened Arithmetic
  import opened Lanes
  import opened FusedLayout
  import opened Schedule
  import Protocol
  import CopyPlan

  const BLOCK_ELTS: nat := 4096

  // ------------------------------------------------------------- block copies

  /** `now` is `was` with the bytes `[lo, hi)` after `to` taken from `src` after `from`. */
  ghost predicate Copied(src: seq<bv8>, from: nat, to: nat, lo: nat, hi: nat, was: seq<bv8>, now: seq<bv8>)
    requires from + hi <= |src|
  {
    && |now| == |was|
    && (forall j :: 0 <= j < |now| ==> now[j] == if to + lo <= j < to + hi then src[from + (j - to)] else was[j])
  }

  /** `_byte_tail_copy`: bytes `[off, total)`, a block of lanes at a time, to one or two places. */
  method ByteTailCopy(src: seq<bv8>, from: nat, dst1: array<bv8>, to1: nat, dst2: array?<bv8>, to2: nat, off: nat,
      total: nat)
    requires off <= total && from + total <= |src| && to1 + total <= dst1.Length
    requires dst2 != null ==> dst2 != dst1 && to2 + total <= dst2.Length
    modifies dst1, dst2
    ensures Copied(src, from, to1, off, total, old(dst1[..]), dst1[..])
    ensures dst2 != null ==> Copied(src, from, to2, off, total, old(dst2[..]), dst2[..])
  {
    var inner := off;
    while inner < total
      invariant off <= inner
      invariant Copied(src, from, to1, off, Min(inner, total), old(dst1[..]), dst1[..])
      invariant dst2 != null ==> Copied(src, from, to2, off, Min(inner, total), old(dst2[..]), dst2[..])
    {
      StoreLanes(src, dst1, from, to1, inner, BLOCK_ELTS, total, 1);
      if dst2 != null {
        StoreLanes(src, dst2, from, to2, inner, BLOCK_ELTS, total, 1);
      }
      inner := inner + BLOCK_ELTS;
    }
  }

  /** The vectorised part: `full` whole elements of `vec` bytes. */
  method BulkCopy(src: seq<bv8>, from: nat, dst1: array<bv8>, to1: nat, dst2: array?<bv8>, to2: nat, full: nat,
      vec: nat)
    requires vec > 0 && from + full * vec <= |src| && to1 + full * vec <= dst1.Length
    requires dst2 != null ==> dst2 != dst1 && to2 + full * vec <= dst2.Length
    modifies dst1, dst2
    ensures Copied(src, from, to1, 0, full * vec, old(dst1[..]), dst1[..])
    ensures dst2 != null ==> Copied(src, from, to2, 0, full * vec, old(dst2[..]), dst2[..])
  {
    var first := 0;
    ghost var done := 0;
    while first * vec < full * vec
      invariant done == Min(first, full) * vec && 0 <= done <= full * vec
      invariant Copied(src, from, to1, 0, done, old(dst1[..]), dst1[..])
      invariant dst2 != null ==> Copied(src, from, to2, 0, done, old(dst2[..]), dst2[..])
      decreases full - first
    {
      BulkStep(first, BLOCK_ELTS, full, vec);
      StoreLanes(src, dst1, from, to1, first, BLOCK_ELTS, full, vec);
      if dst2 != null {
        StoreLanes(src, dst2, from, to2, first, BLOCK_ELTS, full, vec);
      }
      first := first + BLOCK_ELTS;
      done := Min(first, full) * vec;
    }
    if full < first { MulGap(vec, full, first); }
  }

  lemma BulkStep(first: nat, block: nat, full: nat, vec: nat)
    requires first * vec < full * vec
    ensures first < full
    ensures first * vec <= Min(first + block, full) * vec <= full * vec
  {
    if full < first { MulGap(vec, full, first); }
    var m := Min(first + block, full);
    if first < m { MulGap(vec, first, m); }
    if m < full { MulGap(vec, m, full); }
  }

  /** `_fused_block_copy`: exactly `nbytes` bytes, to one or two places. */
  method BlockCopy(src: seq<bv8>, from: nat, dst1: array<bv8>, to1: nat, dst2: array?<bv8>, to2: nat, nbytes: nat,
      vec: nat)
    requires vec > 0 && from + nbytes <= |src| && to1 + nbytes <= dst1.Length
    requires dst2 != null ==> dst2 != dst1 && to2 + nbytes <= dst2.Length
    modifies dst1, dst2
    ensures Copied(src, from, to1, 0, nbytes, old(dst1[..]), dst1[..])
    ensures dst2 != null ==> Copied(src, from, to2, 0, nbytes, old(dst2[..]), dst2[..])
  {
    if vec == 1 {
      ByteTailCopy(src, from, dst1, to1, dst2, to2, 0, nbytes);
      return;
    }
    var bulk := nbytes / vec * vec;
    assert nbytes == bulk + nbytes % vec;
    BulkCopy(src, from, dst1, to1, dst2, to2, nbytes / vec, vec);
    if bulk < nbytes {
      ByteTailCopy(src, from, dst1, to1, dst2, to2, bulk, nbytes);
    }
  }

  // ------------------------------------------------------------------ sender

  /** One launch on one rank: an all_gather if `gather`, else an all2all. */
  datatype Launch = Launch(gather: bool, slice: nat, partition: nat, chunk: nat, channels: nat,
                           ranks: seq<nat>, me: nat, commOff: nat)
  {
    predicate Valid() {
      && slice > 0 && partition > 0 && chunk > 0
      && channels * partition >= slice
      && me < |ranks|
    }

    /** Slices in the input, and which of them is meant for this rank in every peer. */
    const slots: nat := if gather then 1 else |ranks|
    const own: nat := if gather then 0 else me
  }

  /** `now` is `was` with the slice offsets `[lo, hi)` of the first `slots` slots staged. */
  ghost predicate Staged(l: Launch, slots: nat, input: seq<bv8>, lo: nat, hi: nat, was: seq<bv8>, now: seq<bv8>)
    requires l.slice > 0 && slots * l.slice <= |input|
  {
    && |now| == |was|
    && (forall j :: 0 <= j < |now| ==>
      now[j] == if l.commOff <= j < l.commOff + slots * l.slice && lo <= (j - l.commOff) % l.slice < hi
                then input[j - l.commOff] else was[j])
  }

  lemma InSlot(n: nat, t: nat, x: nat)
    requires t * n <= x < t * n + n
    ensures x % n == x - t * n && x / n == t
  {
    DivModOf(n, t, x - t * n);
  }

  lemma StagedNext(l: Launch, t: nat, input: seq<bv8>, lo: nat, hi: nat, was: seq<bv8>, half: seq<bv8>, now: seq<bv8>)
    requires l.slice > 0 && lo <= hi <= l.slice && (t + 1) * l.slice <= |input|
    requires t * l.slice + l.slice == (t + 1) * l.slice
    requires Staged(l, t, input, lo, hi, was, half)
    requires Copied(input, t * l.slice, l.commOff + t * l.slice, lo, hi, half, now)
    ensures Staged(l, t + 1, input, lo, hi, was, now)
  {
    var end := l.commOff + t * l.slice;
    forall j | 0 <= j < |now|
      ensures now[j] == if l.commOff <= j < end + l.slice && lo <= (j - l.commOff) % l.slice < hi
                        then input[j - l.commOff] else was[j]
    {
      if end <= j < end + l.slice { InSlot(l.slice, t, j - l.commOff); }
    }
  }

  /** Both effects of the sender for the slice offsets in `at`: comm buffer `c0`
      becomes `c1` and output `o0` becomes `o1`. */
  ghost predicate Sent(l: Launch, input: seq<bv8>, at: iset<int>, c0: seq<bv8>, c1: seq<bv8>, o0: seq<bv8>,
      o1: seq<bv8>)
    requires l.Valid()
  {
    && |input| == l.slots * l.slice && l.own * l.slice + l.slice <= |input|
    && |c1| == |c0| && |o1| == |o0|
    && (forall j :: 0 <= j < |c1| ==>
      c1[j] == if l.commOff <= j < l.commOff + |input| && (j - l.commOff) % l.slice in at
               then input[j - l.commOff] else c0[j])
    && (forall j :: 0 <= j < |o1| ==>
      o1[j] == if 0 <= j - l.me * l.slice < l.slice && j - l.me * l.slice in at
               then input[l.own * l.slice + (j - l.me * l.slice)] else o0[j])
  }

  predicate Within(x: int, base: nat, n: nat) { base <= x < base + n }

  /** The offsets `[base, base + n)`. */
  ghost function Span(base: nat, n: nat): iset<int> {
    iset x | Within(x, base, n)
  }

  lemma SentSpan(l: Launch, input: seq<bv8>, base: nat, n: nat, c0: seq<bv8>, c1: seq<bv8>, o0: seq<bv8>, o1: seq<bv8>)
    requires l.Valid() && base + n <= l.slice && |input| == l.slots * l.slice
    requires l.own * l.slice + base + n <= |input|
    requires Staged(l, l.slots, input, base, base + n, c0, c1)
    requires Copied(input, l.own * l.slice, l.me * l.slice, base, base + n, o0, o1)
    ensures Sent(l, input, Span(base, n), c0, c1, o0, o1)
  {
    MulGap(l.slice, l.own, l.slots);
  }

  lemma SentNothing(l: Launch, input: seq<bv8>, at: iset<int>, c0: seq<bv8>, o0: seq<bv8>)
    requires l.Valid() && |input| == l.slots * l.slice && forall x :: 0 <= x < l.slice ==> x !in at
    ensures Sent(l, input, at, c0, c0, o0, o0)
  {
    MulGap(l.slice, l.own, l.slots);
  }

  ghost predicate Room(l: Launch, input: seq<bv8>, comm: nat, output: nat) {
    |input| == l.slots * l.slice && l.commOff + |input| <= comm && |l.ranks| * l.slice <= output
  }

  lemma SentStarts(l: Launch, input: seq<bv8>, at: iset<int>, c0: seq<bv8>, o0: seq<bv8>)
    requires l.Valid() && Room(l, input, |c0|, |o0|) && forall x :: 0 <= x < l.slice ==> x !in at
    ensures Sent(l, input, at, c0, c0, o0, o0)
  {
    hide Sent;
    SentNothing(l, input, at, c0, o0);
  }

  lemma SentThen(l: Launch, input: seq<bv8>, a: iset<int>, b: iset<int>, both: iset<int>,
                 c0: seq<bv8>, c1: seq<bv8>, c2: seq<bv8>, o0: seq<bv8>, o1: seq<bv8>, o2: seq<bv8>)
    requires l.Valid() && forall x :: 0 <= x < l.slice ==> (x in both <==> x in a || x in b)
    requires Sent(l, input, a, c0, c1, o0, o1) && Sent(l, input, b, c1, c2, o1, o2)
    ensures Sent(l, input, both, c0, c2, o0, o2)
  {
  }

  /** Staging every slot of the input for the slice offsets `[base, base + n)`. */
  method StageSlots(l: Launch, input: seq<bv8>, comm: array<bv8>, base: nat, n: nat, vec: nat)
    requires l.Valid() && vec > 0 && base + n <= l.slice
    requires |input| == l.slots * l.slice && l.commOff + |input| <= comm.Length
    modifies comm
    ensures Staged(l, l.slots, input, base, base + n, old(comm[..]), comm[..])
  {
    hide Staged, Copied;
    StagedNone(l, input, base, base + n, comm[..]);
    for t := 0 to l.slots
      invariant t * l.slice <= |input|
      invariant Staged(l, t, input, base, base + n, old(comm[..]), comm[..])
    {
      MulGap(l.slice, t, l.slots);
      ghost var half := comm[..];
      assert (t + 1) * l.slice == t * l.slice + l.slice;
      BlockCopy(input, t * l.slice + base, comm, l.commOff + t * l.slice + base, null, 0, n, vec);
      Rebased(input, t * l.slice, l.commOff + t * l.slice, base, n, half, comm[..]);
      StagedNext(l, t, input, base, base + n, old(comm[..]), half, comm[..]);
    }
  }

  lemma StagedNone(l: Launch, input: seq<bv8>, lo: nat, hi: nat, was: seq<bv8>)
    requires l.Valid()
    ensures Staged(l, 0, input, lo, hi, was, was)
  {
  }

  lemma Rebased(src: seq<bv8>, from: nat, to: nat, base: nat, n: nat, was: seq<bv8>, now: seq<bv8>)
    requires from + base + n <= |src| && Copied(src, from + base, to + base, 0, n, was, now)
    ensures Copied(src, from, to, base, base + n, was, now)
  {
  }

  /** One chunk of the sender. */
  method SendChunk(l: Launch, input: seq<bv8>, comm: array<bv8>, output: array<bv8>, base: nat, n: nat, vec: nat)
    requires l.Valid() && vec > 0 && base + n <= l.slice && comm != output
    requires Room(l, input, comm.Length, output.Length)
    modifies comm, output
    ensures Sent(l, input, Span(base, n), old(comm[..]), comm[..], old(output[..]), output[..])
  {
    hide Staged, Copied, Sent, Room;
    ChunkRoom(l, input, comm.Length, output.Length, base, n);
    if l.gather {
      BlockCopy(input, base, comm, l.commOff + base, output, l.me * l.slice + base, n, vec);
      GatherStaged(l, input, base, n, old(comm[..]), comm[..]);
    } else {
      StageSlots(l, input, comm, base, n, vec);
      BlockCopy(input, l.own * l.slice + base, output, l.me * l.slice + base, null, 0, n, vec);
    }
    Rebased(input, l.own * l.slice, l.me * l.slice, base, n, old(output[..]), output[..]);
    SentSpan(l, input, base, n, old(comm[..]), comm[..], old(output[..]), output[..]);
  }

  lemma ChunkRoom(l: Launch, input: seq<bv8>, comm: nat, output: nat, base: nat, n: nat)
    requires l.Valid() && Room(l, input, comm, output) && base + n <= l.slice
    ensures |input| == l.slots * l.slice && l.commOff + |input| <= comm
    ensures l.own * l.slice + base + n <= |input| && l.me * l.slice + base + n <= output
    ensures l.gather ==> l.own * l.slice == 0 && base + n <= |input|
  {
    MulGap(l.slice, l.own, l.slots);
    MulGap(l.slice, l.me, |l.ranks|);
  }

  lemma GatherStaged(l: Launch, input: seq<bv8>, base: nat, n: nat, was: seq<bv8>, now: seq<bv8>)
    requires l.Valid() && l.gather && |input| == l.slots * l.slice && base + n <= l.slice
    requires Copied(input, base, l.commOff + base, 0, n, was, now)
    ensures Staged(l, l.slots, input, base, base + n, was, now)
  {
    hide Staged, Copied;
    StagedNone(l, input, base, base + n, was);
    Rebased(input, 0, l.commOff, base, n, was, now);
    StagedNext(l, 0, input, base, base + n, was, was, now);
  }

  // ------------------------------------------------------- channels in any order

  /** Chunks that the programs of channel `ch` iterate over. */
  function ChunksOf(l: Launch, ch: int): nat
    requires l.chunk > 0
  {
    if ch < 0 then 0 else CeilDiv(PartitionSize(l.slice, l.partition, ch), l.chunk)
  }

  /** Where the programs of one role are: the next chunk of each channel, and the channels
      whose program has not ended. */
  datatype Walk = Walk(next: seq<nat>, live: set<int>)
  {
    ghost predicate OfChannels(l: Launch) requires l.Valid() {
      && |next| == l.channels
      && (forall ch :: ch in live ==> 0 <= ch < |next|)
      && (forall ch :: 0 <= ch < |next| && ch !in live ==> next[ch] >= ChunksOf(l, ch))
    }

    function AfterChunk(ch: nat): Walk requires ch < |next| {
      this.(next := next[ch := next[ch] + 1])
    }

    function AfterEnd(ch: int): Walk {
      this.(live := live - {ch})
    }
  }

  /** The offsets handled so far. */
  ghost function Walked(l: Launch, next: seq<nat>): iset<int>
    requires l.Valid()
  {
    iset off | Seen(l, next, off)
  }

  predicate Seen(l: Launch, next: seq<nat>, off: int)
    requires l.Valid()
  {
    0 <= off < l.slice && off / l.partition < |next| && off % l.partition / l.chunk < next[off / l.partition]
  }

  /** How far each channel goes. */
  ghost function Limits(l: Launch): (s: seq<nat>)
    requires l.Valid()
    ensures |s| == l.channels && forall ch :: 0 <= ch < |s| ==> s[ch] == ChunksOf(l, ch)
  {
    seq(l.channels, ch requires l.Valid() => ChunksOf(l, ch))
  }

  /** Handling a chunk adds exactly its bytes. */
  lemma ChunkAdds(l: Launch, w: Walk, ch: nat, off: int)
    requires l.Valid() && w.OfChannels(l) && ch in w.live && w.next[ch] < ChunksOf(l, ch) && 0 <= off < l.slice
    ensures w.AfterChunk(ch).OfChannels(l)
    ensures var base := ChunkBase(l.partition, l.chunk, ch, w.next[ch]);
      var n := ChunkBytes(l.slice, l.partition, l.chunk, ch, w.next[ch]);
      Seen(l, w.AfterChunk(ch).next, off) <==> (Seen(l, w.next, off) || off in Span(base, n))
  {
    ChunkOf(l.slice, l.partition, l.chunk, off, ch, w.next[ch]);
  }

  /** When all programs have ended, every offset of the slice has been handled. */
  lemma AllSeen(l: Launch, w: Walk, off: int)
    requires l.Valid() && w.OfChannels(l) && w.live == {} && 0 <= off < l.slice
    ensures Seen(l, w.next, off)
  {
    DivBound(l.partition, l.channels, off);
    var ch, x := off / l.partition, off % l.partition;
    assert off == ch * l.partition + x;
    InStep(l.partition, l.slice, off, ch);
    CeilDivMeans(PartitionSize(l.slice, l.partition, ch), l.chunk);
    DivBound(l.chunk, ChunksOf(l, ch), x);
  }

  function Zeros(n: nat): (z: seq<nat>)
    ensures |z| == n && forall ch :: 0 <= ch < n ==> z[ch] == 0
  {
    if n == 0 then [] else Zeros(n - 1) + [0]
  }

  lemma NothingSeen(l: Launch, off: int)
    requires l.Valid()
    ensures !Seen(l, Zeros(l.channels), off)
  {
    if 0 <= off < l.slice {
      RestNonNegative(off, l.partition, l.chunk);
    }
  }

  lemma RestNonNegative(x: nat, n: nat, m: nat)
    requires n > 0 && m > 0
    ensures x / n >= 0 && x % n / m >= 0
  {
    var rest := x % n;
    assert rest / m >= 0;
  }

  /** The next action of channel `ch`'s sender program: a chunk, or the end. */
  method SendAct(l: Launch, w: Walk, ch: nat, input: seq<bv8>, comm: array<bv8>, output: array<bv8>, vec: nat,
                 ghost c0: seq<bv8>, ghost o0: seq<bv8>) returns (after: Walk)
    requires l.Valid() && vec > 0 && comm != output && w.OfChannels(l) && ch in w.live
    requires Room(l, input, comm.Length, output.Length)
    requires Sent(l, input, Walked(l, w.next), c0, comm[..], o0, output[..])
    modifies comm, output
    ensures after.OfChannels(l) && after == if w.next[ch] < ChunksOf(l, ch) then w.AfterChunk(ch) else w.AfterEnd(ch)
    ensures Sent(l, input, Walked(l, after.next), c0, comm[..], o0, output[..])
  {
    hide Sent, Seen, ChunksOf, ChunkBase, ChunkBytes, Span, Walked, Room;
    if w.next[ch] < ChunksOf(l, ch) {
      ghost var c1, o1 := comm[..], output[..];
      var base := ChunkBase(l.partition, l.chunk, ch, w.next[ch]);
      var n := ChunkBytes(l.slice, l.partition, l.chunk, ch, w.next[ch]);
      NextChunk(l, w, ch);
      SendChunk(l, input, comm, output, base, n, vec);
      after := w.AfterChunk(ch);
      SentThen(l, input, Walked(l, w.next), Span(base, n), Walked(l, after.next), c0, c1, comm[..], o0, o1, output[..]);
    } else {
      after := w.AfterEnd(ch);
    }
  }

  /** All the sender programs of the grid, their chunks interleaved in any order across
      channels: the whole input is staged, and this rank's own slice is in its place in the
      output. */
  method Send(l: Launch, input: seq<bv8>, comm: array<bv8>, output: array<bv8>, vec: nat)
    requires l.Valid() && vec > 0 && comm != output
    requires Room(l, input, comm.Length, output.Length)
    modifies comm, output
    ensures Sent(l, input, Span(0, l.slice), old(comm[..]), comm[..], old(output[..]), output[..])
  {
    hide Sent, Seen, ChunksOf, Span, Walked, Room, Walk.OfChannels;
    WalkStarts(l);
    var w := Walk(Zeros(l.channels), Upto(l.channels));
    SentStarts(l, input, Walked(l, w.next), comm[..], output[..]);
    while w.live != {}
      invariant w.OfChannels(l) && |w.next| == l.channels
      invariant Sent(l, input, Walked(l, w.next), old(comm[..]), comm[..], old(output[..]), output[..])
      decreases |w.live|, Pending(w.next, Limits(l))
    {
      var ch: int :| ch in w.live;
      WalkOn(l, w, ch);
      w := SendAct(l, w, ch, input, comm, output, vec, old(comm[..]), old(output[..]));
    }
    WholeSlice(l, w);
    SentSame(l, input, Walked(l, w.next), Span(0, l.slice), old(comm[..]), comm[..], old(output[..]), output[..]);
  }

  lemma WalkStarts(l: Launch)
    requires l.Valid()
    ensures Walk(Zeros(l.channels), Upto(l.channels)).OfChannels(l)
    ensures forall x :: 0 <= x < l.slice ==> x !in Walked(l, Zeros(l.channels))
  {
    hide Seen, ChunksOf;
    forall x | 0 <= x < l.slice ensures x !in Walked(l, Zeros(l.channels)) { NothingSeen(l, x); }
  }

  /** The action of a live channel brings the walk nearer to its end. */
  lemma WalkOn(l: Launch, w: Walk, ch: int)
    requires l.Valid() && w.OfChannels(l) && ch in w.live
    ensures 0 <= ch < |w.next|
    ensures w.next[ch] < ChunksOf(l, ch) ==> Pending(w.AfterChunk(ch).next, Limits(l)) < Pending(w.next, Limits(l))
    ensures w.AfterChunk(ch).live == w.live && |w.AfterEnd(ch).live| < |w.live|
  {
    if w.next[ch] < ChunksOf(l, ch) { PendingLess(w.next, Limits(l), ch, w.next[ch] + 1); }
  }

  /** The chunk that comes next on a channel fits the slice and adds exactly its bytes. */
  lemma NextChunk(l: Launch, w: Walk, ch: nat)
    requires l.Valid() && w.OfChannels(l) && ch in w.live && w.next[ch] < ChunksOf(l, ch)
    ensures w.AfterChunk(ch).OfChannels(l)
    ensures var base := ChunkBase(l.partition, l.chunk, ch, w.next[ch]);
      var n := ChunkBytes(l.slice, l.partition, l.chunk, ch, w.next[ch]);
      && base + n <= l.slice
      && (forall x :: 0 <= x < l.slice ==>
        (x in Walked(l, w.AfterChunk(ch).next) <==> x in Walked(l, w.next) || x in Span(base, n)))
  {
    hide ChunkBase, ChunkBytes, Span, Seen;
    ChunkInSlice(l.slice, l.partition, l.chunk, ch, w.next[ch]);
    var base := ChunkBase(l.partition, l.chunk, ch, w.next[ch]);
    var n := ChunkBytes(l.slice, l.partition, l.chunk, ch, w.next[ch]);
    forall x | 0 <= x < l.slice
      ensures x in Walked(l, w.AfterChunk(ch).next) <==> x in Walked(l, w.next) || x in Span(base, n)
    {
      ChunkAdds(l, w, ch, x);
    }
    ChunkAdds(l, w, ch, 0);
  }

  lemma WholeSlice(l: Launch, w: Walk)
    requires l.Valid() && w.OfChannels(l) && w.live == {}
    ensures forall x :: 0 <= x < l.slice ==> (x in Walked(l, w.next) <==> x in Span(0, l.slice))
  {
    forall x | 0 <= x < l.slice ensures x in Walked(l, w.next) { AllSeen(l, w, x); }
  }

  lemma SentSame(l: Launch, input: seq<bv8>, a: iset<int>, b: iset<int>, c0: seq<bv8>, c1: seq<bv8>,
      o0: seq<bv8>, o1: seq<bv8>)
    requires l.Valid() && forall x :: 0 <= x < l.slice ==> (x in a <==> x in b)
    requires Sent(l, input, a, c0, c1, o0, o1)
    ensures Sent(l, input, b, c0, c1, o0, o1)
  {
  }

  /** The bytes a program moves for chunk `k` of channel `ch` are those whose step cell in
      the protocol model is `(ch, k)`. */
  lemma ChunkIsCell(l: Launch, op: Op, ch: nat, k: nat, off: nat)
    requires l.Valid() && op.slice == l.slice && op.path == Fused(l.partition, l.chunk) && off < l.slice
    ensures off in Span(ChunkBase(l.partition, l.chunk, ch, k), ChunkBytes(l.slice, l.partition, l.chunk, ch, k)) <==>
      Protocol.CellOf(op, off) == (ch, k)
  {
    Tiling(op, off, ch, k);
  }

  // ---------------------------------------------------------------- receiver

  /** Where byte `off` of peer `i`'s slice for this rank sits in its comm buffer. */
  function Addr(l: Launch, off: nat): nat {
    l.commOff + l.own * l.slice + off
  }

  ghost predicate Comms(l: Launch, comms: seq<seq<bv8>>) {
    forall i :: 0 <= i < |l.ranks| ==> l.ranks[i] < |comms| && Addr(l, l.slice) <= |comms[l.ranks[i]]|
  }

  /** The peers that come before `turn` in this rank's order, without itself. */
  predicate Before(l: Launch, turn: nat, i: int)
    requires l.ranks != []
    ensures Before(l, turn, i) ==> 0 <= i < |l.ranks|
  {
    0 <= i < |l.ranks| && i != l.me && Turn(|l.ranks|, l.me, i) < turn
  }

  /** `o1` is `o0` with the slice offsets in `at` of the first `turn` peers pulled. */
  ghost predicate Pulled(l: Launch, comms: seq<seq<bv8>>, turn: nat, at: iset<int>, o0: seq<bv8>, o1: seq<bv8>)
    requires l.Valid() && Comms(l, comms)
  {
    && |o1| == |o0|
    && (forall j :: 0 <= j < |o1| ==>
      o1[j] == if Before(l, turn, j / l.slice) && j % l.slice in at
               then PeerByte(l, comms, j / l.slice, j % l.slice) else o0[j])
  }

  function PeerByte(l: Launch, comms: seq<seq<bv8>>, i: nat, off: nat): bv8
    requires l.Valid() && Comms(l, comms) && i < |l.ranks| && off < l.slice
  {
    comms[l.ranks[i]][Addr(l, off)]
  }

  lemma PulledNothing(l: Launch, comms: seq<seq<bv8>>, turn: nat, at: iset<int>, o0: seq<bv8>)
    requires l.Valid() && Comms(l, comms) && (turn == 0 || forall x :: 0 <= x < l.slice ==> x !in at)
    ensures Pulled(l, comms, turn, at, o0, o0)
  {
    forall i | 0 <= i < |l.ranks| ensures Turn(|l.ranks|, l.me, i) >= 0 { Swizzle(|l.ranks|, l.me, i, 0); }
  }

  lemma PulledThen(l: Launch, comms: seq<seq<bv8>>, a: iset<int>, b: iset<int>, both: iset<int>,
                   o0: seq<bv8>, o1: seq<bv8>, o2: seq<bv8>)
    requires l.Valid() && Comms(l, comms) && forall x :: 0 <= x < l.slice ==> (x in both <==> x in a || x in b)
    requires Pulled(l, comms, |l.ranks|, a, o0, o1) && Pulled(l, comms, |l.ranks|, b, o1, o2)
    ensures Pulled(l, comms, |l.ranks|, both, o0, o2)
  {
    hide Before, PeerByte;
  }

  lemma PulledSame(l: Launch, comms: seq<seq<bv8>>, a: iset<int>, b: iset<int>, o0: seq<bv8>, o1: seq<bv8>)
    requires l.Valid() && Comms(l, comms) && forall x :: 0 <= x < l.slice ==> (x in a <==> x in b)
    requires Pulled(l, comms, |l.ranks|, a, o0, o1)
    ensures Pulled(l, comms, |l.ranks|, b, o0, o1)
  {
    hide Before, PeerByte;
  }

  /** The next peer: nothing if it is this rank, else a block copy from its comm buffer. */
  lemma PulledNext(l: Launch, comms: seq<seq<bv8>>, turn: nat, base: nat, n: nat, o0: seq<bv8>, o1: seq<bv8>,
      o2: seq<bv8>)
    requires l.Valid() && Comms(l, comms) && turn < |l.ranks| && base + n <= l.slice
    requires Pulled(l, comms, turn, Span(base, n), o0, o1)
    requires var i := (turn + l.me + 1) % |l.ranks|;
      if i == l.me then o2 == o1 else Copied(comms[l.ranks[i]], Addr(l, 0), i * l.slice, base, base + n, o1, o2)
    ensures Pulled(l, comms, turn + 1, Span(base, n), o0, o2)
  {
    hide PeerByte, Before, Comms;
    var i := (turn + l.me + 1) % |l.ranks|;
    forall j | 0 <= j < |o0|
      ensures |o2| == |o0|
      ensures o2[j] == if Before(l, turn + 1, j / l.slice) && j % l.slice in Span(base, n)
                       then PeerByte(l, comms, j / l.slice, j % l.slice) else o0[j]
    {
      NextPeer(l, turn, j / l.slice);
      PulledAt(l, comms, i, base, base + n, o1, o2, j);
    }
  }

  lemma NextPeer(l: Launch, turn: nat, i: int)
    requires l.Valid() && turn < |l.ranks|
    ensures Before(l, turn + 1, i) <==> Before(l, turn, i) || (i == (turn + l.me + 1) % |l.ranks| && i != l.me)
  {
    if 0 <= i < |l.ranks| { Swizzle(|l.ranks|, l.me, i, turn); }
  }

  lemma PulledAt(l: Launch, comms: seq<seq<bv8>>, i: nat, lo: nat, hi: nat, o1: seq<bv8>, o2: seq<bv8>, j: nat)
    requires l.Valid() && Comms(l, comms) && i < |l.ranks| && lo <= hi <= l.slice && j < |o1|
    requires if i == l.me then o2 == o1 else Copied(comms[l.ranks[i]], Addr(l, 0), i * l.slice, lo, hi, o1, o2)
    ensures |o2| == |o1|
    ensures o2[j] == if i != l.me && j / l.slice == i && lo <= j % l.slice < hi
                     then PeerByte(l, comms, i, j % l.slice) else o1[j]
  {
    assert j == j / l.slice * l.slice + j % l.slice;
    if i * l.slice + lo <= j < i * l.slice + hi { InSlot(l.slice, i, j); }
  }

  lemma PullRoom(l: Launch, comms: seq<seq<bv8>>, i: nat, base: nat, n: nat)
    requires l.Valid() && Comms(l, comms) && i < |l.ranks| && base + n <= l.slice
    ensures l.ranks[i] < |comms| && Addr(l, base) + n <= |comms[l.ranks[i]]|
    ensures i * l.slice + base + n <= |l.ranks| * l.slice
    ensures Addr(l, base) == Addr(l, 0) + base
  {
    MulGap(l.slice, i, |l.ranks|);
  }

  /** One chunk of the receiver, after its poll. */
  method PullChunk(l: Launch, comms: seq<seq<bv8>>, output: array<bv8>, base: nat, n: nat, vec: nat)
    requires l.Valid() && vec > 0 && base + n <= l.slice
    requires Comms(l, comms) && |l.ranks| * l.slice <= output.Length
    modifies output
    ensures Pulled(l, comms, |l.ranks|, Span(base, n), old(output[..]), output[..])
  {
    hide Pulled, Copied, Comms, Span;
    PulledNothing(l, comms, 0, Span(base, n), output[..]);
    for turn := 0 to |l.ranks|
      invariant Pulled(l, comms, turn, Span(base, n), old(output[..]), output[..])
    {
      var i := (turn + l.me + 1) % |l.ranks|;
      ghost var o1 := output[..];
      if i != l.me {
        PullRoom(l, comms, i, base, n);
        BlockCopy(comms[l.ranks[i]], Addr(l, base), output, i * l.slice + base, null, 0, n, vec);
        Rebased(comms[l.ranks[i]], Addr(l, 0), i * l.slice, base, n, o1, output[..]);
      }
      PulledNext(l, comms, turn, base, n, old(output[..]), o1, output[..]);
    }
  }

  /** The next action of channel `ch`'s receiver program. */
  method PullAct(l: Launch, w: Walk, ch: nat, comms: seq<seq<bv8>>, output: array<bv8>, vec: nat, ghost o0: seq<bv8>)
    returns (after: Walk)
    requires l.Valid() && vec > 0 && w.OfChannels(l) && ch in w.live
    requires Comms(l, comms) && |l.ranks| * l.slice <= output.Length
    requires Pulled(l, comms, |l.ranks|, Walked(l, w.next), o0, output[..])
    modifies output
    ensures after.OfChannels(l) && after == if w.next[ch] < ChunksOf(l, ch) then w.AfterChunk(ch) else w.AfterEnd(ch)
    ensures Pulled(l, comms, |l.ranks|, Walked(l, after.next), o0, output[..])
  {
    hide Pulled, Seen, ChunksOf, ChunkBase, ChunkBytes, Span, Walked, Comms;
    if w.next[ch] < ChunksOf(l, ch) {
      ghost var o1 := output[..];
      var base := ChunkBase(l.partition, l.chunk, ch, w.next[ch]);
      var n := ChunkBytes(l.slice, l.partition, l.chunk, ch, w.next[ch]);
      NextChunk(l, w, ch);
      PullChunk(l, comms, output, base, n, vec);
      after := w.AfterChunk(ch);
      PulledThen(l, comms, Walked(l, w.next), Span(base, n), Walked(l, after.next), o0, o1, output[..]);
    } else {
      after := w.AfterEnd(ch);
    }
  }

  /** All the receiver programs of the grid, their chunks interleaved in any order across
      channels: every other peer's whole slice is pulled to its place. */
  method Receive(l: Launch, comms: seq<seq<bv8>>, output: array<bv8>, vec: nat)
    requires l.Valid() && vec > 0
    requires Comms(l, comms) && |l.ranks| * l.slice <= output.Length
    modifies output
    ensures Pulled(l, comms, |l.ranks|, Span(0, l.slice), old(output[..]), output[..])
  {
    hide Pulled, Seen, ChunksOf, Span, Walked, Comms, Walk.OfChannels;
    WalkStarts(l);
    var w := Walk(Zeros(l.channels), Upto(l.channels));
    PulledNothing(l, comms, |l.ranks|, Walked(l, w.next), output[..]);
    while w.live != {}
      invariant w.OfChannels(l) && |w.next| == l.channels
      invariant Pulled(l, comms, |l.ranks|, Walked(l, w.next), old(output[..]), output[..])
      decreases |w.live|, Pending(w.next, Limits(l))
    {
      var ch: int :| ch in w.live;
      WalkOn(l, w, ch);
      w := PullAct(l, w, ch, comms, output, vec, old(output[..]));
    }
    WholeSlice(l, w);
    PulledSame(l, comms, Walked(l, w.next), Span(0, l.slice), old(output[..]), output[..]);
  }

  /** Where byte `off` of the slice from peer `i` belongs in the output. */
  function Spot(l: Launch, i: nat, off: nat): nat {
    i * l.slice + off
  }

  /** Sender and receiver programs together write every byte of the output, each from the
      right peer's input, provided the pulled buffers hold what the peers staged. */
  lemma FusedResult(l: Launch, inputs: seq<seq<bv8>>, comms: seq<seq<bv8>>,
                    c0: seq<bv8>, c1: seq<bv8>, o0: seq<bv8>, o1: seq<bv8>, o2: seq<bv8>, i: nat, off: nat)
    requires l.Valid() && Comms(l, comms) && |inputs| == |l.ranks| && |o0| == |l.ranks| * l.slice
    requires forall p :: 0 <= p < |inputs| ==> |inputs[p]| == l.slots * l.slice
    requires Sent(l, inputs[l.me], Span(0, l.slice), c0, c1, o0, o1)
    requires Pulled(l, comms, |l.ranks|, Span(0, l.slice), o1, o2)
    requires forall p, x ::
      0 <= p < |l.ranks| && p != l.me && 0 <= x < l.slots * l.slice && l.commOff + x < |comms[l.ranks[p]]| ==>
      comms[l.ranks[p]][l.commOff + x] == inputs[p][x]
    requires i < |l.ranks| && off < l.slice
    ensures Spot(l, i, off) < |o2| == |o0|
    ensures l.own * l.slice + off < |inputs[i]|
    ensures o2[Spot(l, i, off)] == inputs[i][l.own * l.slice + off]
  {
    hide Staged;
    var j := Spot(l, i, off);
    PairBound(l.slice, |l.ranks|, i, off);
    PairBound(l.slice, l.slots, l.own, off);
    DivModOf(l.slice, i, off);
    Swizzle(|l.ranks|, l.me, i, 0);
    if i != l.me {
      assert o2[j] == PeerByte(l, comms, i, off);
      var x := l.own * l.slice + off;
      assert comms[l.ranks[i]][l.commOff + x] == inputs[i][x];
    } else {
      assert o1[j] == inputs[i][l.own * l.slice + (j - l.me * l.slice)];
    }
  }

  // -------------------------------------------- the call that the kernel carries out

  /** The launch belongs to this call of the protocol model. */
  ghost predicate CarriesOut(l: Launch, op: Op) {
    && l.Valid() && op.ranks == l.ranks && op.slice == l.slice
    && op.kind == (if l.gather then AllGather else AllToAll)
    && |op.inputs| == |op.ranks|
    && (forall i :: 0 <= i < |op.ranks| ==> |op.inputs[i]| == StageLen(op))
  }

  /** The launch stages what the model says the call stages, and takes the slice of every
      peer that the model says is this member's: its own for an all2all. */
  lemma LaunchFits(l: Launch, op: Op)
    requires CarriesOut(l, op)
    ensures l.slots * l.slice == StageLen(op)
    ensures l.own == Protocol.Sel(op, l.me)
  {
  }

  /** The byte that the model wants from peer `i` is the one this kernel takes. */
  lemma WantedByte(l: Launch, op: Op, i: nat, off: nat)
    requires CarriesOut(l, op) && i < |op.ranks| && off < l.slice
    ensures l.own * l.slice + off < |op.inputs[i]|
    ensures CopyPlan.OutByte(op, l.me, Spot(l, i, off)) == op.inputs[i][l.own * l.slice + off]
  {
    LaunchFits(l, op);
    PairBound(l.slice, l.slots, l.own, off);
    DivModOf(l.slice, i, off);
  }

  /** All senders have run, each on its own input. */
  ghost predicate AllSent(l: Launch, op: Op, comms: seq<seq<bv8>>, c0: seq<seq<bv8>>, o0: seq<seq<bv8>>,
      o1: seq<seq<bv8>>)
    requires CarriesOut(l, op) && Comms(l, comms)
  {
    && |c0| == |o0| == |o1| == |op.ranks|
    && (forall p :: 0 <= p < |op.ranks| ==>
      Sent(l.(me := p), op.inputs[p], Span(0, l.slice), c0[p], comms[op.ranks[p]], o0[p], o1[p]))
  }

  lemma AllStaged(l: Launch, op: Op, comms: seq<seq<bv8>>, c0: seq<seq<bv8>>, o0: seq<seq<bv8>>, o1: seq<seq<bv8>>,
      p: nat, x: nat)
    requires CarriesOut(l, op) && Comms(l, comms) && AllSent(l, op, comms, c0, o0, o1)
    requires p < |l.ranks| && x < l.slots * l.slice && l.commOff + x < |comms[l.ranks[p]]|
    ensures comms[l.ranks[p]][l.commOff + x] == op.inputs[p][x]
  {
    LaunchFits(l, op);
    hide Sent;
    StagedByte(l.(me := p), op.inputs[p], c0[p], comms[op.ranks[p]], o0[p], o1[p], x);
  }

  lemma FusedByte(l: Launch, op: Op, comms: seq<seq<bv8>>, c0: seq<seq<bv8>>, o0: seq<seq<bv8>>,
                  o1: seq<seq<bv8>>, o2: seq<bv8>, i: nat, off: nat)
    requires CarriesOut(l, op) && Comms(l, comms) && AllSent(l, op, comms, c0, o0, o1)
    requires |o0[l.me]| == |l.ranks| * l.slice
    requires Pulled(l, comms, |l.ranks|, Span(0, l.slice), o1[l.me], o2)
    requires i < |l.ranks| && off < l.slice
    ensures Spot(l, i, off) < |o2| == |o0[l.me]|
    ensures o2[Spot(l, i, off)] == CopyPlan.OutByte(op, l.me, Spot(l, i, off))
  {
    forall p, x | 0 <= p < |l.ranks| && 0 <= x < l.slots * l.slice && l.commOff + x < |comms[l.ranks[p]]|
      ensures comms[l.ranks[p]][l.commOff + x] == op.inputs[p][x]
    {
      AllStaged(l, op, comms, c0, o0, o1, p, x);
    }
    InputLengths(l, op);
    WantedByte(l, op, i, off);
    assert l.(me := l.me) == l;
    hide Sent, Pulled, Comms, CopyPlan.OutByte, Span, StageLen, Spot;
    FusedResult(l, op.inputs, comms, c0[l.me], comms[op.ranks[l.me]], o0[l.me], o1[l.me], o2, i, off);
  }

  lemma InputLengths(l: Launch, op: Op)
    requires CarriesOut(l, op)
    ensures forall p :: 0 <= p < |op.inputs| ==> |op.inputs[p]| == l.slots * l.slice
  {
    LaunchFits(l, op);
  }

  /** Every member's sender has run on its own input, and this member's receiver has pulled
      from the comm buffers they filled: its output is the specified one. */
  lemma FusedDelivers(l: Launch, op: Op, comms: seq<seq<bv8>>, c0: seq<seq<bv8>>, o0: seq<seq<bv8>>,
                      o1: seq<seq<bv8>>, o2: seq<bv8>)
    requires CarriesOut(l, op) && Comms(l, comms) && AllSent(l, op, comms, c0, o0, o1)
    requires |o0[l.me]| == |l.ranks| * l.slice
    requires Pulled(l, comms, |l.ranks|, Span(0, l.slice), o1[l.me], o2)
    ensures o2 == CopyPlan.Expected(op, l.me)
  {
    hide Sent, Pulled, Comms, CopyPlan.OutByte, Span, AllSent;
    FusedByte(l, op, comms, c0, o0, o1, o2, 0, 0);
    forall j | 0 <= j < |o2| ensures o2[j] == CopyPlan.OutByte(op, l.me, j) {
      DivBound(l.slice, |l.ranks|, j);
      assert Spot(l, j / l.slice, j % l.slice) == j;
      FusedByte(l, op, comms, c0, o0, o1, o2, j / l.slice, j % l.slice);
    }
  }

  lemma StagedByte(l: Launch, input: seq<bv8>, c0: seq<bv8>, c1: seq<bv8>, o0: seq<bv8>, o1: seq<bv8>, x: nat)
    requires l.Valid() && Sent(l, input, Span(0, l.slice), c0, c1, o0, o1)
    requires x < |input| && l.commOff + x < |c1|
    ensures c1[l.commOff + x] == input[x]
  {
    assert x % l.slice in Span(0, l.slice);
  }
}
