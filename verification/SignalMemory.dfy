/** The signalling memory as the kernels address it: flat arrays of 64-bit cells, updated
    in place.  Each method is one kernel action, and keeps the arrays in step with the
    transition system. */
module SignalMemory {
  import opened Words
  import opened Arithmetic
  import opened Schedule
  import opened Protocol

  /** The signal grids, edge counters and step pads of all ranks; rank `d`'s part of an
      array starts at `d` times the size of one rank's part. */
  class Memory {
    const world: nat
    const padSize: nat
    const signal: array<U64>
    const edgeSeq: array<U64>
    const pad: array<U64>

    ghost predicate Valid() {
      && signal.Length == world * (2 * world)
      && edgeSeq.Length == world * world
      && pad.Length == world * padSize
      && signal != edgeSeq && signal != pad && edgeSeq != pad
    }

    function SignalAt(dst: Rank, slot: nat, src: Rank): nat {
      dst * (2 * world) + (slot * world + src)
    }

    function EdgeAt(r: Rank, p: Rank): nat {
      r * world + p
    }

    function PadAt(dst: Rank, cell: nat): nat {
      dst * padSize + cell
    }

    /** The arrays hold what the protocol state says. */
    ghost predicate Shows(s: State)
      requires Valid()
      reads signal, edgeSeq, pad
    {
      && (forall d: nat, slot: nat, src: nat :: d < world && slot < 2 && src < world ==>
        SignalAt(d, slot, src) < signal.Length && signal[SignalAt(d, slot, src)] == Val(s.signal, (d, slot, src)))
      && (forall r: nat, p: nat :: r < world && p < world ==>
        EdgeAt(r, p) < edgeSeq.Length && edgeSeq[EdgeAt(r, p)] == Val(s.edgeSeq, (r, p)))
      && (forall d: nat, c: nat :: d < world && c < padSize ==>
        PadAt(d, c) < pad.Length && pad[PadAt(d, c)] == Val(s.pad, (d, c)))
    }

    /** Different cells have different addresses, inside the allocation. */
    lemma Apart(d: nat, slot: nat, src: nat, d': nat, slot': nat, src': nat)
      requires d < world && slot < 2 && src < world && d' < world && slot' < 2 && src' < world
      ensures SignalAt(d, slot, src) < world * (2 * world)
      ensures SignalAt(d, slot, src) == SignalAt(d', slot', src') <==> d == d' && slot == slot' && src == src'
    {
      Nested(world, 2, 2 * world, d, slot, src);
      Nested(world, 2, 2 * world, d', slot', src');
      NestedApart(world, 2 * world, d, slot, src, d', slot', src');
    }

    lemma Rows(n: nat, a: nat, b: nat, c: nat, e: nat)
      requires a < world && c < world && b < n && e < n
      ensures a * n + b < world * n
      ensures a * n + b == c * n + e <==> a == c && b == e
    {
      PairBound(n, world, a, b);
      if a * n + b == c * n + e { PairInjective(n, a, b, c, e); }
    }

    lemma EdgeRow(r: nat, p: nat)
      requires r < world && p < world
      ensures EdgeAt(r, p) < world * world
    {
      Rows(world, r, p, r, p);
    }

    lemma PadRow(d: nat, c: nat)
      requires d < world && c < padSize
      ensures PadAt(d, c) < world * padSize
    {
      Rows(padSize, d, c, d, c);
    }

    /** Every cell lies inside its array. */
    lemma AllInside()
      ensures forall d: nat, slot: nat, src: nat :: d < world && slot < 2 && src < world ==>
        SignalAt(d, slot, src) < world * (2 * world)
      ensures forall r: nat, p: nat :: r < world && p < world ==> EdgeAt(r, p) < world * world
      ensures forall d: nat, c: nat :: d < world && c < padSize ==> PadAt(d, c) < world * padSize
    {
      hide SignalAt, EdgeAt, PadAt;
      forall d: nat, slot: nat, src: nat | d < world && slot < 2 && src < world
        ensures SignalAt(d, slot, src) < world * (2 * world)
      {
        Apart(d, slot, src, d, slot, src);
      }
      forall r: nat, p: nat | r < world && p < world ensures EdgeAt(r, p) < world * world { EdgeRow(r, p); }
      forall d: nat, c: nat | d < world && c < padSize ensures PadAt(d, c) < world * padSize { PadRow(d, c); }
    }

    /** A fresh boot: all cells zero, which is the protocol's initial state. */
    constructor (world: nat, padSize: nat)
      ensures Valid() && this.world == world && this.padSize == padSize
      ensures fresh(signal) && fresh(edgeSeq) && fresh(pad)
      ensures forall sys: System, s: State :: InitialState(sys, s) ==> Shows(s)
    {
      this.world, this.padSize := world, padSize;
      signal := new U64[world * (2 * world)](_ => 0);
      edgeSeq := new U64[world * world](_ => 0);
      pad := new U64[world * padSize](_ => 0);
      new;
      hide Shows, InitialState;
      forall sys: System, s: State | InitialState(sys, s) ensures Shows(s) { ZeroShows(sys, s); }
    }

    lemma ZeroShows(sys: System, s: State)
      requires Valid() && InitialState(sys, s)
      requires forall i :: 0 <= i < signal.Length ==> signal[i] == 0
      requires forall i :: 0 <= i < edgeSeq.Length ==> edgeSeq[i] == 0
      requires forall i :: 0 <= i < pad.Length ==> pad[i] == 0
      ensures Shows(s)
    {
      hide SignalAt, EdgeAt, PadAt;
      AllInside();
    }

    /** The first half of an edge program: take the slot from the counter's parity, bump
        the counter, store the token into the peer's cell for this rank. */
    method PublishEdge(ghost sys: System, ghost s: State, r: Rank, p: Rank, token: U64) returns (slot: nat)
      requires Valid() && Shape(sys) && sys.world == world && r < world && p < world && Shows(s)
      requires Enabled(sys, s, Publish(r, p)) && token == Token(sys, r, s.ranks[r].at, s.ranks[r].bar)
      modifies signal, edgeSeq
      ensures slot < 2 && slot == RankAfter(sys, s, Publish(r, p)).published[p]
      ensures EdgeAt(r, p) < edgeSeq.Length && slot == old(edgeSeq[EdgeAt(r, p)]) % 2
      ensures edgeSeq[EdgeAt(r, p)] == (old(edgeSeq[EdgeAt(r, p)]) + 1) % TWO64
      ensures SignalAt(p, slot, r) < signal.Length && signal[SignalAt(p, slot, r)] == token
      ensures Shows(Do(sys, s, Publish(r, p)))
    {
      ghost var t := Do(sys, s, Publish(r, p));
      assert t.signal == s.signal[(p, Val(s.edgeSeq, (r, p)) % 2, r) := token];
      assert t.edgeSeq == s.edgeSeq[(r, p) := Bump(Val(s.edgeSeq, (r, p)))] && t.pad == s.pad;
      assert RankAfter(sys, s, Publish(r, p)).published[p] == Val(s.edgeSeq, (r, p)) % 2;
      hide Enabled, Do, RankAfter, Token;
      var n := edgeSeq[EdgeAt(r, p)];
      slot := n % 2;
      edgeSeq[EdgeAt(r, p)] := (n + 1) % TWO64;
      Apart(p, slot, r, p, slot, r);
      signal[SignalAt(p, slot, r)] := token;
      forall d: nat, l: nat, src: nat | d < world && l < 2 && src < world
        ensures SignalAt(d, l, src) == SignalAt(p, slot, r) <==> d == p && l == slot && src == r
      {
        Apart(d, l, src, p, slot, r);
      }
      forall a: nat, b: nat | a < world && b < world ensures EdgeAt(a, b) == EdgeAt(r, p) <==> a == r && b == p {
        Rows(world, a, b, r, p);
      }
    }

    /** One look at this rank's cell for the peer: it succeeds exactly when the protocol's
        wait is enabled, so the spin ends exactly there. */
    method ObserveEdge(ghost sys: System, ghost s: State, r: Rank, p: Rank, slot: nat,
        token: U64) returns (arrived: bool)
      requires Valid() && Shape(sys) && sys.world == world && r < world && p < world && slot < 2 && Shows(s)
      requires Active(sys, s, r) && Member(CurOp(sys, s, r), r)
      requires p in s.ranks[r].published && p !in s.ranks[r].waited && slot == s.ranks[r].published[p]
      requires token == Token(sys, r, s.ranks[r].at, s.ranks[r].bar)
      ensures arrived <==> Enabled(sys, s, Wait(r, p))
    {
      hide Token;
      arrived := signal[SignalAt(r, slot, p)] == token;
    }

    /** The fused sender's store of chunk `k`'s target into peer `p`'s pad. */
    method PostStep(ghost sys: System, ghost s: State, r: Rank, ch: nat, k: nat, p: Rank, stepBase: U64, maxChunks: nat)
      requires Valid() && Shape(sys) && sys.world == world && r < world && p < world && Shows(s)
      requires maxChunks == sys.maxChunks && Cell(sys, ch, k, r) < padSize
      requires Enabled(sys, s, Post(r, ch, k, p)) && stepBase == StepBase(sys, r, s.ranks[r].at)
      modifies pad
      ensures PadAt(p, Cell(sys, ch, k, r)) < pad.Length
      ensures pad[PadAt(p, Cell(sys, ch, k, r))] == (stepBase + k + 1) % TWO64
      ensures Shows(Do(sys, s, Post(r, ch, k, p)))
    {
      ghost var t := Do(sys, s, Post(r, ch, k, p));
      assert t.pad == s.pad[(p, Cell(sys, ch, k, r)) := (stepBase + k + 1) % TWO64];
      assert t.signal == s.signal && t.edgeSeq == s.edgeSeq;
      hide Enabled, Do, RankAfter, StepBase;
      var cell := ch * maxChunks * world + k * world + r;
      pad[PadAt(p, cell)] := (stepBase + (k + 1)) % TWO64;
      forall d: nat, c: nat | d < world && c < padSize ensures PadAt(d, c) == PadAt(p, cell) <==> d == p && c == cell {
        Rows(padSize, d, c, p, cell);
      }
    }

    /** One round of the fused receiver's poll: all producers' cells must equal the target. */
    method PollStep(ghost sys: System, ghost s: State, r: Rank, ch: nat, k: nat, ranks: seq<Rank>, stepBase: U64,
        maxChunks: nat)
      returns (satisfied: bool)
      requires Valid() && Shape(sys) && sys.world == world && r < world && Shows(s)
      requires Active(sys, s, r) && ranks == CurOp(sys, s, r).ranks && stepBase == StepBase(sys, r, s.ranks[r].at)
      requires maxChunks == sys.maxChunks && forall p :: p in ranks ==> p < world && Cell(sys, ch, k, p) < padSize
      ensures satisfied <==> forall p :: p in ranks && p != r ==>
        Val(s.pad, (r, Cell(sys, ch, k, p))) == LocalTarget(sys, s, r, k)
      ensures LocalTarget(sys, s, r, k) == (stepBase + k + 1) % TWO64
    {
      assert LocalTarget(sys, s, r, k) == (stepBase + k + 1) % TWO64;
      hide StepBase, LocalTarget;
      var target := (stepBase + (k + 1)) % TWO64;
      satisfied := true;
      for lane := 0 to |ranks|
        invariant satisfied <==> forall i :: 0 <= i < lane && ranks[i] != r ==>
          Val(s.pad, (r, Cell(sys, ch, k, ranks[i]))) == target
      {
        var p := ranks[lane];
        assert p in ranks;
        var observed := pad[PadAt(r, ch * maxChunks * world + k * world + p)];
        satisfied := satisfied && (p == r || observed == target);
      }
    }
  }
}
