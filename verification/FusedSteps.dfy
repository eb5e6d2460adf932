/** The fused kernel's step pad.

    Between the two barriers of a fused call, sender and receiver CTAs of all channels
    run freely.  A receiver's poll compares a cell with its own target for equality, and
    the cell may still hold a value from any earlier fused call.  Under distinct step
    bases a satisfied poll means that the producer has posted this very chunk of this
    very call, and a posted chunk stays visible for as long as the receiver needs it. */
module FusedSteps {
  import opened Arithmetic
  import opened Words
  import opened Schedule
  import opened Protocol
  import opened LocalOrder
  import opened BarrierSafety

  /** Producer `p` has posted chunk `(ch, k)` of call `c` to rank `q`. */
  ghost predicate StepDone(sys: System, s: State, p: Rank, c: OpId, ch: nat, k: nat, q: Rank)
    requires WellFormed(sys) && |s.ranks| == sys.world && c < |sys.ops| && p in sys.ops[c].ranks
  {
    var i := Idx(sys, p, c);
    s.ranks[p].at > i || (s.ranks[p].at == i && (ch, k, q) in s.ranks[p].posted)
  }

  /** While a rank is between two barriers of a call and has not published the second,
      every member is inside the same call. */
  lemma Window(sys: System, s: State, e: Rank, m: Rank)
    requires WellFormed(sys) && BarrierOK(sys, s) && Active(sys, s, e)
    requires m in CurOp(sys, s, e).ranks
    requires 1 <= s.ranks[e].bar < Bars(CurOp(sys, s, e)) && s.ranks[e].published == map[]
    ensures m < sys.world && s.ranks[m].at == Idx(sys, m, sys.prog[e][s.ranks[e].at])
  {
    hide EdgeOK, RankOK, Registered, PairAgree;
    var c, b := sys.prog[e][s.ranks[e].at], s.ranks[e].bar;
    IdxAt(sys, e, s.ranks[e].at);
    MemberInWorld(sys, m, c);
    LeaveAfterAllArrive(sys, s, e, m, c, b - 1);
    assert !Arrived(sys, s, e, c, b, m);
    if Passed(sys, s, m, c, b) {
      LeaveAfterAllArrive(sys, s, m, e, c, b);
    }
  }

  // -------------------------------------------------------------- invariants

  /** A nonzero cell names a call in which its producer posted this chunk here. */
  ghost predicate PadSource(sys: System, s: State, r: Rank, p: Rank, ch: nat, k: nat, d: OpId)
    requires WellFormed(sys) && |s.ranks| == sys.world
  {
    && d < |sys.ops| && IsFused(sys.ops[d]) && r != p
    && r in sys.ops[d].ranks && p in sys.ops[d].ranks
    && StepDone(sys, s, p, d, ch, k, r)
    && Val(s.pad, (r, Cell(sys, ch, k, p))) == Target(sys, d, k)
  }

  ghost predicate PadSafe(sys: System, s: State, r: Rank, p: Rank, ch: nat, k: nat)
    requires WellFormed(sys) && |s.ranks| == sys.world
  {
    Val(s.pad, (r, Cell(sys, ch, k, p))) == 0 || exists d :: PadSource(sys, s, r, p, ch, k, d)
  }

  /** What has been posted for the receiver's current call is in its cell. */
  ghost predicate PadLive(sys: System, s: State, r: Rank, p: Rank, ch: nat, k: nat)
    requires WellFormed(sys) && Active(sys, s, r)
    requires p in CurOp(sys, s, r).ranks
  {
    StepDone(sys, s, p, sys.prog[r][s.ranks[r].at], ch, k, r) ==>
      Val(s.pad, (r, Cell(sys, ch, k, p))) == Target(sys, sys.prog[r][s.ranks[r].at], k)
  }

  /** What a receiver has seen complete has been posted by every producer. */
  ghost predicate SeenOK(sys: System, s: State, r: Rank, p: Rank)
    requires WellFormed(sys) && Active(sys, s, r)
    requires p in CurOp(sys, s, r).ranks
  {
    forall ch, k :: (ch, k) in s.ranks[r].seen ==> StepDone(sys, s, p, sys.prog[r][s.ranks[r].at], ch, k, r)
  }

  ghost predicate ReceiverOK(sys: System, s: State, r: Rank, p: Rank)
    requires WellFormed(sys) && Active(sys, s, r)
    requires p in CurOp(sys, s, r).ranks
  {
    && SeenOK(sys, s, r, p)
    && (forall ch: nat, k: nat :: ValidChunk(CurOp(sys, s, r), ch, k) ==> PadLive(sys, s, r, p, ch, k))
  }

  ghost predicate PadOK(sys: System, s: State)
    requires WellFormed(sys) && |s.ranks| == sys.world
  {
    && (forall r, p, ch, k ::
      0 <= r < sys.world && 0 <= p < sys.world && 0 <= ch < sys.channels && 0 <= k < sys.maxChunks ==>
      PadSafe(sys, s, r, p, ch, k))
    && (forall r, p :: 0 <= r < sys.world && Active(sys, s, r) && p in CurOp(sys, s, r).ranks && p != r ==>
      ReceiverOK(sys, s, r, p))
  }

  // ------------------------------------------------------------- pad layout

  /** `[channel][chunk][producer]` names a cell of its own inside the allocated pad. */
  lemma CellInjective(sys: System, ch: nat, k: nat, p: Rank, ch': nat, k': nat, p': Rank)
    requires k < sys.maxChunks && k' < sys.maxChunks && p < sys.world && p' < sys.world
    requires Cell(sys, ch, k, p) == Cell(sys, ch', k', p')
    ensures ch == ch' && k == k' && p == p'
  {
    var c, c' := ch * sys.maxChunks + k, ch' * sys.maxChunks + k';
    CellRow(sys, ch, k, p);
    CellRow(sys, ch', k', p');
    hide Cell;
    PairInjective(sys.world, c, p, c', p');
    PairInjective(sys.maxChunks, ch, k, ch', k');
  }

  lemma CellInBounds(sys: System, ch: nat, k: nat, p: Rank)
    requires ch < sys.channels && k < sys.maxChunks && p < sys.world
    ensures Cell(sys, ch, k, p) < sys.channels * sys.maxChunks * sys.world
  {
    var c := ch * sys.maxChunks + k;
    CellRow(sys, ch, k, p);
    PairBound(sys.maxChunks, sys.channels, ch, k);
    hide Cell;
    PairBound(sys.world, sys.channels * sys.maxChunks, c, p);
  }

  lemma CellRow(sys: System, ch: nat, k: nat, p: Rank)
    ensures Cell(sys, ch, k, p) == (ch * sys.maxChunks + k) * sys.world + p
  {
    assert (ch * sys.maxChunks + k) * sys.world == ch * sys.maxChunks * sys.world + k * sys.world;
  }

  lemma TargetsDiffer(sys: System, c: OpId, d: OpId, k: nat, r: Rank, p: Rank)
    requires WellFormed(sys) && StepFresh(sys) && c < |sys.ops| && d < |sys.ops|
    requires SharesSteps(sys, c, d, r, p)
    ensures Target(sys, c, k) != Target(sys, d, k)
  {
    hide Registered, PairAgree, OpBase, SharesSteps;
    var x, y := OpBase(sys, c), OpBase(sys, d);
    assert x != y;
    if (x + (k + 1)) % TWO64 == (y + (k + 1)) % TWO64 { WrapInjective(x, y, k + 1); }
  }

  lemma WrapInjective(x: U64, y: U64, k: nat)
    requires (x + k) % TWO64 == (y + k) % TWO64
    ensures x == y
  {
    var a, b := (x + k) / TWO64, (y + k) / TWO64;
    assert x + k == a * TWO64 + (x + k) % TWO64;
    assert y + k == b * TWO64 + (y + k) % TWO64;
    assert x - y == (a - b) * TWO64;
  }

  // ------------------------------------------------------------ preservation

  lemma StepDoneKept(sys: System, s: State, step: Step, p: Rank, c: OpId, ch: nat, k: nat, q: Rank)
    requires WellFormed(sys) && Ordered(sys, s) && Enabled(sys, s, step)
    requires c < |sys.ops| && p in sys.ops[c].ranks
    requires StepDone(sys, s, p, c, ch, k, q)
    ensures StepDone(sys, Do(sys, s, step), p, c, ch, k, q)
  {
  }

  /** Posting is the only step that makes a chunk posted: a call ends with all posted. */
  lemma StepDoneNew(sys: System, s: State, step: Step, p: Rank, c: OpId, ch: nat, k: nat, q: Rank)
    requires WellFormed(sys) && Ordered(sys, s) && Enabled(sys, s, step)
    requires c < |sys.ops| && p in sys.ops[c].ranks && q in sys.ops[c].ranks && p != q
    requires ValidChunk(sys.ops[c], ch, k)
    requires StepDone(sys, Do(sys, s, step), p, c, ch, k, q) && !StepDone(sys, s, p, c, ch, k, q)
    ensures step == Post(p, ch, k, q) && s.ranks[p].at == Idx(sys, p, c)
  {
    MemberInWorld(sys, p, c);
    if step.r != p || (!step.Finish? && step != Post(p, ch, k, q)) {
      PostedStays(sys, s, step, p, ch, k, q);
    } else if step.Finish? {
      FinishedPosted(sys, s, p, ch, k, q);
    }
  }

  /** Only its own post, or the end of a call, changes what a rank has posted where. */
  lemma PostedStays(sys: System, s: State, step: Step, p: Rank, ch: nat, k: nat, q: Rank)
    requires WellFormed(sys) && Ordered(sys, s) && Enabled(sys, s, step) && p < sys.world
    requires step.r != p || (!step.Finish? && step != Post(p, ch, k, q))
    ensures var t := Do(sys, s, step);
      |t.ranks| == sys.world && t.ranks[p].at == s.ranks[p].at
      && ((ch, k, q) in t.ranks[p].posted <==> (ch, k, q) in s.ranks[p].posted)
  {
    hide Registered, PairAgree, RankOK, EdgeBase, Token, CopiesDone, AllPosted, Valid, Ready, ChunkStaged, ChunkPulled;
  }

  /** A call ends with every chunk posted to every peer. */
  lemma FinishedPosted(sys: System, s: State, p: Rank, ch: nat, k: nat, q: Rank)
    requires WellFormed(sys) && Ordered(sys, s) && Enabled(sys, s, Finish(p))
    requires ValidChunk(CurOp(sys, s, p), ch, k) && q in CurOp(sys, s, p).ranks && q != p
    ensures (ch, k, q) in s.ranks[p].posted
    ensures p < |Do(sys, s, Finish(p)).ranks| && Do(sys, s, Finish(p)).ranks[p] == StartOf(s.ranks[p].at + 1)
  {
    hide PairAgree, EdgeBase, CopiesOK;
    assert RankOK(sys, s, p);
    assert ValidOp(sys, CurOp(sys, s, p));
  }

  lemma ChunkInPad(sys: System, s: State, r: Rank, ch: nat, k: nat)
    requires WellFormed(sys) && Active(sys, s, r) && ValidChunk(CurOp(sys, s, r), ch, k)
    ensures ch < sys.channels && k < sys.maxChunks && IsFused(CurOp(sys, s, r)) && Bars(CurOp(sys, s, r)) == 2
  {
    assert ValidOp(sys, CurOp(sys, s, r));
  }

  lemma LocalTargetAgrees(sys: System, s: State, r: Rank, k: nat)
    requires WellFormed(sys) && Active(sys, s, r)
    ensures LocalTarget(sys, s, r, k) == Target(sys, sys.prog[r][s.ranks[r].at], k)
  {
    TokenAgreement(sys, r, s.ranks[r].at, 0);
  }

  /** A step-pad store changes exactly the cell of its channel, chunk and producer. */
  lemma PadAfter(sys: System, s: State, step: Step, r: Rank, p: Rank, ch: nat, k: nat)
    requires WellFormed(sys) && Ordered(sys, s) && Enabled(sys, s, step)
    requires r < sys.world && p < sys.world && ch < sys.channels && k < sys.maxChunks
    ensures Val(Do(sys, s, step).pad, (r, Cell(sys, ch, k, p))) ==
      if step == Post(p, ch, k, r) then Target(sys, sys.prog[p][s.ranks[p].at], k)
      else Val(s.pad, (r, Cell(sys, ch, k, p)))
  {
    if step.Post? {
      ChunkInPad(sys, s, step.r, step.ch, step.k);
      LocalTargetAgrees(sys, s, step.r, step.k);
      if Cell(sys, ch, k, p) == Cell(sys, step.ch, step.k, step.r) {
        CellInjective(sys, ch, k, p, step.ch, step.k, step.r);
      }
    }
  }

  lemma PadSafeKept(sys: System, s: State, step: Step, r: Rank, p: Rank, ch: nat, k: nat)
    requires WellFormed(sys) && Ordered(sys, s) && Enabled(sys, s, step)
    requires r < sys.world && p < sys.world && ch < sys.channels && k < sys.maxChunks
    requires PadSafe(sys, s, r, p, ch, k)
    ensures PadSafe(sys, Do(sys, s, step), r, p, ch, k)
  {
    var t := Do(sys, s, step);
    PadAfter(sys, s, step, r, p, ch, k);
    if step == Post(p, ch, k, r) {
      var c := sys.prog[p][s.ranks[p].at];
      IdxAt(sys, p, s.ranks[p].at);
      ChunkInPad(sys, s, p, ch, k);
      assert PadSource(sys, t, r, p, ch, k, c);
    } else if Val(s.pad, (r, Cell(sys, ch, k, p))) != 0 {
      var d :| PadSource(sys, s, r, p, ch, k, d);
      StepDoneKept(sys, s, step, p, d, ch, k, r);
      assert PadSource(sys, t, r, p, ch, k, d);
    }
  }

  /** Nothing has been posted for a call that the receiver has not started. */
  lemma NothingPostedYet(sys: System, s: State, r: Rank, p: Rank, c: OpId, ch: nat, k: nat)
    requires WellFormed(sys) && BarrierOK(sys, s) && c < |sys.ops|
    requires r in sys.ops[c].ranks && p in sys.ops[c].ranks && r < sys.world && p < sys.world
    requires s.ranks[r].at < Idx(sys, r, c)
    ensures !StepDone(sys, s, p, c, ch, k, r)
  {
    if StepDone(sys, s, p, c, ch, k, r) {
      assert RankOK(sys, s, p);
      assert Passed(sys, s, p, c, 0);
      LeaveAfterAllArrive(sys, s, p, r, c, 0);
    }
  }

  /** A satisfied poll means that every producer has posted this chunk of this call. */
  lemma SatisfiedPoll(sys: System, s: State, r: Rank, ch: nat, k: nat, p: Rank)
    requires WellFormed(sys) && StepFresh(sys) && Ordered(sys, s) && PadOK(sys, s)
    requires Enabled(sys, s, See(r, ch, k)) && p in CurOp(sys, s, r).ranks && p != r
    ensures StepDone(sys, s, p, sys.prog[r][s.ranks[r].at], ch, k, r)
  {
    var c := sys.prog[r][s.ranks[r].at];
    ChunkInPad(sys, s, r, ch, k);
    LocalTargetAgrees(sys, s, r, k);
    MemberInWorld(sys, p, c);
    assert PadSafe(sys, s, r, p, ch, k);
    assert Target(sys, c, k) != 0;
    var d :| PadSource(sys, s, r, p, ch, k, d);
    if c != d {
      TargetsDiffer(sys, c, d, k, r, p);
    }
  }

  lemma PadLiveKept(sys: System, s: State, step: Step, r: Rank, p: Rank, ch: nat, k: nat)
    requires WellFormed(sys) && BarrierOK(sys, s) && Enabled(sys, s, step)
    requires Active(sys, s, r) && Active(sys, Do(sys, s, step), r) && step != Finish(r)
    requires p in CurOp(sys, s, r).ranks && p != r && ValidChunk(CurOp(sys, s, r), ch, k)
    requires PadLive(sys, s, r, p, ch, k)
    ensures PadLive(sys, Do(sys, s, step), r, p, ch, k)
  {
    hide EdgeOK, Registered, PairAgree, LocalOK, AllPosted, CopiesDone;
    var c := sys.prog[r][s.ranks[r].at];
    ChunkInPad(sys, s, r, ch, k);
    IdxAt(sys, r, s.ranks[r].at);
    MemberInWorld(sys, p, c);
    PadAfter(sys, s, step, r, p, ch, k);
    if step == Post(p, ch, k, r) {
      PostOnlyInside(sys, s, p, ch, k, r);
    } else if StepDone(sys, Do(sys, s, step), p, c, ch, k, r) && !StepDone(sys, s, p, c, ch, k, r) {
      StepDoneNew(sys, s, step, p, c, ch, k, r);
    }
  }

  /** A producer posts to a rank only while that rank is inside the same call. */
  lemma PostOnlyInside(sys: System, s: State, p: Rank, ch: nat, k: nat, r: Rank)
    requires WellFormed(sys) && BarrierOK(sys, s) && Enabled(sys, s, Post(p, ch, k, r)) && Active(sys, s, r)
    ensures sys.prog[p][s.ranks[p].at] == sys.prog[r][s.ranks[r].at]
  {
    hide EdgeOK, Registered, PairAgree;
    ChunkInPad(sys, s, p, ch, k);
    assert RankOK(sys, s, p);
    assert s.ranks[p].published == map[];
    Window(sys, s, p, r);
    IdxAt(sys, p, s.ranks[p].at);
  }

  lemma SeenKept(sys: System, s: State, step: Step, r: Rank, p: Rank)
    requires WellFormed(sys) && StepFresh(sys) && Ordered(sys, s) && PadOK(sys, s) && Enabled(sys, s, step)
    requires Active(sys, s, r) && Active(sys, Do(sys, s, step), r) && step != Finish(r)
    requires p in CurOp(sys, s, r).ranks && p != r && SeenOK(sys, s, r, p)
    ensures SeenOK(sys, Do(sys, s, step), r, p)
  {
    hide Registered, PairAgree, PadOK, EdgeBase;
    var c := sys.prog[r][s.ranks[r].at];
    IdxAt(sys, r, s.ranks[r].at);
    forall ch, k | (ch, k) in Do(sys, s, step).ranks[r].seen
      ensures StepDone(sys, Do(sys, s, step), p, c, ch, k, r)
    {
      if step == See(r, ch, k) { SatisfiedPoll(sys, s, r, ch, k, p); }
      StepDoneKept(sys, s, step, p, c, ch, k, r);
    }
  }

  lemma ReceiverStarts(sys: System, s: State, r: Rank, p: Rank)
    requires WellFormed(sys) && BarrierOK(sys, s) && Enabled(sys, s, Finish(r))
    requires Active(sys, Do(sys, s, Finish(r)), r)
    requires p in CurOp(sys, Do(sys, s, Finish(r)), r).ranks && p != r
    ensures ReceiverOK(sys, Do(sys, s, Finish(r)), r, p)
  {
    var t := Do(sys, s, Finish(r));
    var c := sys.prog[r][t.ranks[r].at];
    IdxAt(sys, r, t.ranks[r].at);
    MemberInWorld(sys, p, c);
    forall ch: nat, k: nat | ValidChunk(CurOp(sys, t, r), ch, k)
      ensures PadLive(sys, t, r, p, ch, k)
    {
      NothingPostedYet(sys, s, r, p, c, ch, k);
    }
  }

  lemma ReceiverKept(sys: System, s: State, step: Step, r: Rank, p: Rank)
    requires WellFormed(sys) && StepFresh(sys) && BarrierOK(sys, s) && PadOK(sys, s) && Enabled(sys, s, step)
    requires r < sys.world && Active(sys, Do(sys, s, step), r)
    requires p in CurOp(sys, Do(sys, s, step), r).ranks && p != r
    ensures ReceiverOK(sys, Do(sys, s, step), r, p)
  {
    if step == Finish(r) {
      ReceiverStarts(sys, s, r, p);
    } else {
      var op := CurOp(sys, s, r);
      assert ReceiverOK(sys, s, r, p);
      SeenKept(sys, s, step, r, p);
      forall ch: nat, k: nat | ValidChunk(op, ch, k)
        ensures PadLive(sys, Do(sys, s, step), r, p, ch, k)
      {
        assert PadLive(sys, s, r, p, ch, k);
        PadLiveKept(sys, s, step, r, p, ch, k);
      }
    }
  }

  /** Every step keeps the step pads truthful. */
  lemma PadKept(sys: System, s: State, step: Step)
    requires WellFormed(sys) && StepFresh(sys) && BarrierOK(sys, s) && PadOK(sys, s) && Enabled(sys, s, step)
    ensures PadOK(sys, Do(sys, s, step))
  {
    var t := Do(sys, s, step);
    forall r, p, ch, k | 0 <= r < sys.world && 0 <= p < sys.world && 0 <= ch < sys.channels && 0 <= k < sys.maxChunks
      ensures PadSafe(sys, t, r, p, ch, k)
    {
      PadSafeKept(sys, s, step, r, p, ch, k);
    }
    forall r, p | 0 <= r < sys.world && Active(sys, t, r) && p in CurOp(sys, t, r).ranks && p != r
      ensures ReceiverOK(sys, t, r, p)
    {
      ReceiverKept(sys, s, step, r, p);
    }
  }

  lemma InitialPadOK(sys: System, s: State)
    requires WellFormed(sys) && InitialState(sys, s)
    ensures PadOK(sys, s)
  {
    forall r, p | 0 <= r < sys.world && Active(sys, s, r) && p in CurOp(sys, s, r).ranks && p != r
      ensures ReceiverOK(sys, s, r, p)
    {
      IdxAt(sys, r, 0);
      MemberInWorld(sys, p, sys.prog[r][0]);
    }
  }
}
