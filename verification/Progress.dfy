/** Deadlock freedom.

    When every rank submits the projection of one global schedule, some step is enabled
    in every reachable state that is not finished: the member furthest behind in the
    earliest unfinished call can always move, or waits for one that can. */
module Progress {
  import opened Schedule
  import opened Protocol
  import opened LocalOrder
  import opened BarrierSafety
  import opened FusedSteps
  import opened CopyPlan
  import opened DataSafety

  /** The calls of `order` that involve rank `r`. */
  ghost function Project(sys: System, order: seq<OpId>, r: Rank): seq<OpId>
    requires Ids(sys, order)
  {
    if order == [] then []
    else
      var c := order[|order| - 1];
      var f := Project(sys, order[..|order| - 1], r);
      if r in sys.ops[c].ranks then f + [c] else f
  }

  /** `order` is a global schedule of all calls and every rank submits its projection. */
  ghost predicate Follows(sys: System, order: seq<OpId>)
    requires Shape(sys)
  {
    && Ids(sys, order) && Distinct(order)
    && (forall c :: 0 <= c < |sys.ops| ==> c in order)
    && (forall r :: 0 <= r < sys.world ==> sys.prog[r] == Project(sys, order, r))
  }

  ghost predicate CanStep(sys: System, s: State)
    requires Shape(sys)
  {
    exists step :: Enabled(sys, s, step)
  }

  // ------------------------------------------------------ schedule positions

  lemma {:induction false} ProjectMonotone(sys: System, order: seq<OpId>, r: Rank, i: nat, j: nat)
    requires Ids(sys, order) && Distinct(order)
    requires i < j < |Project(sys, order, r)|
    ensures Project(sys, order, r)[i] in order && Project(sys, order, r)[j] in order
    ensures IndexOf(order, Project(sys, order, r)[i]) < IndexOf(order, Project(sys, order, r)[j])
  {
    var n := |order| - 1;
    var f := Project(sys, order[..n], r);
    ProjectWithin(sys, order[..n], r);
    ProjectWithin(sys, order, r);
    if j < |f| {
      ProjectMonotone(sys, order[..n], r, i, j);
      IndexInPrefix(order, n, f[i]);
      IndexInPrefix(order, n, f[j]);
    } else {
      IndexInPrefix(order, n, f[i]);
      IndexUnique(order, n);
    }
  }

  lemma {:induction false} ProjectWithin(sys: System, order: seq<OpId>, r: Rank)
    requires Ids(sys, order)
    ensures forall k :: 0 <= k < |Project(sys, order, r)| ==> Project(sys, order, r)[k] in order
  {
    if order != [] { ProjectWithin(sys, order[..|order| - 1], r); }
  }

  lemma IndexInPrefix<T>(s: seq<T>, n: nat, x: T)
    requires Distinct(s) && n <= |s| && x in s[..n]
    ensures x in s && IndexOf(s, x) == IndexOf(s[..n], x) < n
  {
    var i := IndexOf(s[..n], x);
    assert s[i] == x;
    IndexUnique(s, i);
  }

  // ------------------------------------------- one member with work to do

  /** Every member of call `c` is in it or past it, and none is behind barrier `b`. */
  ghost predicate AllReached(sys: System, s: State, c: OpId, b: nat)
    requires WellFormed(sys) && |s.ranks| == sys.world && c < |sys.ops|
  {
    forall m :: m in sys.ops[c].ranks ==>
      s.ranks[m].at > Idx(sys, m, c) || (s.ranks[m].at == Idx(sys, m, c) && s.ranks[m].bar >= b)
  }

  ghost predicate InCall(sys: System, s: State, q: Rank, c: OpId, b: nat)
    requires WellFormed(sys) && |s.ranks| == sys.world && c < |sys.ops|
  {
    q in sys.ops[c].ranks && s.ranks[q].at == Idx(sys, q, c) && s.ranks[q].bar == b
  }

  /** Outside the fused kernel an owed copy can be made at once. */
  lemma PlainCopyRuns(sys: System, s: State, q: Rank, c: OpId, b: nat, x: Copy)
    requires WellFormed(sys) && Ordered(sys, s) && c < |sys.ops| && InCall(sys, s, q, c, b)
    requires Valid(sys.ops[c], IndexOf(sys.ops[c].ranks, q), x) && x !in s.ranks[q].done
    requires Hi(sys.ops[c], x) <= b && !IsFused(sys.ops[c])
    ensures Enabled(sys, s, Move(q, x))
  {
    hide Registered, PairAgree, StepsOK, Valid;
    assert RankOK(sys, s, q);
  }

  lemma {:induction false} LeastOpenChunk(op: Op, me: nat, rs: RankState, ch: nat, k: nat) returns (k': nat)
    requires me < |op.ranks| && !SenderDone(op, me, rs, ch, k)
    ensures k' <= k && !SenderDone(op, me, rs, ch, k')
    ensures forall k0: nat :: k0 < k' ==> SenderDone(op, me, rs, ch, k0)
  {
    k' := 0;
    while SenderDone(op, me, rs, ch, k')
      invariant k' <= k
      invariant forall k0: nat :: k0 < k' ==> SenderDone(op, me, rs, ch, k0)
      decreases k - k'
    {
      k' := k' + 1;
    }
  }

  /** The sender has staged the chunk and told every peer. */
  ghost predicate SenderDone(op: Op, me: nat, rs: RankState, ch: nat, k: nat) {
    ChunkStaged(op, me, rs, ch, k) && forall i: nat :: i < |op.ranks| && i != me ==> (ch, k, op.ranks[i]) in rs.posted
  }

  /** The receiver has seen the chunk complete and pulled it from every peer. */
  ghost predicate ReceiverDone(op: Op, me: nat, rs: RankState, ch: nat, k: nat) {
    (ch, k) in rs.seen && ChunkPulled(op, me, rs, ch, k)
  }

  lemma LeastOpenPull(op: Op, me: nat, rs: RankState, ch: nat, k: nat) returns (k': nat)
    requires !ReceiverDone(op, me, rs, ch, k)
    ensures k' <= k && !ReceiverDone(op, me, rs, ch, k')
    ensures forall k0: nat :: k0 < k' ==> ReceiverDone(op, me, rs, ch, k0)
  {
    k' := 0;
    while ReceiverDone(op, me, rs, ch, k')
      invariant k' <= k
      invariant forall k0: nat :: k0 < k' ==> ReceiverDone(op, me, rs, ch, k0)
      decreases k - k'
    {
      k' := k' + 1;
    }
  }

  lemma OffsetWithin(sys: System, op: Op, me: nat, x: Copy)
    requires ValidOp(sys, op) && me < |op.ranks| && Valid(op, me, x)
    ensures Offset(op, x) < op.slice
  {
    if x.Stage? && op.kind.AllToAll? { assert x.a % op.slice < op.slice; }
  }

  /** A fused sender with an unfinished chunk can stage or post. */
  lemma SenderMoves(sys: System, s: State, q: Rank, c: OpId, ch: nat, k: nat)
    requires WellFormed(sys) && Ordered(sys, s) && c < |sys.ops| && InCall(sys, s, q, c, 1)
    requires ValidChunk(sys.ops[c], ch, k)
    requires !SenderDone(sys.ops[c], IndexOf(sys.ops[c].ranks, q), s.ranks[q], ch, k)
    ensures CanStep(sys, s)
  {
    hide Registered, PairAgree, RankOK, Valid, CellOf, Offset, AllPosted, CopiesDone;
    var op := sys.ops[c];
    var me := IndexOf(op.ranks, q);
    var rs := s.ranks[q];
    MemberIn(sys, q, c);
    var k' := LeastOpenChunk(op, me, rs, ch, k);
    EarlierChunk(op, ch, k, k');
    if ChunkStaged(op, me, rs, ch, k') {
      var i: nat :| i < |op.ranks| && i != me && (ch, k', op.ranks[i]) !in rs.posted;
      AtPosition(sys, c, i);
      assert Enabled(sys, s, Post(q, ch, k', op.ranks[i]));
    } else {
      var x :| Valid(op, me, x) && !x.Pull? && CellOf(op, Offset(op, x)) == (ch, k') && x !in rs.done;
      forall k0: nat, i: nat | k0 < k' && i < |op.ranks| && i != me
        ensures (ch, k0, op.ranks[i]) in rs.posted
      {
        assert SenderDone(op, me, rs, ch, k0);
      }
      SenderCopyReady(op, me, rs, x);
      assert Enabled(sys, s, Move(q, x));
    }
  }

  lemma SenderCopyReady(op: Op, me: nat, rs: RankState, x: Copy)
    requires IsFused(op) && Valid(op, me, x) && !x.Pull?
    requires EarlierPosted(op, me, rs, CellOf(op, Offset(op, x)))
    ensures Ready(op, me, rs, x)
  {
  }

  /** When every producer has posted, a fused receiver with an unpulled chunk can poll
      with success or pull. */
  lemma ReceiverMoves(sys: System, s: State, q: Rank, c: OpId, ch: nat, k: nat)
    requires WellFormed(sys) && Ordered(sys, s) && PadOK(sys, s) && c < |sys.ops| && InCall(sys, s, q, c, 1)
    requires ValidChunk(sys.ops[c], ch, k)
    requires forall p, k0: nat :: p in sys.ops[c].ranks && p != q && k0 <= k ==> StepDone(sys, s, p, c, ch, k0, q)
    requires !ChunkPulled(sys.ops[c], IndexOf(sys.ops[c].ranks, q), s.ranks[q], ch, k)
    ensures CanStep(sys, s)
  {
    hide Registered, PairAgree, RankOK, Valid, CellOf, AllPosted, CopiesDone, PadSafe;
    var op := sys.ops[c];
    var me := IndexOf(op.ranks, q);
    var rs := s.ranks[q];
    MemberIn(sys, q, c);
    var k' := LeastOpenPull(op, me, rs, ch, k);
    EarlierChunk(op, ch, k, k');
    if (ch, k') in rs.seen {
      var x :| Valid(op, me, x) && x.Pull? && CellOf(op, Offset(op, x)) == (ch, k') && x !in rs.done;
      assert Enabled(sys, s, Move(q, x));
    } else {
      PollSucceeds(sys, s, q, c, ch, k');
      forall k0: nat | k0 < k' ensures (ch, k0) in rs.seen && ChunkPulled(op, me, rs, ch, k0) {
        assert ReceiverDone(op, me, rs, ch, k0);
      }
      assert Enabled(sys, s, See(q, ch, k'));
    }
  }

  lemma PollSucceeds(sys: System, s: State, q: Rank, c: OpId, ch: nat, k: nat)
    requires WellFormed(sys) && Ordered(sys, s) && PadOK(sys, s) && c < |sys.ops| && InCall(sys, s, q, c, 1)
    requires ValidChunk(sys.ops[c], ch, k)
    requires forall p :: p in sys.ops[c].ranks && p != q ==> StepDone(sys, s, p, c, ch, k, q)
    ensures Active(sys, s, q)
    ensures forall p :: p in sys.ops[c].ranks && p != q ==>
      Val(s.pad, (q, Cell(sys, ch, k, p))) == LocalTarget(sys, s, q, k)
  {
    hide Registered, PairAgree, RankOK, PadSafe, SeenOK, StepDone;
    MemberIn(sys, q, c);
    LocalTargetAgrees(sys, s, q, k);
    forall p | p in sys.ops[c].ranks && p != q
      ensures Val(s.pad, (q, Cell(sys, ch, k, p))) == LocalTarget(sys, s, q, k)
    {
      assert ReceiverOK(sys, s, q, p);
      assert PadLive(sys, s, q, p, ch, k);
    }
  }

  /** A member that has left the kernel, or whose sender is complete, has posted. */
  lemma PostedWhenDone(sys: System, s: State, p: Rank, c: OpId, ch: nat, k: nat, q: Rank)
    requires WellFormed(sys) && Ordered(sys, s) && c < |sys.ops| && AllReached(sys, s, c, 1)
    requires p in sys.ops[c].ranks && q in sys.ops[c].ranks && p != q && ValidChunk(sys.ops[c], ch, k)
    requires InCall(sys, s, p, c, 1) ==>
      SenderDone(sys.ops[c], IndexOf(sys.ops[c].ranks, p), s.ranks[p], ch, k)
    ensures StepDone(sys, s, p, c, ch, k, q)
  {
    hide Registered, PairAgree, CopiesOK, Valid;
    MemberIn(sys, p, c);
    assert RankOK(sys, s, p);
    var op := sys.ops[c];
    var j := IndexOf(op.ranks, q);
    assert j != IndexOf(op.ranks, p);
  }

  /** An unfinished fused kernel can move somewhere. */
  lemma KernelMoves(sys: System, s: State, q: Rank, c: OpId)
    requires WellFormed(sys) && Ordered(sys, s) && PadOK(sys, s) && c < |sys.ops|
    requires InCall(sys, s, q, c, 1) && AllReached(sys, s, c, 1) && IsFused(sys.ops[c])
    requires var me := IndexOf(sys.ops[c].ranks, q);
      !(CopiesDone(sys.ops[c], me, s.ranks[q], 1) && AllPosted(sys.ops[c], me, s.ranks[q]))
    ensures CanStep(sys, s)
  {
    hide Registered, PairAgree, RankOK, Valid, CellOf, Offset, PadOK, StepDone, CanStep;
    var op := sys.ops[c];
    var me := IndexOf(op.ranks, q);
    DataCall(sys, q, c);
    if p: Rank, ch: nat, k: nat :| OpenChunk(sys, s, p, c, ch, k) {
      SenderMoves(sys, s, p, c, ch, k);
    } else {
      assert forall p: Rank, ch: nat, k: nat :: !OpenChunk(sys, s, p, c, ch, k);
      EverythingPosted(sys, s, q, c);
      var x :| Valid(op, me, x) && Hi(op, x) <= 1 && x !in s.ranks[q].done;
      OffsetWithin(sys, op, me, x);
      OffsetInChunk(op, Offset(op, x));
      var (ch, k) := CellOf(op, Offset(op, x));
      assert !OpenChunk(sys, s, q, c, ch, k);
      forall p, k0: nat | p in op.ranks && p != q && k0 <= k
        ensures StepDone(sys, s, p, c, ch, k0, q)
      {
        EarlierChunk(op, ch, k, k0);
        assert !OpenChunk(sys, s, p, c, ch, k0);
        PostedWhenDone(sys, s, p, c, ch, k0, q);
      }
      ReceiverMoves(sys, s, q, c, ch, k);
    }
  }

  lemma DataCall(sys: System, q: Rank, c: OpId)
    requires WellFormed(sys) && c < |sys.ops| && q in sys.ops[c].ranks
    ensures ValidOp(sys, sys.ops[c]) && q < sys.world
    ensures IsFused(sys.ops[c]) ==> Bars(sys.ops[c]) == 2
  {
    MemberIn(sys, q, c);
  }

  /** Member `p` is in the kernel and its sender has not finished the chunk. */
  ghost predicate OpenChunk(sys: System, s: State, p: Rank, c: OpId, ch: nat, k: nat)
    requires WellFormed(sys) && |s.ranks| == sys.world && c < |sys.ops|
  {
    && InCall(sys, s, p, c, 1) && ValidChunk(sys.ops[c], ch, k)
    && !SenderDone(sys.ops[c], IndexOf(sys.ops[c].ranks, p), s.ranks[p], ch, k)
  }

  lemma EverythingPosted(sys: System, s: State, q: Rank, c: OpId)
    requires WellFormed(sys) && |s.ranks| == sys.world && c < |sys.ops| && InCall(sys, s, q, c, 1)
    requires forall ch: nat, k: nat :: !OpenChunk(sys, s, q, c, ch, k)
    ensures AllPosted(sys.ops[c], IndexOf(sys.ops[c].ranks, q), s.ranks[q])
  {
    hide Registered, PairAgree;
    var op := sys.ops[c];
    var me := IndexOf(op.ranks, q);
    forall ch: nat, k: nat, i: nat | ValidChunk(op, ch, k) && i < |op.ranks| && i != me
      ensures (ch, k, op.ranks[i]) in s.ranks[q].posted
    {
      assert !OpenChunk(sys, s, q, c, ch, k);
    }
  }

  /** A member that still has to publish its current barrier can publish or copy. */
  lemma WorkOrPublish(sys: System, s: State, q: Rank, c: OpId, b: nat, p: Rank)
    requires WellFormed(sys) && Ordered(sys, s) && PadOK(sys, s) && c < |sys.ops|
    requires InCall(sys, s, q, c, b) && AllReached(sys, s, c, b) && b < Bars(sys.ops[c])
    requires p in sys.ops[c].ranks && p !in s.ranks[q].published
    ensures CanStep(sys, s)
  {
    hide Registered, PairAgree, RankOK, Valid, PadOK, AllPosted;
    var op := sys.ops[c];
    var me := IndexOf(op.ranks, q);
    DataCall(sys, q, c);
    if !CopiesDone(op, me, s.ranks[q], b) && !IsFused(op) {
      var x :| Valid(op, me, x) && Hi(op, x) <= b && x !in s.ranks[q].done;
      PlainCopyRuns(sys, s, q, c, b, x);
    } else if IsFused(op) && b == 1 && !(CopiesDone(op, me, s.ranks[q], b) && AllPosted(op, me, s.ranks[q])) {
      KernelMoves(sys, s, q, c);
    } else {
      assert Enabled(sys, s, Publish(q, p));
    }
  }

  lemma ArrivedSends(sys: System, s: State, p: Rank, r: Rank, c: OpId, b: nat)
    requires WellFormed(sys) && Ordered(sys, s) && c < |sys.ops|
    requires r in sys.ops[c].ranks && p in sys.ops[c].ranks && b < Bars(sys.ops[c])
    requires Arrived(sys, s, p, c, b, r)
    ensures p < sys.world && Sent(sys, s.ranks[p], p, r) >= EdgeBase(sys, p, r, Idx(sys, p, c)) + b + 1
  {
    hide EdgeBase, Registered, PairAgree, RankOK;
    var i := Idx(sys, p, c);
    if s.ranks[p].at > i {
      EdgeBaseStep(sys, p, r, i);
      EdgeBaseMonotone(sys, p, r, i + 1, s.ranks[p].at);
    }
  }

  /** A wait for a partner that has arrived succeeds. */
  lemma WaitSucceeds(sys: System, s: State, q: Rank, c: OpId, b: nat, p: Rank)
    requires WellFormed(sys) && BarrierOK(sys, s) && c < |sys.ops| && InCall(sys, s, q, c, b)
    requires b < Bars(sys.ops[c]) && p in sys.ops[c].ranks
    requires p in s.ranks[q].published && p !in s.ranks[q].waited
    requires Arrived(sys, s, p, c, b, q)
    ensures Enabled(sys, s, Wait(q, p))
  {
    hide EdgeBase, Edge, Registered, PairAgree, EdgeOK, RankOK, Enabled;
    MemberIn(sys, q, c);
    MemberIn(sys, p, c);
    ArrivedSends(sys, s, p, q, c, b);
    EdgeBaseAgree(sys, q, p, c);
    ArrivedWaits(sys, s, q, p);
  }

  /** The member of a call that is furthest behind can move, or waits for one that can. */
  lemma LeastMemberMoves(sys: System, s: State, q: Rank, c: OpId, b: nat)
    requires WellFormed(sys) && BarrierOK(sys, s) && PadOK(sys, s) && c < |sys.ops|
    requires InCall(sys, s, q, c, b) && AllReached(sys, s, c, b)
    ensures CanStep(sys, s)
  {
    hide Registered, PairAgree, EdgeOK, StepsOK, PadOK, Valid, Hi, Lo, Ready;
    var op := sys.ops[c];
    var rs := s.ranks[q];
    MemberIn(sys, q, c);
    assert RankOK(sys, s, q);
    if b == Bars(op) {
      LastCopies(sys, s, q, c);
    } else if p :| p in op.ranks && p !in rs.published {
      WorkOrPublish(sys, s, q, c, b, p);
    } else if p :| p in op.ranks && p !in rs.waited {
      if InCall(sys, s, p, c, b) && q !in s.ranks[p].published {
        WorkOrPublish(sys, s, p, c, b, q);
      } else {
        WaitSucceeds(sys, s, q, c, b, p);
      }
    } else {
      assert Enabled(sys, s, Pass(q));
    }
  }

  lemma LastCopies(sys: System, s: State, q: Rank, c: OpId)
    requires WellFormed(sys) && Ordered(sys, s) && c < |sys.ops| && InCall(sys, s, q, c, Bars(sys.ops[c]))
    ensures CanStep(sys, s)
  {
    hide Registered, PairAgree, StepsOK, Valid;
    var op := sys.ops[c];
    var me := IndexOf(op.ranks, q);
    DataCall(sys, q, c);
    assert RankOK(sys, s, q);
    if x :| Valid(op, me, x) && Hi(op, x) <= Bars(op) && x !in s.ranks[q].done {
      PlainCopyRuns(sys, s, q, c, Bars(op), x);
    } else {
      assert Enabled(sys, s, Finish(q));
    }
  }

  // ------------------------------------------------------------ main result

  /** Among the calls that ranks are in, the one that comes first in the schedule. */
  lemma EarliestCall(sys: System, s: State, order: seq<OpId>) returns (q: Rank)
    requires WellFormed(sys) && Follows(sys, order) && Placed(sys, s) && !Finished(sys, s)
    ensures Active(sys, s, q)
    ensures forall m :: 0 <= m < sys.world && Active(sys, s, m) ==>
      IndexOf(order, sys.prog[q][s.ranks[q].at]) <= IndexOf(order, sys.prog[m][s.ranks[m].at])
  {
    hide Registered, PairAgree;
    q :| 0 <= q < sys.world && s.ranks[q].at != |sys.prog[q]|;
    var n := 0;
    while n < sys.world
      invariant n <= sys.world && Active(sys, s, q)
      invariant forall m :: 0 <= m < n && Active(sys, s, m) ==>
        IndexOf(order, sys.prog[q][s.ranks[q].at]) <= IndexOf(order, sys.prog[m][s.ranks[m].at])
    {
      if Active(sys, s, n) && IndexOf(order, sys.prog[n][s.ranks[n].at]) < IndexOf(order, sys.prog[q][s.ranks[q].at]) {
        q := n;
      }
      n := n + 1;
    }
  }

  /** Nobody is still in front of the earliest call. */
  lemma EarliestReached(sys: System, s: State, order: seq<OpId>, q: Rank)
    requires WellFormed(sys) && Follows(sys, order) && Placed(sys, s) && Active(sys, s, q)
    requires forall m :: 0 <= m < sys.world && Active(sys, s, m) ==>
      IndexOf(order, sys.prog[q][s.ranks[q].at]) <= IndexOf(order, sys.prog[m][s.ranks[m].at])
    ensures AllReached(sys, s, sys.prog[q][s.ranks[q].at], 0)
  {
    hide Registered, PairAgree;
    var c := sys.prog[q][s.ranks[q].at];
    IdxAt(sys, q, s.ranks[q].at);
    forall m | m in sys.ops[c].ranks
      ensures m < sys.world && s.ranks[m].at >= Idx(sys, m, c)
    {
      MemberIn(sys, m, c);
      if s.ranks[m].at < Idx(sys, m, c) {
        assert Active(sys, s, m);
        ProjectMonotone(sys, order, m, s.ranks[m].at, Idx(sys, m, c));
      }
    }
  }

  /** In the earliest call, a member that has passed the fewest barriers. */
  lemma LeastMember(sys: System, s: State, c: OpId, q0: Rank) returns (q: Rank, b: nat)
    requires WellFormed(sys) && Placed(sys, s) && c < |sys.ops|
    requires q0 in sys.ops[c].ranks && q0 < sys.world && s.ranks[q0].at == Idx(sys, q0, c)
    requires AllReached(sys, s, c, 0)
    ensures InCall(sys, s, q, c, b) && AllReached(sys, s, c, b)
  {
    hide Registered, PairAgree;
    b := 0;
    while !exists q :: InCall(sys, s, q, c, b)
      invariant AllReached(sys, s, c, b) && b <= s.ranks[q0].bar
      decreases s.ranks[q0].bar - b
    {
      assert !InCall(sys, s, q0, c, b);
      forall m | m in sys.ops[c].ranks
        ensures s.ranks[m].at > Idx(sys, m, c) || (s.ranks[m].at == Idx(sys, m, c) && s.ranks[m].bar >= b + 1)
      {
        assert !InCall(sys, s, m, c, b);
      }
      b := b + 1;
    }
    q :| InCall(sys, s, q, c, b);
  }

  /** Deadlock freedom: on the projections of one global schedule, every safe state that
      is not finished has an enabled step. */
  lemma DeadlockFree(sys: System, s: State, order: seq<OpId>)
    requires WellFormed(sys) && Safe(sys, s) && Follows(sys, order) && !Finished(sys, s)
    ensures CanStep(sys, s)
  {
    hide Registered, PairAgree, DataOK, PadOK, EdgeOK, RankOK, CanStep;
    var q0 := EarliestCall(sys, s, order);
    var c := sys.prog[q0][s.ranks[q0].at];
    EarliestReached(sys, s, order, q0);
    IdxAt(sys, q0, s.ranks[q0].at);
    var q, b := LeastMember(sys, s, c, q0);
    LeastMemberMoves(sys, s, q, c, b);
  }
}
