/** End-to-end byte correctness and comm-buffer reuse safety.

    One comm buffer per rank is shared by every call of every overlapping group and by
    remote puts.  The barriers confine each access to calls in progress on both sides,
    so a comm buffer is only ever written for its owner's current call, every read
    finds the byte its call staged, and every finished output is the specified one. */
module DataSafety {
  import opened Schedule
  import opened Protocol
  import opened LocalOrder
  import opened BarrierSafety
  import opened FusedSteps
  import opened CopyPlan

  /** Rank `r` has made copy `x` of call `c`. */
  ghost predicate CopyDone(sys: System, s: State, r: Rank, c: OpId, x: Copy)
    requires WellFormed(sys) && |s.ranks| == sys.world && c < |sys.ops| && r in sys.ops[c].ranks
  {
    var i := Idx(sys, r, c);
    s.ranks[r].at > i || (s.ranks[r].at == i && x in s.ranks[r].done)
  }

  /** In the owner's current call, a comm-buffer byte whose copy is made holds its content. */
  ghost predicate CommByteOK(sys: System, s: State, m: Rank, a: nat)
    requires WellFormed(sys) && Active(sys, s, m) && m in CurOp(sys, s, m).ranks
  {
    var c := sys.prog[m][s.ranks[m].at];
    var op := sys.ops[c];
    var i := IndexOf(op.ranks, m);
    var (e, w) := Writer(op, i, a);
    e < |op.ranks| && Valid(op, e, w) && CopyDone(sys, s, op.ranks[e], c, w) ==>
      Read(s.mem, Comm(m, a)) == Content(op, i, a)
  }

  /** An output byte whose copy is made holds the specified byte, and keeps it. */
  ghost predicate OutByteOK(sys: System, s: State, r: Rank, j: nat, x: Copy)
    requires WellFormed(sys) && |s.ranks| == sys.world && r < sys.world && j < |sys.prog[r]|
    requires r in sys.ops[sys.prog[r][j]].ranks
  {
    var op := sys.ops[sys.prog[r][j]];
    var me := IndexOf(op.ranks, r);
    Valid(op, me, x) && ToOutput(x) && (s.ranks[r].at > j || (s.ranks[r].at == j && x in s.ranks[r].done)) ==>
      Read(s.mem, Out(r, j, OutAddr(op, me, x))) == OutByte(op, me, OutAddr(op, me, x))
  }

  ghost predicate DataOK(sys: System, s: State)
    requires WellFormed(sys) && |s.ranks| == sys.world
  {
    && (forall m, a: nat :: 0 <= m < sys.world && Active(sys, s, m) && m in CurOp(sys, s, m).ranks ==>
        CommByteOK(sys, s, m, a))
    && (forall r, j, x :: 0 <= r < sys.world && 0 <= j < |sys.prog[r]| && r in sys.ops[sys.prog[r][j]].ranks ==>
      OutByteOK(sys, s, r, j, x))
  }

  ghost predicate Safe(sys: System, s: State)
    requires WellFormed(sys)
  {
    BarrierOK(sys, s) && PadOK(sys, s) && DataOK(sys, s)
  }

  // ------------------------------------------------- where a copy may happen

  /** A member that has arrived at a barrier has made every copy due before it. */
  lemma ArrivedHasCopied(sys: System, s: State, m: Rank, c: OpId, b: nat, p: Rank, w: Copy)
    requires WellFormed(sys) && Ordered(sys, s) && c < |sys.ops| && m in sys.ops[c].ranks
    requires Valid(sys.ops[c], IndexOf(sys.ops[c].ranks, m), w) && Hi(sys.ops[c], w) <= b
    requires Arrived(sys, s, m, c, b, p)
    ensures CopyDone(sys, s, m, c, w)
  {
    hide Registered, PairAgree, StepsOK, Valid, Hi, Lo;
    MemberIn(sys, m, c);
    assert RankOK(sys, s, m);
  }

  lemma MemberIn(sys: System, m: Rank, c: OpId)
    requires WellFormed(sys) && c < |sys.ops| && m in sys.ops[c].ranks
    ensures m < sys.world
  {
    MemberInWorld(sys, m, c);
  }

  /** A member that has posted a chunk has staged all of it. */
  lemma PostedHasStaged(sys: System, s: State, m: Rank, c: OpId, ch: nat, k: nat, q: Rank, w: Copy)
    requires WellFormed(sys) && Ordered(sys, s) && c < |sys.ops| && m in sys.ops[c].ranks
    requires Valid(sys.ops[c], IndexOf(sys.ops[c].ranks, m), w) && !w.Pull?
    requires CellOf(sys.ops[c], Offset(sys.ops[c], w)) == (ch, k)
    requires StepDone(sys, s, m, c, ch, k, q)
    ensures CopyDone(sys, s, m, c, w)
  {
    hide Registered, PairAgree, CopiesOK, Valid, CellOf, Offset;
    MemberIn(sys, m, c);
    assert RankOK(sys, s, m);
    if s.ranks[m].at == Idx(sys, m, c) {
      assert ChunkStaged(sys.ops[c], IndexOf(sys.ops[c].ranks, m), s.ranks[m], ch, k);
    }
  }

  /** A copy that may run between barriers runs before its own barrier is published. */
  lemma NotYetPublished(sys: System, s: State, e: Rank, x: Copy)
    requires WellFormed(sys) && Ordered(sys, s) && Enabled(sys, s, Move(e, x))
    requires Hi(CurOp(sys, s, e), x) == s.ranks[e].bar
    ensures s.ranks[e].published == map[]
  {
    hide Registered, PairAgree, StepsOK, Valid, Hi, Lo, Ready;
    assert RankOK(sys, s, e);
  }

  lemma BarsAbove(sys: System, op: Op, me: nat, x: Copy)
    requires ValidOp(sys, op) && Valid(op, me, x) && !x.CopyOut?
    ensures Hi(op, x) < Bars(op)
    ensures !x.Stage? ==> Hi(op, x) >= 1
    ensures !x.Stage? || IsFused(op) ==> Lo(op, x) == Hi(op, x)
  {
  }

  /** Whoever owns the memory a copy touches remotely is inside the same call. */
  lemma RemoteInside(sys: System, s: State, e: Rank, x: Copy, m: Rank)
    requires WellFormed(sys) && BarrierOK(sys, s) && Enabled(sys, s, Move(e, x))
    requires m in CurOp(sys, s, e).ranks && !x.Stage? && !x.CopyOut?
    ensures m < sys.world && s.ranks[m].at == Idx(sys, m, sys.prog[e][s.ranks[e].at])
  {
    hide Registered, PairAgree, EdgeOK, RankOK, Valid, Hi, Lo, Ready;
    var op := CurOp(sys, s, e);
    ValidCurrent(sys, s, e);
    BarsAbove(sys, op, IndexOf(op.ranks, e), x);
    NotYetPublished(sys, s, e, x);
    Window(sys, s, e, m);
  }

  lemma ValidCurrent(sys: System, s: State, e: Rank)
    requires WellFormed(sys) && Active(sys, s, e)
    ensures ValidOp(sys, CurOp(sys, s, e)) && e in CurOp(sys, s, e).ranks
    ensures Idx(sys, e, sys.prog[e][s.ranks[e].at]) == s.ranks[e].at
  {
    IdxAt(sys, e, s.ranks[e].at);
  }

  /** Membership by position. */
  lemma AtPosition(sys: System, c: OpId, i: nat)
    requires WellFormed(sys) && c < |sys.ops| && i < |sys.ops[c].ranks|
    ensures var m := sys.ops[c].ranks[i];
      m in sys.ops[c].ranks && m < sys.world && IndexOf(sys.ops[c].ranks, m) == i
  {
    assert ValidOp(sys, sys.ops[c]);
    IndexUnique(sys.ops[c].ranks, i);
  }

  // ------------------------------------------------------- what a copy moves

  /** The interval between a fill and its read is closed by a barrier. */
  lemma FilledBefore(sys: System, s: State, e: Rank, x: Copy, j: nat, w: Copy)
    requires WellFormed(sys) && BarrierOK(sys, s) && Enabled(sys, s, Move(e, x))
    requires var op := CurOp(sys, s, e);
      && j < |op.ranks| && Valid(op, j, w) && !x.Stage? && Hi(op, w) + 1 == Hi(op, x)
    ensures CopyDone(sys, s, CurOp(sys, s, e).ranks[j], sys.prog[e][s.ranks[e].at], w)
  {
    hide Registered, PairAgree, EdgeOK, RankOK, Valid, Ready, CopyDone;
    var c, b := sys.prog[e][s.ranks[e].at], s.ranks[e].bar;
    ValidCurrent(sys, s, e);
    AtPosition(sys, c, j);
    var m := sys.ops[c].ranks[j];
    WithinBars(sys, s, e);
    assert Hi(sys.ops[c], x) == b;
    LeaveAfterAllArrive(sys, s, e, m, c, b - 1);
    ArrivedHasCopied(sys, s, m, c, b - 1, e, w);
  }

  lemma WithinBars(sys: System, s: State, e: Rank)
    requires WellFormed(sys) && Ordered(sys, s) && Active(sys, s, e)
    ensures s.ranks[e].bar <= Bars(CurOp(sys, s, e))
  {
    assert RankOK(sys, s, e);
  }

  /** A fused pull reads a chunk that its producer has posted, hence staged. */
  lemma FilledInChunk(sys: System, s: State, e: Rank, x: Copy, j: nat, w: Copy)
    requires WellFormed(sys) && Ordered(sys, s) && PadOK(sys, s) && Enabled(sys, s, Move(e, x))
    requires var op := CurOp(sys, s, e);
      && j < |op.ranks| && Valid(op, j, w) && IsFused(op) && x.Pull? && !w.Pull?
      && j != IndexOf(op.ranks, e) && CellOf(op, Offset(op, w)) == CellOf(op, x.off)
    ensures CopyDone(sys, s, CurOp(sys, s, e).ranks[j], sys.prog[e][s.ranks[e].at], w)
  {
    hide Registered, PairAgree, RankOK, Valid, CopyDone, CellOf, Offset, PadLive, PadSafe;
    var c := sys.prog[e][s.ranks[e].at];
    ValidCurrent(sys, s, e);
    AtPosition(sys, c, j);
    var m := sys.ops[c].ranks[j];
    var (ch, k) := CellOf(sys.ops[c], x.off);
    assert ReceiverOK(sys, s, e, m);
    PostedHasStaged(sys, s, m, c, ch, k, e, w);
  }

  /** When a copy reads a comm buffer, the owner is inside the same call and the byte
      has been filled for it. */
  lemma SourceReady(sys: System, s: State, e: Rank, x: Copy)
    requires WellFormed(sys) && BarrierOK(sys, s) && PadOK(sys, s) && Enabled(sys, s, Move(e, x))
    requires Source(CurOp(sys, s, e), IndexOf(CurOp(sys, s, e).ranks, e), x).Peer?
    ensures var c := sys.prog[e][s.ranks[e].at];
      var op := sys.ops[c];
      var Peer(i, a) := Source(op, IndexOf(op.ranks, e), x);
      var (j, w) := Writer(op, i, a);
      && i < |op.ranks| && j < |op.ranks| && Valid(op, j, w)
      && op.ranks[i] < sys.world && s.ranks[op.ranks[i]].at == Idx(sys, op.ranks[i], c)
      && CopyDone(sys, s, op.ranks[j], c, w)
  {
    hide Registered, PairAgree, EdgeOK, RankOK, PadOK, Ready, CopyDone, Hi, Lo;
    var c := sys.prog[e][s.ranks[e].at];
    var op := sys.ops[c];
    var me := IndexOf(op.ranks, e);
    var Peer(i, a) := Source(op, me, x);
    var (j, w) := Writer(op, i, a);
    ValidCurrent(sys, s, e);
    SourceHasWriter(sys, op, me, x);
    AtPosition(sys, c, i);
    if !x.CopyOut? { RemoteInside(sys, s, e, x, op.ranks[i]); }
    if IsFused(op) {
      FilledInChunk(sys, s, e, x, j, w);
    } else {
      FilledBefore(sys, s, e, x, j, w);
    }
  }

  /** Every copy moves the byte its call specifies. */
  lemma MovedByte(sys: System, s: State, e: Rank, x: Copy)
    requires WellFormed(sys) && Safe(sys, s) && Enabled(sys, s, Move(e, x))
    ensures var op := CurOp(sys, s, e);
      var me := IndexOf(op.ranks, e);
      op.slice > 0 && CopyValue(op, me, s.mem, x) ==
        match x
        case Stage(a) => Content(op, me, a)
        case PutByte(off) => Content(op, 1, off)
        case _ => OutByte(op, me, OutAddr(op, me, x))
  {
    hide Registered, PairAgree, BarrierOK, PadOK, Ready, CopyDone, Hi, Lo, OutByteOK;
    var c := sys.prog[e][s.ranks[e].at];
    var op := sys.ops[c];
    var me := IndexOf(op.ranks, e);
    ValidCurrent(sys, s, e);
    if Source(op, me, x).Input? {
      InputContent(sys, op, me, s.mem, x);
    } else {
      var Peer(i, a) := Source(op, me, x);
      SourceReady(sys, s, e, x);
      AtPosition(sys, c, i);
      assert CommByteOK(sys, s, op.ranks[i], a);
      SourceContent(sys, op, me, x);
    }
  }

  /** A comm buffer is written only for its owner's current call, by the one copy that
      fills that byte. */
  lemma WritesForOwner(sys: System, s: State, e: Rank, x: Copy, m: Rank, a: nat)
    requires WellFormed(sys) && BarrierOK(sys, s) && Enabled(sys, s, Move(e, x))
    requires var op := CurOp(sys, s, e);
      Destination(op, IndexOf(op.ranks, e), s.ranks[e].at, x) == Comm(m, a)
    ensures var c := sys.prog[e][s.ranks[e].at];
      var op := sys.ops[c];
      && m in op.ranks && m < sys.world && s.ranks[m].at == Idx(sys, m, c)
      && Writer(op, IndexOf(op.ranks, m), a) == (IndexOf(op.ranks, e), x)
  {
    hide Registered, PairAgree, BarrierOK, Ready, Hi, Lo;
    var c := sys.prog[e][s.ranks[e].at];
    var op := sys.ops[c];
    ValidCurrent(sys, s, e);
    if x.Stage? {
    } else {
      AtPosition(sys, c, 1);
      RemoteInside(sys, s, e, x, m);
    }
  }

  // ------------------------------------------------------------ preservation

  /** Only the copy itself makes it done: a call ends with all its copies made. */
  lemma CopyDoneNew(sys: System, s: State, step: Step, r: Rank, c: OpId, w: Copy)
    requires WellFormed(sys) && Ordered(sys, s) && Enabled(sys, s, step)
    requires c < |sys.ops| && r in sys.ops[c].ranks && Valid(sys.ops[c], IndexOf(sys.ops[c].ranks, r), w)
    requires CopyDone(sys, Do(sys, s, step), r, c, w) && !CopyDone(sys, s, r, c, w)
    ensures step == Move(r, w) && s.ranks[r].at == Idx(sys, r, c)
  {
    hide Registered, PairAgree, RankOK, Valid, Hi, Lo, Ready;
    MemberIn(sys, r, c);
    if step == Finish(r) && s.ranks[r].at == Idx(sys, r, c) {
      LastBarrier(sys, sys.ops[c], IndexOf(sys.ops[c].ranks, r), w);
    }
  }

  lemma LastBarrier(sys: System, op: Op, me: nat, w: Copy)
    requires WellFormed(sys) && Valid(op, me, w) && op in sys.ops
    ensures Hi(op, w) <= Bars(op)
  {
    assert ValidOp(sys, op);
  }

  /** No copy of a call has been made for a member that has not started it. */
  lemma NothingCopiedYet(sys: System, s: State, m: Rank, c: OpId, a: nat)
    requires WellFormed(sys) && BarrierOK(sys, s) && c < |sys.ops| && m in sys.ops[c].ranks && m < sys.world
    requires s.ranks[m].at < Idx(sys, m, c)
    ensures var op := sys.ops[c];
      var (j, w) := Writer(op, IndexOf(op.ranks, m), a);
      j < |op.ranks| && Valid(op, j, w) ==> !CopyDone(sys, s, op.ranks[j], c, w)
  {
    hide Registered, PairAgree, EdgeOK;
    var op := sys.ops[c];
    var (j, w) := Writer(op, IndexOf(op.ranks, m), a);
    if j < |op.ranks| && Valid(op, j, w) && CopyDone(sys, s, op.ranks[j], c, w) && op.ranks[j] != m {
      AtPosition(sys, c, j);
      StartedPut(sys, s, op.ranks[j], c, w);
      LeaveAfterAllArrive(sys, s, op.ranks[j], m, c, 0);
    }
  }

  lemma StartedPut(sys: System, s: State, r: Rank, c: OpId, w: Copy)
    requires WellFormed(sys) && Ordered(sys, s) && c < |sys.ops| && r in sys.ops[c].ranks && r < sys.world
    requires w.PutByte? && CopyDone(sys, s, r, c, w)
    ensures Passed(sys, s, r, c, 0)
  {
    hide Registered, PairAgree;
    assert RankOK(sys, s, r);
  }

  lemma CommStarts(sys: System, s: State, m: Rank, a: nat)
    requires WellFormed(sys) && BarrierOK(sys, s) && Enabled(sys, s, Finish(m))
    requires Active(sys, Do(sys, s, Finish(m)), m) && m in CurOp(sys, Do(sys, s, Finish(m)), m).ranks
    ensures CommByteOK(sys, Do(sys, s, Finish(m)), m, a)
  {
    hide Registered, PairAgree, BarrierOK, Valid, CopiesDone;
    var t := Do(sys, s, Finish(m));
    var c := sys.prog[m][t.ranks[m].at];
    var op := sys.ops[c];
    IdxAt(sys, m, t.ranks[m].at);
    var (j, w) := Writer(op, IndexOf(op.ranks, m), a);
    NothingCopiedYet(sys, s, m, c, a);
    assert m < sys.world;
  }

  lemma MemoryElsewhere(sys: System, s: State, step: Step, l: Loc)
    requires WellFormed(sys) && Enabled(sys, s, step)
    requires step.Move? ==>
      Destination(CurOp(sys, s, step.r), IndexOf(CurOp(sys, s, step.r).ranks, step.r), s.ranks[step.r].at, step.x) != l
    ensures Read(Do(sys, s, step).mem, l) == Read(s.mem, l)
  {
    hide Registered, PairAgree, Valid, Ready, Hi, Lo, Destination, CopyValue;
  }

  lemma MemoryMoved(sys: System, s: State, e: Rank, x: Copy)
    requires WellFormed(sys) && Enabled(sys, s, Move(e, x))
    ensures var op := CurOp(sys, s, e);
      var me := IndexOf(op.ranks, e);
      Read(Do(sys, s, Move(e, x)).mem, Destination(op, me, s.ranks[e].at, x)) == CopyValue(op, me, s.mem, x)
  {
    hide Registered, PairAgree, Valid, Ready, Hi, Lo, Destination, CopyValue;
  }

  /** A write into a comm buffer leaves there the content of the owner's current call. */
  lemma CommWritten(sys: System, s: State, e: Rank, x: Copy, m: Rank, a: nat)
    requires WellFormed(sys) && Safe(sys, s) && Enabled(sys, s, Move(e, x))
    requires Active(sys, s, m) && m in CurOp(sys, s, m).ranks
    requires Destination(CurOp(sys, s, e), IndexOf(CurOp(sys, s, e).ranks, e), s.ranks[e].at, x) == Comm(m, a)
    ensures var op := CurOp(sys, s, m);
      Read(Do(sys, s, Move(e, x)).mem, Comm(m, a)) == Content(op, IndexOf(op.ranks, m), a)
  {
    hide Registered, PairAgree, BarrierOK, PadOK, DataOK, Valid, Ready, Hi, Lo, CopyValue, OutByte;
    ValidCurrent(sys, s, e);
    ValidCurrent(sys, s, m);
    WritesForOwner(sys, s, e, x, m, a);
    MemoryMoved(sys, s, e, x);
    MovedByte(sys, s, e, x);
  }

  lemma CommKept(sys: System, s: State, step: Step, m: Rank, a: nat)
    requires WellFormed(sys) && Safe(sys, s) && Enabled(sys, s, step) && step != Finish(m)
    requires Active(sys, s, m) && m in CurOp(sys, s, m).ranks && CommByteOK(sys, s, m, a)
    ensures Active(sys, Do(sys, s, step), m) && CommByteOK(sys, Do(sys, s, step), m, a)
  {
    hide Registered, PairAgree, BarrierOK, PadOK, DataOK, CopyDone, Valid, Ready, Hi, Lo, CopyValue, OutByte,
        CopiesDone;
    var c := sys.prog[m][s.ranks[m].at];
    var op := sys.ops[c];
    var (j, w) := Writer(op, IndexOf(op.ranks, m), a);
    if step.Move?
       && Destination(CurOp(sys, s, step.r), IndexOf(CurOp(sys, s, step.r).ranks, step.r), s.ranks[step.r].at,
           step.x) == Comm(m, a)
    {
      CommWritten(sys, s, step.r, step.x, m, a);
    } else {
      MemoryElsewhere(sys, s, step, Comm(m, a));
      if j < |op.ranks| && Valid(op, j, w) && CopyDone(sys, Do(sys, s, step), op.ranks[j], c, w)
         && !CopyDone(sys, s, op.ranks[j], c, w)
      {
        AtPosition(sys, c, j);
        OrderedOf(sys, s);
        CopyDoneNew(sys, s, step, op.ranks[j], c, w);
        ValidCurrent(sys, s, m);
        ValidCurrent(sys, s, op.ranks[j]);
        WriterWrites(op, j, IndexOf(op.ranks, m), s.ranks[op.ranks[j]].at, a);
        assert false;
      }
    }
  }

  lemma OrderedOf(sys: System, s: State)
    requires WellFormed(sys) && BarrierOK(sys, s)
    ensures Ordered(sys, s)
  {
  }

  lemma WriterWrites(op: Op, j: nat, i: nat, at: nat, a: nat)
    requires i < |op.ranks| && j < |op.ranks| && Writer(op, i, a).0 == j && Valid(op, j, Writer(op, i, a).1)
    ensures Destination(op, j, at, Writer(op, i, a).1) == Comm(op.ranks[i], a)
  {
  }

  lemma OutKept(sys: System, s: State, step: Step, r: Rank, j: nat, x: Copy)
    requires WellFormed(sys) && Safe(sys, s) && Enabled(sys, s, step)
    requires r < sys.world && j < |sys.prog[r]| && r in sys.ops[sys.prog[r][j]].ranks
    requires OutByteOK(sys, s, r, j, x)
    ensures OutByteOK(sys, Do(sys, s, step), r, j, x)
  {
    hide Registered, PairAgree, BarrierOK, PadOK, DataOK, Ready, Valid, Lo, CopyValue, OutByte;
    var op := sys.ops[sys.prog[r][j]];
    var me := IndexOf(op.ranks, r);
    var l := Out(r, j, OutAddr(op, me, x));
    if step.Move?
       && Destination(CurOp(sys, s, step.r), IndexOf(CurOp(sys, s, step.r).ranks, step.r), s.ranks[step.r].at,
           step.x) == l
    {
      ValidCurrent(sys, s, step.r);
      MemoryMoved(sys, s, step.r, step.x);
      MovedByte(sys, s, step.r, step.x);
    } else {
      MemoryElsewhere(sys, s, step, l);
      if step == Finish(r) && s.ranks[r].at == j && Valid(op, me, x) { LastBarrier(sys, op, me, x); }
    }
  }

  lemma DataKept(sys: System, s: State, step: Step)
    requires WellFormed(sys) && Safe(sys, s) && Enabled(sys, s, step)
    ensures DataOK(sys, Do(sys, s, step))
  {
    hide Registered, PairAgree, BarrierOK, PadOK, CommByteOK, OutByteOK, CurOp;
    var t := Do(sys, s, step);
    forall m, a: nat | 0 <= m < sys.world && Active(sys, t, m) && m in CurOp(sys, t, m).ranks
      ensures CommByteOK(sys, t, m, a)
    {
      if step == Finish(m) {
        CommStarts(sys, s, m, a);
      } else {
        ValidCurrent(sys, s, m);
        assert CommByteOK(sys, s, m, a);
        CommKept(sys, s, step, m, a);
      }
    }
    forall r, j, x | 0 <= r < sys.world && 0 <= j < |sys.prog[r]| && r in sys.ops[sys.prog[r][j]].ranks
      ensures OutByteOK(sys, t, r, j, x)
    {
      assert OutByteOK(sys, s, r, j, x);
      OutKept(sys, s, step, r, j, x);
    }
  }

  lemma InitialSafe(sys: System, s: State)
    requires WellFormed(sys) && InitialState(sys, s)
    ensures Safe(sys, s)
  {
    InitialBarrierOK(sys, s);
    InitialPadOK(sys, s);
    forall m, a: nat | 0 <= m < sys.world && Active(sys, s, m) && m in CurOp(sys, s, m).ranks
      ensures CommByteOK(sys, s, m, a)
    {
      IdxAt(sys, m, 0);
    }
  }

  /** Every step of any rank keeps the whole system safe. */
  lemma SafeKept(sys: System, s: State, step: Step)
    requires WellFormed(sys) && StepFresh(sys) && Safe(sys, s) && Enabled(sys, s, step) && Honest(sys, s, step)
    ensures Safe(sys, Do(sys, s, step))
  {
    hide Registered, PairAgree, BarrierOK, PadOK, DataOK, StepFresh, Honest;
    BarrierKept(sys, s, step);
    PadKept(sys, s, step);
    DataKept(sys, s, step);
  }

  lemma SafeIsHonest(sys: System, s: State, step: Step)
    requires WellFormed(sys) && Fresh(sys) && Safe(sys, s) && Enabled(sys, s, step)
    ensures Honest(sys, s, step)
  {
    hide Registered, PairAgree, Fresh, Enabled, PadOK, DataOK;
    FreshIsHonest(sys, s, step);
  }

  lemma {:induction false} SafeInRun(sys: System, states: seq<State>, steps: seq<Step>, i: nat)
    requires WellFormed(sys) && Fresh(sys) && StepFresh(sys) && IsRun(sys, states, steps) && i < |states|
    ensures Safe(sys, states[i])
  {
    hide Registered, PairAgree, Fresh, StepFresh, Safe, EdgeBase, Enabled;
    if i == 0 {
      InitialSafe(sys, states[0]);
    } else {
      SafeInRun(sys, states, steps, i - 1);
      SafeIsHonest(sys, states[i - 1], steps[i - 1]);
      SafeKept(sys, states[i - 1], steps[i - 1]);
    }
  }
}
