/** What the callers get: results of finished calls over whole runs, equality of the
    data paths, and safety of reusing the comm buffers. */
module EndToEnd {
  import opened Arithmetic
  import opened Schedule
  import opened Protocol
  import opened LocalOrder
  import opened BarrierSafety
  import opened FusedSteps
  import opened CopyPlan
  import opened DataSafety

  /** The output of rank `r`'s `j`-th call as it stands in memory. */
  ghost function OutputOf(sys: System, s: State, r: Rank, j: nat): seq<bv8>
    requires WellFormed(sys) && r < sys.world && j < |sys.prog[r]|
    requires r in sys.ops[sys.prog[r][j]].ranks
  {
    var op := sys.ops[sys.prog[r][j]];
    seq(OutLen(op, IndexOf(op.ranks, r)), o requires 0 <= o => Read(s.mem, Out(r, j, o)))
  }

  lemma DataCall(sys: System, r: Rank, j: nat)
    requires WellFormed(sys) && r < sys.world && j < |sys.prog[r]|
    ensures var op := sys.ops[sys.prog[r][j]];
      && ValidOp(sys, op) && r in op.ranks
      && (!op.kind.Bare? ==> op.slice > 0)
  {
    IdxAt(sys, r, j);
  }

  /** End to end: in any run of a well-formed system, under every interleaving, the output
      of a finished call is the specified one, and stays so for the rest of the run. */
  lemma FinishedOutput(sys: System, states: seq<State>, steps: seq<Step>, i: nat, r: Rank, j: nat)
    requires WellFormed(sys) && Fresh(sys) && StepFresh(sys) && IsRun(sys, states, steps) && i < |states|
    requires r < sys.world && j < |sys.prog[r]| && !sys.ops[sys.prog[r][j]].kind.Bare?
    requires |states[i].ranks| == sys.world && states[i].ranks[r].at > j
    ensures var op := sys.ops[sys.prog[r][j]];
      && r in op.ranks && op.slice > 0
      && OutputOf(sys, states[i], r, j) == Expected(op, IndexOf(op.ranks, r))
  {
    hide Registered, PairAgree, Fresh, StepFresh, BarrierOK, PadOK, OutByte, Valid;
    DataCall(sys, r, j);
    SafeInRun(sys, states, steps, i);
    var op := sys.ops[sys.prog[r][j]];
    var me := IndexOf(op.ranks, r);
    forall o | 0 <= o < OutLen(op, me)
      ensures Read(states[i].mem, Out(r, j, o)) == OutByte(op, me, o)
    {
      var x := OutputCovered(sys, op, me, o);
      assert OutByteOK(sys, states[i], r, j, x);
    }
  }

  lemma SegmentByte(op: Op, me: nat, k: nat, off: nat)
    requires off < op.slice && (op.kind.AllGather? || op.kind.AllToAll?)
    ensures OutByte(op, me, k * op.slice + off)
      == Content(op, k, if op.kind.AllToAll? then me * op.slice + off else off)
  {
    DivModOf(op.slice, k, off);
  }

  /** Segment `k` of an all_gather's output is what `ranks[k]` passed in. */
  lemma GatherMeans(sys: System, op: Op, me: nat, k: nat)
    requires ValidOp(sys, op) && op.kind.AllGather? && me < |op.ranks| && k < |op.ranks|
    ensures k * op.slice + op.slice <= |Expected(op, me)|
    ensures Expected(op, me)[k * op.slice .. k * op.slice + op.slice] == op.inputs[k]
  {
    MulGap(op.slice, k, |op.ranks|);
    var got := Expected(op, me)[k * op.slice .. k * op.slice + op.slice];
    forall off | 0 <= off < op.slice ensures got[off] == op.inputs[k][off] {
      SegmentByte(op, me, k, off);
    }
  }

  /** Segment `k` of an all2all's output is the slice `ranks[k]` prepared for this member:
      the transpose of the inputs. */
  lemma TransposeMeans(sys: System, op: Op, me: nat, k: nat)
    requires ValidOp(sys, op) && op.kind.AllToAll? && me < |op.ranks| && k < |op.ranks|
    ensures k * op.slice + op.slice <= |Expected(op, me)| && me * op.slice + op.slice <= |op.inputs[k]|
    ensures Expected(op, me)[k * op.slice .. k * op.slice + op.slice]
              == op.inputs[k][me * op.slice .. me * op.slice + op.slice]
  {
    MulGap(op.slice, k, |op.ranks|);
    MulGap(op.slice, me, |op.ranks|);
    var lo := me * op.slice;
    assert lo + op.slice <= |op.inputs[k]|;
    var got, want := Expected(op, me)[k * op.slice .. k * op.slice + op.slice], op.inputs[k][lo .. lo + op.slice];
    forall off | 0 <= off < op.slice ensures got[off] == want[off] {
      SegmentByte(op, me, k, off);
    }
  }

  /** The receiver of a put or a get ends with the sender's bytes. */
  lemma PeerMeans(sys: System, op: Op)
    requires ValidOp(sys, op) && (op.kind.Put? || op.kind.Get?)
    ensures Expected(op, 1) == op.inputs[0]
  {
  }

  /** One-shot, pipelined and fused runs of the same call give the same output: each path
      refines the one specification, whatever else the two systems do around the call. */
  lemma PathsAgree(
      a: System, aRun: seq<State>, aSteps: seq<Step>, i: nat, j: nat,
      b: System, bRun: seq<State>, bSteps: seq<Step>, k: nat, l: nat, r: Rank)
    requires WellFormed(a) && Fresh(a) && StepFresh(a) && IsRun(a, aRun, aSteps) && i < |aRun|
    requires WellFormed(b) && Fresh(b) && StepFresh(b) && IsRun(b, bRun, bSteps) && k < |bRun|
    requires r < a.world && j < |a.prog[r]| && |aRun[i].ranks| == a.world && aRun[i].ranks[r].at > j
    requires r < b.world && l < |b.prog[r]| && |bRun[k].ranks| == b.world && bRun[k].ranks[r].at > l
    requires var x, y := a.ops[a.prog[r][j]], b.ops[b.prog[r][l]];
      !x.kind.Bare? && y == x.(path := y.path, gid := y.gid)
    ensures r in a.ops[a.prog[r][j]].ranks && r in b.ops[b.prog[r][l]].ranks
    ensures OutputOf(a, aRun[i], r, j) == OutputOf(b, bRun[k], r, l)
  {
    hide Registered, PairAgree, Fresh, StepFresh, IsRun;
    FinishedOutput(a, aRun, aSteps, i, r, j);
    FinishedOutput(b, bRun, bSteps, k, r, l);
  }

  // -------------------------------------------------------- reuse and reads

  /** A copy `y` that rank `q` has still to make for call `c`, be it the call it is in or
      one it has not reached yet, and whose comm-buffer byte `(m, a)` has already been
      filled for `c`. */
  ghost predicate StillToRead(sys: System, s: State, c: OpId, q: Rank, y: Copy, m: Rank, a: nat)
    requires WellFormed(sys) && |s.ranks| == sys.world
  {
    && c < |sys.ops| && q in sys.ops[c].ranks
    && var op := sys.ops[c];
    var me := IndexOf(op.ranks, q);
    && Valid(op, me, y) && !CopyDone(sys, s, q, c, y)
    && Source(op, me, y).Peer?
    && var Peer(i, b) := Source(op, me, y);
    && i < |op.ranks| && op.ranks[i] == m && b == a
    && var (j, w) := Writer(op, i, a);
    && j < |op.ranks| && CopyDone(sys, s, op.ranks[j], c, w)
  }

  /** A member that has left a call has let every other member finish its reads. */
  lemma LeftAfterReads(sys: System, s: State, m: Rank, q: Rank, c: OpId, y: Copy)
    requires WellFormed(sys) && BarrierOK(sys, s) && c < |sys.ops|
    requires m in sys.ops[c].ranks && q in sys.ops[c].ranks && m < sys.world && q < sys.world
    requires s.ranks[m].at > Idx(sys, m, c)
    requires Valid(sys.ops[c], IndexOf(sys.ops[c].ranks, q), y) && !y.CopyOut?
    ensures CopyDone(sys, s, q, c, y)
  {
    hide Registered, PairAgree, EdgeOK, RankOK, Valid, Hi, CopyDone;
    var op := sys.ops[c];
    DataCall(sys, q, Idx(sys, q, c));
    BarsAbove(sys, op, IndexOf(op.ranks, q), y);
    LeaveAfterAllArrive(sys, s, m, q, c, Bars(op) - 1);
    ArrivedHasCopied(sys, s, q, c, Bars(op) - 1, m, y);
  }

  /** A byte that is filled and still to be read belongs to its owner's current call:
      the owner has neither left that call nor not reached it. */
  lemma UnreadIsCurrent(sys: System, s: State, c: OpId, q: Rank, y: Copy, m: Rank, a: nat)
    requires WellFormed(sys) && BarrierOK(sys, s) && |s.ranks| == sys.world && StillToRead(sys, s, c, q, y, m, a)
    ensures m in sys.ops[c].ranks && m < sys.world && s.ranks[m].at == Idx(sys, m, c)
  {
    hide Registered, PairAgree, BarrierOK, Hi, Lo;
    var op := sys.ops[c];
    var me := IndexOf(op.ranks, q);
    MemberIn(sys, q, c);
    DataCall(sys, q, Idx(sys, q, c));
    var Peer(i, b) := Source(op, me, y);
    AtPosition(sys, c, i);
    SourceHasWriter(sys, op, me, y);
    if s.ranks[m].at > Idx(sys, m, c) {
      // A copy-out reads its own rank's buffer, and that rank has not left the call.
      if !y.CopyOut? { LeftAfterReads(sys, s, m, q, c, y); }
    } else if s.ranks[m].at < Idx(sys, m, c) {
      NothingCopiedYet(sys, s, m, c, a);
    }
  }

  /** Buffer reuse: no enabled step, local staging or remote put, of any call of any
      group, writes a comm-buffer byte that some rank has still to read, however far
      behind that rank is. */
  lemma NoOverwriteBeforeRead(sys: System, s: State, e: Rank, x: Copy, c: OpId, q: Rank, y: Copy, m: Rank, a: nat)
    requires WellFormed(sys) && Safe(sys, s) && Enabled(sys, s, Move(e, x))
    requires Destination(CurOp(sys, s, e), IndexOf(CurOp(sys, s, e).ranks, e), s.ranks[e].at, x) == Comm(m, a)
    ensures !StillToRead(sys, s, c, q, y, m, a)
  {
    hide Registered, PairAgree, PadOK, DataOK, BarrierOK, Ready, Hi, Lo, Valid, Source;
    if StillToRead(sys, s, c, q, y, m, a) {
      UnreadIsCurrent(sys, s, c, q, y, m, a);
      ValidCurrent(sys, s, e);
      WritesForOwner(sys, s, e, x, m, a);
    }
  }

  /** Every read of a run returns what the owner's call staged there for it: never an
      unfilled byte, nor a byte of an earlier or later call. */
  lemma ReadsAreStaged(sys: System, states: seq<State>, steps: seq<Step>, n: nat, i: nat, a: nat)
    requires WellFormed(sys) && Fresh(sys) && StepFresh(sys) && IsRun(sys, states, steps) && n < |steps|
    requires steps[n].Move?
    requires var op := CurOp(sys, states[n], steps[n].r);
      Source(op, IndexOf(op.ranks, steps[n].r), steps[n].x) == Peer(i, a)
    ensures var op := CurOp(sys, states[n], steps[n].r);
      i < |op.ranks| && Read(states[n].mem, Comm(op.ranks[i], a)) == Content(op, i, a)
  {
    hide Registered, PairAgree, Fresh, StepFresh, BarrierOK, PadOK, Ready, Hi, Lo, CopyDone, OutByteOK;
    SafeInRun(sys, states, steps, n);
    var s, e, x := states[n], steps[n].r, steps[n].x;
    var c := sys.prog[e][s.ranks[e].at];
    ValidCurrent(sys, s, e);
    SourceReady(sys, s, e, x);
    AtPosition(sys, c, i);
    assert CommByteOK(sys, s, sys.ops[c].ranks[i], a);
  }
}
