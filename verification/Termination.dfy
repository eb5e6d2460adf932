/** Every run ends: a bound on the number of steps that depends only on the programs. */
module Termination {
  import opened Schedule
  import opened Protocol
  import opened LocalOrder
  import opened BarrierSafety
  import opened DataSafety

  // ------------------------------------------------------- work of one call

  ghost function Copies(op: Op): set<Copy> {
    (set a: nat | a < StageLen(op) :: Stage(a))
    + (set i: nat, off: nat | i < |op.ranks| && off < op.slice :: Pull(i, off))
    + (set off: nat | off < op.slice :: SelfCopy(off))
    + (set off: nat | off < op.slice :: PutByte(off))
    + (set off: nat | off < op.slice :: CopyOut(off))
  }

  ghost function Chunks(sys: System): set<(nat, nat)> {
    set ch: nat, k: nat | ch < sys.channels && k < sys.maxChunks :: (ch, k)
  }

  ghost function Posts(sys: System, op: Op): set<(nat, nat, Rank)> {
    set ch: nat, k: nat, p | ch < sys.channels && k < sys.maxChunks && p in op.ranks :: (ch, k, p)
  }

  /** Publishes, waits and passes of `n` barriers. */
  function BarWork(op: Op, n: nat): nat {
    if n == 0 then 0 else BarWork(op, n - 1) + 2 * |op.ranks| + 1
  }

  lemma {:induction false} BarWorkGrows(op: Op, m: nat, n: nat)
    requires m < n
    ensures BarWork(op, m) + 2 * |op.ranks| + 1 <= BarWork(op, n)
  {
    if m < n - 1 { BarWorkGrows(op, m, n - 1); }
  }

  ghost function KernelWork(sys: System, op: Op): nat {
    |Copies(op)| + |Posts(sys, op)| + |Chunks(sys)|
  }

  ghost function KernelSpent(rs: RankState): nat {
    |rs.done| + |rs.posted| + |rs.seen|
  }

  ghost function BarSpent(op: Op, rs: RankState): nat {
    BarWork(op, rs.bar) + |rs.published| + |rs.waited|
  }

  ghost function Work(sys: System, op: Op): nat {
    KernelWork(sys, op) + BarWork(op, Bars(op)) + 1
  }

  ghost function Spent(op: Op, rs: RankState): nat {
    KernelSpent(rs) + BarSpent(op, rs)
  }

  lemma SubsetSize<T>(a: set<T>, b: set<T>)
    requires a <= b
    ensures |a| <= |b|
  {
    assert b == a + (b - a);
  }

  lemma {:induction false} SeqSetSize<T>(a: set<T>, s: seq<T>)
    requires forall x :: x in a ==> x in s
    ensures |a| <= |s|
  {
    if s == [] {
      assert a == {};
    } else {
      SeqSetSize(a - {s[0]}, s[1..]);
      SubsetSize(a, (a - {s[0]}) + {s[0]});
    }
  }

  lemma ValidInCopies(sys: System, op: Op, me: nat, x: Copy)
    requires ValidOp(sys, op) && me < |op.ranks| && Valid(op, me, x)
    ensures x in Copies(op)
  {
  }

  lemma SpentOnBarriers(op: Op, rs: RankState)
    requires BarriersOK(op, rs)
    ensures BarSpent(op, rs) <= BarWork(op, Bars(op))
    ensures |rs.published| <= |op.ranks| && |rs.waited| <= |op.ranks|
  {
    SeqSetSize(rs.published.Keys, op.ranks);
    SeqSetSize(rs.waited, op.ranks);
    if rs.bar < Bars(op) {
      BarWorkGrows(op, rs.bar, Bars(op));
    } else {
      SubsetSize(rs.waited, {});
    }
  }

  lemma SpentInKernels(sys: System, op: Op, me: nat, rs: RankState)
    requires ValidOp(sys, op) && me < |op.ranks| && LocalOK(op, me, rs)
    ensures KernelSpent(rs) <= KernelWork(sys, op)
  {
    hide Copies, Valid, Hi, Lo, ChunkStaged, CopiesDone, AllPosted;
    forall x | x in rs.done ensures x in Copies(op) { ValidInCopies(sys, op, me, x); }
    SubsetSize(rs.done, Copies(op));
    forall z | z in rs.posted ensures z in Posts(sys, op) { assert (z.0, z.1, z.2) in rs.posted; }
    SubsetSize(rs.posted, Posts(sys, op));
    forall z | z in rs.seen ensures z in Chunks(sys) { assert (z.0, z.1) in rs.seen; }
    SubsetSize(rs.seen, Chunks(sys));
  }

  /** A call never spends more than its work. */
  lemma SpentWithin(sys: System, op: Op, me: nat, rs: RankState)
    requires ValidOp(sys, op) && me < |op.ranks| && LocalOK(op, me, rs)
    ensures Spent(op, rs) < Work(sys, op)
  {
    hide CopiesOK, StepsOK, KernelSpent, KernelWork, BarSpent, BarWork;
    SpentInKernels(sys, op, me, rs);
    SpentOnBarriers(op, rs);
  }

  // ------------------------------------------------------- work of a system

  ghost function WorkFrom(sys: System, r: Rank, i: nat): nat
    requires Shape(sys) && r < sys.world && i <= |sys.prog[r]|
    decreases |sys.prog[r]| - i
  {
    if i == |sys.prog[r]| then 0 else Work(sys, sys.ops[sys.prog[r][i]]) + WorkFrom(sys, r, i + 1)
  }

  /** Steps that rank `r` may still take. */
  ghost function Left(sys: System, rs: RankState, r: Rank): int
    requires Shape(sys) && r < sys.world && rs.at <= |sys.prog[r]|
  {
    WorkFrom(sys, r, rs.at) - if rs.at < |sys.prog[r]| then Spent(sys.ops[sys.prog[r][rs.at]], rs) else 0
  }

  ghost function LeftAll(sys: System, s: State, n: nat): int
    requires Shape(sys) && Placed(sys, s) && n <= sys.world
  {
    if n == 0 then 0 else LeftAll(sys, s, n - 1) + Left(sys, s.ranks[n - 1], n - 1)
  }

  lemma LeftNonNegative(sys: System, s: State, r: Rank)
    requires WellFormed(sys) && Ordered(sys, s) && r < sys.world
    ensures Left(sys, s.ranks[r], r) >= 0
  {
    hide Registered, PairAgree, LocalOK, Spent, Work;
    if s.ranks[r].at < |sys.prog[r]| {
      ValidCurrent(sys, s, r);
      var op := CurOp(sys, s, r);
      assert RankOK(sys, s, r);
      SpentWithin(sys, op, IndexOf(op.ranks, r), s.ranks[r]);
    }
  }

  /** Every step inside a call is one more unit spent on it. */
  lemma SpentMore(sys: System, s: State, step: Step)
    requires WellFormed(sys) && Ordered(sys, s) && Enabled(sys, s, step) && !step.Finish?
    ensures Spent(CurOp(sys, s, step.r), RankAfter(sys, s, step)) >= Spent(CurOp(sys, s, step.r), s.ranks[step.r]) + 1
  {
    if step.Pass? {
      hide Registered, PairAgree, CopiesOK, StepsOK, Ordered, Token;
      BarriersTidy(sys, s, step.r);
      SpentOnBarriers(CurOp(sys, s, step.r), s.ranks[step.r]);
    } else {
      SpentMoreInside(sys, s, step);
    }
  }

  lemma SpentMoreInside(sys: System, s: State, step: Step)
    requires WellFormed(sys) && Enabled(sys, s, step) && !step.Finish? && !step.Pass?
    ensures Spent(CurOp(sys, s, step.r), RankAfter(sys, s, step)) >= Spent(CurOp(sys, s, step.r), s.ranks[step.r]) + 1
  {
    hide Registered, PairAgree, Valid, Hi, Lo, Ready, CopiesDone, AllPosted, ChunkStaged, ChunkPulled, Token,
        LocalTarget, Bars;
  }

  lemma BarriersTidy(sys: System, s: State, r: Rank)
    requires WellFormed(sys) && Ordered(sys, s) && Active(sys, s, r)
    ensures BarriersOK(CurOp(sys, s, r), s.ranks[r])
  {
    RankIsLocal(sys, s, r);
  }

  /** Every step leaves its rank less to do. */
  lemma LeftDecreases(sys: System, s: State, step: Step)
    requires WellFormed(sys) && Ordered(sys, s) && Enabled(sys, s, step)
    ensures RankAfter(sys, s, step).at <= |sys.prog[step.r]|
    ensures Left(sys, RankAfter(sys, s, step), step.r) < Left(sys, s.ranks[step.r], step.r)
  {
    hide Registered, PairAgree, RankOK, LocalOK, Work, Valid, Ready, CopiesDone, AllPosted, Token;
    if step.Finish? {
      ValidCurrent(sys, s, step.r);
      var op := CurOp(sys, s, step.r);
      RankIsLocal(sys, s, step.r);
      SpentWithin(sys, op, IndexOf(op.ranks, step.r), s.ranks[step.r]);
    } else {
      hide Spent;
      SpentMore(sys, s, step);
    }
  }

  lemma RankIsLocal(sys: System, s: State, r: Rank)
    requires WellFormed(sys) && Ordered(sys, s) && Active(sys, s, r)
    ensures r in CurOp(sys, s, r).ranks && LocalOK(CurOp(sys, s, r), IndexOf(CurOp(sys, s, r).ranks, r), s.ranks[r])
  {
    assert RankOK(sys, s, r);
  }

  lemma {:induction false} LeftAllDecreases(sys: System, s: State, t: State, r: Rank, n: nat)
    requires Shape(sys) && Placed(sys, s) && Placed(sys, t) && n <= sys.world
    requires forall q :: 0 <= q < sys.world && q != r ==> t.ranks[q] == s.ranks[q]
    requires r < sys.world && Left(sys, t.ranks[r], r) < Left(sys, s.ranks[r], r)
    ensures LeftAll(sys, t, n) <= LeftAll(sys, s, n) - (if r < n then 1 else 0)
  {
    hide Left;
    if n > 0 { LeftAllDecreases(sys, s, t, r, n - 1); }
  }

  lemma {:induction false} LeftAllNonNegative(sys: System, s: State, n: nat)
    requires WellFormed(sys) && Ordered(sys, s) && n <= sys.world
    ensures LeftAll(sys, s, n) >= 0
  {
    hide Left, Registered, PairAgree, RankOK;
    if n > 0 {
      LeftAllNonNegative(sys, s, n - 1);
      LeftNonNegative(sys, s, n - 1);
    }
  }

  /** One step shortens what all ranks together have left. */
  lemma StepShortens(sys: System, s: State, step: Step)
    requires WellFormed(sys) && Ordered(sys, s) && Enabled(sys, s, step)
    ensures Ordered(sys, Do(sys, s, step))
    ensures LeftAll(sys, Do(sys, s, step), sys.world) < LeftAll(sys, s, sys.world)
  {
    hide Registered, PairAgree, RankOK, Left, LeftAll, Enabled;
    OrderedKept(sys, s, step);
    LeftDecreases(sys, s, step);
    OnlyActor(sys, s, step);
    LeftAllDecreases(sys, s, Do(sys, s, step), step.r, sys.world);
  }

  lemma OnlyActor(sys: System, s: State, step: Step)
    requires WellFormed(sys) && Enabled(sys, s, step)
    ensures step.r < sys.world && |Do(sys, s, step).ranks| == |s.ranks| == sys.world
    ensures Do(sys, s, step).ranks[step.r] == RankAfter(sys, s, step)
    ensures forall q :: 0 <= q < sys.world && q != step.r ==> Do(sys, s, step).ranks[q] == s.ranks[q]
  {
    hide Registered, PairAgree, RankAfter;
  }

  lemma {:induction false} RunShortens(sys: System, states: seq<State>, steps: seq<Step>, i: nat)
    requires WellFormed(sys) && IsRun(sys, states, steps) && i < |states|
    ensures Ordered(sys, states[0]) && Ordered(sys, states[i])
    ensures LeftAll(sys, states[i], sys.world) + i <= LeftAll(sys, states[0], sys.world)
  {
    hide Registered, PairAgree, RankOK, LeftAll, Enabled, Do;
    if i == 0 {
      InitialOrdered(sys, states[0]);
    } else {
      RunShortens(sys, states, steps, i - 1);
      StepShortens(sys, states[i - 1], steps[i - 1]);
    }
  }

  /** Steps that all ranks together can take, from the programs alone. */
  ghost function TotalWork(sys: System, n: nat): nat
    requires Shape(sys) && n <= sys.world
  {
    if n == 0 then 0 else TotalWork(sys, n - 1) + WorkFrom(sys, n - 1, 0)
  }

  lemma StartSpendsNothing(sys: System, r: Rank)
    requires Shape(sys) && r < sys.world
    ensures Left(sys, StartOf(0), r) <= WorkFrom(sys, r, 0)
  {
    hide WorkFrom;
  }

  lemma {:induction false} InitialLeft(sys: System, s: State, n: nat)
    requires Shape(sys) && InitialState(sys, s) && n <= sys.world
    ensures LeftAll(sys, s, n) <= TotalWork(sys, n)
  {
    hide WorkFrom, Left;
    if n > 0 {
      InitialLeft(sys, s, n - 1);
      StartSpendsNothing(sys, n - 1);
    }
  }

  /** Termination: no run takes more steps than the programs hold work, whatever the
      order of submission and the interleaving. */
  lemma EveryRunEnds(sys: System, states: seq<State>, steps: seq<Step>)
    requires WellFormed(sys) && IsRun(sys, states, steps)
    ensures |steps| <= TotalWork(sys, sys.world)
  {
    hide Registered, PairAgree, RankOK, LeftAll, TotalWork;
    RunShortens(sys, states, steps, |steps|);
    LeftAllNonNegative(sys, states[|steps|], sys.world);
    InitialLeft(sys, states[0], sys.world);
  }
}
