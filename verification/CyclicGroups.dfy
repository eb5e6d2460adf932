/** A system that every pair agrees on and that can never finish.

    Ranks 0, 1 and 2 and the barriers of {0, 1}, {1, 2} and {2, 0}, each rank entering
    its two in cyclic order.  Every pair shares one call, so every pair agrees. */
module CyclicGroups {
  import opened Words
  import opened Schedule
  import opened Progress
  import opened GlobalOrder

  function Duo(gid: nat, r: Rank, p: Rank): Op {
    Op(gid, [r, p], Bare, OneShot, 0, [])
  }

  function Cycle(): System {
    System(3, 0, 0, (g: nat, e: nat) => if g < 3 then g + 1 else 1,
           [Duo(0, 0, 1), Duo(1, 1, 2), Duo(2, 2, 0)],
           [[0, 2], [1, 0], [2, 1]])
  }

  lemma CycleShape()
    ensures Shape(Cycle())
  {
    var sys := Cycle();
    assert Ids(sys, sys.prog[0]) && Ids(sys, sys.prog[1]) && Ids(sys, sys.prog[2]);
    forall r | 0 <= r < 3 ensures Ids(sys, sys.prog[r]) {
      if r == 0 {} else if r == 1 {} else { assert r == 2; }
    }
  }

  lemma CycleOp(c: OpId)
    requires c < 3
    ensures c < |Cycle().ops| && Cycle().ops[c] == Duo(c, c, if c == 2 then 0 else c + 1)
    ensures ValidOp(Cycle(), Cycle().ops[c])
  {
    if c == 0 {} else if c == 1 {} else { assert c == 2; }
  }

  lemma CycleProg(r: Rank)
    requires r < 3
    ensures r < |Cycle().prog| && Cycle().prog[r] == [r, if r == 0 then 2 else r - 1]
    ensures Distinct(Cycle().prog[r])
  {
    if r == 0 {} else if r == 1 {} else { assert r == 2; }
  }

  lemma CycleRegistered()
    ensures Shape(Cycle()) && Registered(Cycle())
  {
    hide Cycle, ValidOp, Distinct, Shape;
    CycleShape();
    CycleSizes();
    var sys := Cycle();
    forall r, c | 0 <= r < 3 && 0 <= c < 3
      ensures c in sys.prog[r] <==> r in sys.ops[c].ranks
    {
      CycleOp(c);
      CycleProg(r);
    }
    forall r | 0 <= r < 3 ensures Distinct(sys.prog[r]) { CycleProg(r); }
    forall c | 0 <= c < 3 ensures ValidOp(sys, sys.ops[c]) && sys.ops[c].gid == c { CycleOp(c); }
  }

  lemma CycleSizes()
    ensures Cycle().world == 3 && |Cycle().ops| == 3 && |Cycle().prog| == 3
  {
  }

  /** What ranks `r` and `p` share: everything with oneself, one call with another. */
  lemma CycleCommon(r: Rank, p: Rank)
    requires r < 3 && p < 3
    ensures Shape(Cycle()) && Cycle().world == 3 && |Cycle().prog[r]| == 2
    ensures Common(Cycle(), r, p, 2) ==
      if p == r then [r, if r == 0 then 2 else r - 1]
      else if p == (if r == 2 then 0 else r + 1) then [r]
      else [if r == 0 then 2 else r - 1]
  {
    hide Cycle, ValidOp, Shape, Common;
    CycleShape();
    CycleSizes();
    CycleProg(r);
    CycleOp(r);
    CycleOp(if r == 0 then 2 else r - 1);
    CommonTwo(Cycle(), r, p);
  }

  lemma CommonTwo(sys: System, r: Rank, p: Rank)
    requires Shape(sys) && r < sys.world && |sys.prog[r]| == 2
    ensures var c, d := sys.prog[r][0], sys.prog[r][1];
      Common(sys, r, p, 2) == (if p in sys.ops[c].ranks then [c] else []) + if p in sys.ops[d].ranks then [d] else []
  {
    assert Common(sys, r, p, 0) == [];
  }

  lemma CycleWellFormed()
    ensures WellFormed(Cycle())
  {
    hide Cycle, Common, Shape, Registered;
    CycleShape();
    CycleSizes();
    CycleRegistered();
    forall r, p | 0 <= r < 3 && 0 <= p < 3
      ensures Common(Cycle(), r, p, |Cycle().prog[r]|) == Common(Cycle(), p, r, |Cycle().prog[p]|)
    {
      CycleCommon(r, p);
      CycleCommon(p, r);
    }
  }

  /** At most two tokens travel on any edge, and none is zero. */
  lemma CycleEdge(r: Rank, p: Rank)
    requires r < 3 && p < 3
    ensures WellFormed(Cycle()) && SlotFresh(Edge(Cycle(), r, p))
  {
    hide WellFormed, Shape, Registered, PairAgree, OpEpoch, Common;
    CycleWellFormed();
    CycleCommon(r, p);
    forall c | 0 <= c < 3 ensures |Table(Cycle())[c]| == 1 && Table(Cycle())[c][0] != 0 { CycleOp(c); }
    FlatNonzero(Table(Cycle()), Common(Cycle(), r, p, 2));
  }

  lemma {:induction false} FlatNonzero(t: seq<seq<U64>>, f: seq<OpId>)
    requires forall i :: 0 <= i < |f| ==> f[i] < |t|
    requires forall c :: 0 <= c < |t| ==> |t[c]| == 1 && t[c][0] != 0
    ensures |Flat(t, f)| == |f|
    ensures forall i :: 0 <= i < |f| ==> Flat(t, f)[i] != 0
  {
    if f != [] { FlatNonzero(t, f[..|f| - 1]); }
  }

  lemma CycleFresh()
    ensures WellFormed(Cycle()) && Fresh(Cycle()) && StepFresh(Cycle())
  {
    hide Cycle, WellFormed, Shape, Registered, PairAgree, OpEpoch, Common, Edge, SlotFresh;
    CycleWellFormed();
    CycleSizes();
    forall r, p | 0 <= r < 3 && 0 <= p < 3 ensures SlotFresh(Edge(Cycle(), r, p)) { CycleEdge(r, p); }
    forall c | 0 <= c < 3 ensures !IsFused(Cycle().ops[c]) { CycleOp(c); }
  }

  /** No schedule can put 0 before 2, 1 before 0 and 2 before 1. */
  lemma NoCyclicSchedule()
    requires WellFormed(Cycle())
    ensures !HasSchedule(Cycle())
  {
    var sys := Cycle();
    if order :| Follows(sys, order) {
      hide WellFormed;
      CycleProg(0);
      CycleProg(1);
      CycleProg(2);
      ProjectMonotone(sys, order, 0, 0, 1);
      ProjectMonotone(sys, order, 1, 0, 1);
      ProjectMonotone(sys, order, 2, 0, 1);
    }
  }

  /** The requirement that every pair agrees on its order does not, on its own, let a
      system finish: the cycle meets it, its tokens are fresh, and no run completes. */
  lemma PairwiseOrderIsNotEnough()
    ensures WellFormed(Cycle()) && Fresh(Cycle()) && StepFresh(Cycle())
    ensures !CanFinish(Cycle()) && !NeverBlocks(Cycle())
  {
    hide Cycle, WellFormed, Fresh, StepFresh, CanFinish, NeverBlocks, HasSchedule;
    CycleFresh();
    CompletesExactly(Cycle());
    NoCyclicSchedule();
  }
}
