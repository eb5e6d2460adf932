/** The hypotheses of the run theorems can be met together: the smallest fused all_gather,
    two ranks with one byte each, runs to the end and delivers both bytes. */
module FusedPair {
  import opened Schedule
  import opened Protocol
  import opened Progress
  import opened GlobalOrder
  import opened CopyPlan
  import opened EndToEnd

  function Call(x: bv8, y: bv8): Op {
    Op(0, [0, 1], AllGather, Fused(1, 1), 1, [[x], [y]])
  }

  function Pair(x: bv8, y: bv8): System {
    System(2, 1, 1, (g: nat, e: nat) => if e < 3 then e + 1 else 1, [Call(x, y)], [[0], [0]])
  }

  lemma PairShape(x: bv8, y: bv8)
    ensures var sys := Pair(x, y);
      && Shape(sys) && sys.world == 2 && |sys.ops| == 1 && sys.ops[0] == Call(x, y)
      && sys.prog == [[0], [0]] && sys.maxChunks == 1
    ensures ValidOp(Pair(x, y), Call(x, y)) && Registered(Pair(x, y))
  {
    var op := Call(x, y);
    assert |op.inputs[0]| == 1 && |op.inputs[1]| == 1;
    forall ch: nat, k: nat | ValidChunk(op, ch, k) ensures ch < 1 && k < 1 {
      assert ch * 1 == ch && k * 1 == k;
    }
  }

  lemma CommonOne(sys: System, r: Rank, p: Rank)
    requires Shape(sys) && r < sys.world && |sys.prog[r]| == 1 && p in sys.ops[sys.prog[r][0]].ranks
    ensures Common(sys, r, p, 1) == [sys.prog[r][0]]
  {
    assert Common(sys, r, p, 0) == [];
  }

  lemma PairWellFormed(x: bv8, y: bv8)
    ensures WellFormed(Pair(x, y))
  {
    hide Pair, Common, ValidOp, Registered;
    PairShape(x, y);
    var sys := Pair(x, y);
    forall r, p | 0 <= r < 2 && 0 <= p < 2
      ensures Common(sys, r, p, |sys.prog[r]|) == Common(sys, p, r, |sys.prog[p]|)
    {
      CommonOne(sys, r, p);
      CommonOne(sys, p, r);
    }
  }

  lemma StartsAtZero(x: bv8, y: bv8)
    ensures WellFormed(Pair(x, y)) && OpEpoch(Pair(x, y), 0) == 0
    ensures OpTok(Pair(x, y), 0, 0) == 1 && OpTok(Pair(x, y), 0, 1) == 3 && OpBase(Pair(x, y), 0) == 2
  {
    hide WellFormed;
    PairWellFormed(x, y);
    PairShape(x, y);
  }

  /** The tokens are those of epochs 0 and 2, the step base that of epoch 1. */
  lemma PairFresh(x: bv8, y: bv8)
    ensures WellFormed(Pair(x, y)) && Fresh(Pair(x, y)) && StepFresh(Pair(x, y))
  {
    StartsAtZero(x, y);
    PairShape(x, y);
    hide Pair, WellFormed, Shape, Registered, OpBase, Edge, SlotFresh;
    var sys := Pair(x, y);
    forall r, p | 0 <= r < 2 && 0 <= p < 2 && r != p ensures SlotFresh(Edge(sys, r, p)) { PairEdge(x, y, r, p); }
  }

  lemma PairEdge(x: bv8, y: bv8, r: Rank, p: Rank)
    requires r < 2 && p < 2
    ensures WellFormed(Pair(x, y)) && SlotFresh(Edge(Pair(x, y), r, p))
  {
    StartsAtZero(x, y);
    PairShape(x, y);
    hide Pair, Registered, PairAgree, OpEpoch, OpTok, OpBase, Common;
    var sys := Pair(x, y);
    CommonOne(sys, r, p);
    FlatSnoc(Table(sys), [], 0);
    assert [] + [0] == [0];
    assert Flat(Table(sys), []) == [];
  }

  /** Some run of it finishes, and then each rank has the two bytes in rank order. */
  lemma PairDelivers(x: bv8, y: bv8, r: Rank) returns (states: seq<State>, steps: seq<Step>)
    requires r < 2
    ensures WellFormed(Pair(x, y)) && IsRun(Pair(x, y), states, steps) && Finished(Pair(x, y), states[|steps|])
    ensures |Pair(x, y).prog[r]| == 1 && r in Pair(x, y).ops[Pair(x, y).prog[r][0]].ranks
    ensures OutputOf(Pair(x, y), states[|steps|], r, 0) == [x, y]
  {
    PairFresh(x, y);
    PairShape(x, y);
    hide Pair, WellFormed, Fresh, StepFresh, Registered, OutputOf, Expected, ValidOp, IsRun, Finished;
    states, steps := PairFinishes(x, y);
    var sys := Pair(x, y);
    RunEnd(sys, states, steps, r);
    FinishedOutput(sys, states, steps, |steps|, r, 0);
    PairExpected(x, y, r);
  }

  lemma PairFinishes(x: bv8, y: bv8) returns (states: seq<State>, steps: seq<Step>)
    ensures Shape(Pair(x, y)) && IsRun(Pair(x, y), states, steps) && Finished(Pair(x, y), states[|steps|])
  {
    PairFresh(x, y);
    PairSchedule(x, y);
    hide Pair, WellFormed, Fresh, StepFresh, Registered, HasSchedule, IsRun, Finished;
    CompletesExactly(Pair(x, y));
    states, steps := SomeRun(Pair(x, y));
  }

  lemma SomeRun(sys: System) returns (states: seq<State>, steps: seq<Step>)
    requires Shape(sys) && CanFinish(sys)
    ensures IsRun(sys, states, steps) && Finished(sys, states[|steps|])
  {
    hide Finished, InitialState, Enabled, Do;
    states, steps :| IsRun(sys, states, steps) && Finished(sys, states[|steps|]);
  }

  lemma RunEnd(sys: System, states: seq<State>, steps: seq<Step>, r: Rank)
    requires Shape(sys) && IsRun(sys, states, steps) && r < sys.world && Finished(sys, states[|steps|])
    ensures |states| == |steps| + 1 && |states[|steps|].ranks| == sys.world
    ensures states[|steps|].ranks[r].at == |sys.prog[r]|
  {
  }

  lemma PairSchedule(x: bv8, y: bv8)
    ensures Shape(Pair(x, y)) && HasSchedule(Pair(x, y))
  {
    PairShape(x, y);
    var sys := Pair(x, y);
    hide Pair, Registered, ValidOp;
    forall r | 0 <= r < 2 ensures Project(sys, [0], r) == sys.prog[r] {
      assert [] + [0] == [0] && Project(sys, [], r) == [];
      ProjectSnoc(sys, [], 0, r);
    }
    hide Project;
    assert Follows(sys, [0]);
  }

  lemma PairExpected(x: bv8, y: bv8, me: nat)
    requires me < 2
    ensures Expected(Call(x, y), me) == [x, y]
  {
    PairShape(x, y);
    var op := Call(x, y);
    GatherMeans(Pair(x, y), op, me, 0);
    GatherMeans(Pair(x, y), op, me, 1);
    var out := Expected(op, me);
    assert out[0..1] == [x] && out[1..2] == [y];
    assert out == out[0..1] + out[1..2];
  }
}
