/** Exactly when a system completes.

    Pairwise order alone keeps every run safe but does not let it finish: three two-rank
    groups issued in a cycle agree pair by pair and still block.  A system finishes if
    and only if its programs are the projections of one global schedule. */
module GlobalOrder {
  import opened Schedule
  import opened Protocol
  import opened LocalOrder
  import opened BarrierSafety
  import opened DataSafety
  import opened Progress
  import opened Termination

  ghost predicate HasSchedule(sys: System)
    requires Shape(sys)
  {
    exists order :: Follows(sys, order)
  }

  /** Some run ends with every rank done. */
  ghost predicate CanFinish(sys: System)
    requires Shape(sys)
  {
    exists states, steps :: IsRun(sys, states, steps) && Finished(sys, states[|steps|])
  }

  /** No run ever blocks before every rank is done. */
  ghost predicate NeverBlocks(sys: System)
    requires Shape(sys)
  {
    forall states, steps :: IsRun(sys, states, steps) && !CanStep(sys, states[|steps|]) ==>
      Finished(sys, states[|steps|])
  }

  // --------------------------------- a global schedule makes pairs agree

  lemma {:induction false} CommonIsProjection(sys: System, r: Rank, p: Rank, i: nat)
    requires Shape(sys) && r < sys.world && i <= |sys.prog[r]|
    ensures Ids(sys, sys.prog[r][..i])
    ensures Common(sys, r, p, i) == Project(sys, sys.prog[r][..i], p)
  {
    if i > 0 {
      CommonIsProjection(sys, r, p, i - 1);
      assert sys.prog[r][..i][..i - 1] == sys.prog[r][..i - 1];
    }
  }

  lemma {:induction false} ProjectIds(sys: System, f: seq<OpId>, p: Rank)
    requires Ids(sys, f)
    ensures Ids(sys, Project(sys, f, p))
  {
    if f != [] { ProjectIds(sys, f[..|f| - 1], p); }
  }

  lemma {:induction false} ProjectionsCommute(sys: System, f: seq<OpId>, r: Rank, p: Rank)
    requires Ids(sys, f)
    ensures Ids(sys, Project(sys, f, r)) && Ids(sys, Project(sys, f, p))
    ensures Project(sys, Project(sys, f, r), p) == Project(sys, Project(sys, f, p), r)
  {
    ProjectIds(sys, f, r);
    ProjectIds(sys, f, p);
    if f != [] {
      var n, c := |f| - 1, f[|f| - 1];
      ProjectionsCommute(sys, f[..n], r, p);
      var a, b := Project(sys, f[..n], r), Project(sys, f[..n], p);
      assert (a + [c])[..|a|] == a && (b + [c])[..|b|] == b;
    }
  }

  /** A driver that broadcasts one schedule satisfies the pairwise requirement. */
  lemma ScheduleAgrees(sys: System, order: seq<OpId>)
    requires Shape(sys) && Follows(sys, order)
    ensures PairAgree(sys)
  {
    forall r, p | 0 <= r < sys.world && 0 <= p < sys.world
      ensures Common(sys, r, p, |sys.prog[r]|) == Common(sys, p, r, |sys.prog[p]|)
    {
      CommonIsProjection(sys, r, p, |sys.prog[r]|);
      CommonIsProjection(sys, p, r, |sys.prog[p]|);
      assert sys.prog[r][..|sys.prog[r]|] == sys.prog[r] && sys.prog[p][..|sys.prog[p]|] == sys.prog[p];
      ProjectionsCommute(sys, order, r, p);
    }
  }

  // ----------------------------------------- a finished run gives a schedule

  /** Some member has passed the call's last barrier. */
  ghost predicate Settled(sys: System, s: State, c: OpId)
    requires WellFormed(sys) && |s.ranks| == sys.world && c < |sys.ops|
  {
    exists r :: r in sys.ops[c].ranks && Passed(sys, s, r, c, Bars(sys.ops[c]) - 1)
  }

  /** The calls of rank `r`'s program that are settled: those before its current call,
      and the current one if somebody has already passed its last barrier. */
  ghost function Reached(sys: System, s: State, r: Rank, log: seq<OpId>): nat
    requires Shape(sys) && Placed(sys, s) && r < sys.world
    ensures Reached(sys, s, r, log) <= |sys.prog[r]|
  {
    var at := s.ranks[r].at;
    if at < |sys.prog[r]| && sys.prog[r][at] in log then at + 1 else at
  }

  /** `log` lists the settled calls in an order that every program follows. */
  ghost predicate LogOK(sys: System, s: State, log: seq<OpId>)
    requires WellFormed(sys) && Placed(sys, s)
  {
    && Ids(sys, log) && Distinct(log)
    && (forall c :: 0 <= c < |sys.ops| ==> (c in log <==> Settled(sys, s, c)))
    && (forall r :: 0 <= r < sys.world ==> Project(sys, log, r) == sys.prog[r][..Reached(sys, s, r, log)])
  }

  /** The step by which the first member passes its call's last barrier. */
  ghost predicate Settles(sys: System, s: State, step: Step, log: seq<OpId>)
    requires Shape(sys) && Enabled(sys, s, step)
  {
    && step.Pass? && s.ranks[step.r].bar + 1 == Bars(CurOp(sys, s, step.r))
    && sys.prog[step.r][s.ranks[step.r].at] !in log
  }

  lemma SettledNext(sys: System, s: State, step: Step, c: OpId)
    requires WellFormed(sys) && Ordered(sys, s) && Enabled(sys, s, step) && c < |sys.ops|
    ensures Settled(sys, Do(sys, s, step), c) <==>
      (Settled(sys, s, c)
       || (step.Pass? && s.ranks[step.r].bar + 1 == Bars(sys.ops[c]) && c == sys.prog[step.r][s.ranks[step.r].at]))
  {
    hide Registered, PairAgree, CopiesOK, StepsOK, Valid, Ready, CopiesDone, AllPosted, Token, LocalTarget;
    var t := Do(sys, s, step);
    var b := Bars(sys.ops[c]) - 1;
    ValidCurrent(sys, s, step.r);
    forall r | r in sys.ops[c].ranks
      ensures Passed(sys, t, r, c, b) <==>
        (Passed(sys, s, r, c, b) || (step == Pass(r) && s.ranks[r].bar == b && s.ranks[r].at == Idx(sys, r, c)))
    {
      MemberIn(sys, r, c);
      assert RankOK(sys, s, r);
    }
    if step.Pass? && s.ranks[step.r].bar == b && c == sys.prog[step.r][s.ranks[step.r].at] {
      assert Passed(sys, t, step.r, c, b);
    }
    if r :| r in sys.ops[c].ranks && Passed(sys, s, r, c, b) { assert Passed(sys, t, r, c, b); }
  }

  /** A rank that has settled its current call, or has not reached a call, decides
      whether that call is settled. */
  lemma AheadUnsettled(sys: System, s: State, r: Rank, c: OpId)
    requires WellFormed(sys) && BarrierOK(sys, s) && c < |sys.ops| && r in sys.ops[c].ranks
    requires r < sys.world && s.ranks[r].at < Idx(sys, r, c)
    ensures !Settled(sys, s, c)
  {
    hide Registered, PairAgree, EdgeOK, RankOK;
    if q :| q in sys.ops[c].ranks && Passed(sys, s, q, c, Bars(sys.ops[c]) - 1) {
      LeaveAfterAllArrive(sys, s, q, r, c, Bars(sys.ops[c]) - 1);
    }
  }

  /** When a call settles, every member is in it. */
  lemma SettlesInside(sys: System, s: State, step: Step, log: seq<OpId>, q: Rank)
    requires WellFormed(sys) && Fresh(sys) && BarrierOK(sys, s) && LogOK(sys, s, log)
    requires Enabled(sys, s, step) && Settles(sys, s, step, log)
    requires q in CurOp(sys, s, step.r).ranks
    ensures q < sys.world && s.ranks[q].at == Idx(sys, q, sys.prog[step.r][s.ranks[step.r].at])
  {
    hide Registered, PairAgree, Fresh, EdgeOK, RankOK, Project, Token;
    var c := sys.prog[step.r][s.ranks[step.r].at];
    var t := Do(sys, s, step);
    ValidCurrent(sys, s, step.r);
    MemberIn(sys, q, c);
    FreshIsHonest(sys, s, step);
    BarrierKept(sys, s, step);
    assert Passed(sys, t, step.r, c, Bars(sys.ops[c]) - 1);
    LeaveAfterAllArrive(sys, t, step.r, q, c, Bars(sys.ops[c]) - 1);
  }

  lemma ProjectSnoc(sys: System, log: seq<OpId>, c: OpId, r: Rank)
    requires Ids(sys, log) && c < |sys.ops|
    ensures Ids(sys, log + [c])
    ensures Project(sys, log + [c], r) ==
      if r in sys.ops[c].ranks then Project(sys, log, r) + [c] else Project(sys, log, r)
  {
    assert (log + [c])[..|log|] == log;
  }

  lemma LogGrows(sys: System, s: State, step: Step, log: seq<OpId>)
    requires WellFormed(sys) && Fresh(sys) && BarrierOK(sys, s) && LogOK(sys, s, log)
    requires Enabled(sys, s, step) && Settles(sys, s, step, log) && Placed(sys, Do(sys, s, step))
    ensures LogOK(sys, Do(sys, s, step), log + [sys.prog[step.r][s.ranks[step.r].at]])
  {
    hide Registered, PairAgree, Fresh, BarrierOK, Project, Token, Settled;
    var t := Do(sys, s, step);
    var c := sys.prog[step.r][s.ranks[step.r].at];
    var log' := log + [c];
    ValidCurrent(sys, s, step.r);
    OrderedOf(sys, s);
    forall d | 0 <= d < |sys.ops| ensures d in log' <==> Settled(sys, t, d) {
      SettledNext(sys, s, step, d);
    }
    forall r | 0 <= r < sys.world ensures Project(sys, log', r) == sys.prog[r][..Reached(sys, t, r, log')] {
      ProjectSnoc(sys, log, c, r);
      if r in sys.ops[c].ranks { SettlesInside(sys, s, step, log, r); }
      if s.ranks[r].at < |sys.prog[r]| { IdxAt(sys, r, s.ranks[r].at); }
    }
  }

  lemma LogStays(sys: System, s: State, step: Step, log: seq<OpId>)
    requires WellFormed(sys) && Fresh(sys) && BarrierOK(sys, s) && LogOK(sys, s, log)
    requires Enabled(sys, s, step) && !Settles(sys, s, step, log) && BarrierOK(sys, Do(sys, s, step))
    ensures LogOK(sys, Do(sys, s, step), log)
  {
    hide Registered, PairAgree, Fresh, EdgeOK, RankOK, Project, Token, Settled;
    var t := Do(sys, s, step);
    ValidCurrent(sys, s, step.r);
    forall d | 0 <= d < |sys.ops| ensures d in log <==> Settled(sys, t, d) {
      SettledNext(sys, s, step, d);
    }
    forall r | 0 <= r < sys.world ensures Project(sys, log, r) == sys.prog[r][..Reached(sys, t, r, log)] {
      if step == Finish(r) { FinishReaches(sys, s, r, log); }
    }
  }

  /** Ending a call moves a rank from a settled call to one that is not settled yet. */
  lemma FinishReaches(sys: System, s: State, r: Rank, log: seq<OpId>)
    requires WellFormed(sys) && BarrierOK(sys, s) && LogOK(sys, s, log) && Enabled(sys, s, Finish(r))
    requires Placed(sys, Do(sys, s, Finish(r)))
    ensures Reached(sys, Do(sys, s, Finish(r)), r, log) == Reached(sys, s, r, log)
  {
    hide Registered, PairAgree, EdgeOK, RankOK, Project, Token, CopiesDone;
    var at := s.ranks[r].at;
    ValidCurrent(sys, s, r);
    assert Passed(sys, s, r, sys.prog[r][at], Bars(CurOp(sys, s, r)) - 1);
    assert Settled(sys, s, sys.prog[r][at]);
    if at + 1 < |sys.prog[r]| {
      IdxAt(sys, r, at + 1);
      AheadUnsettled(sys, s, r, sys.prog[r][at + 1]);
    }
  }

  /** Every run builds a schedule of the calls it has settled. */
  lemma {:induction false} LogOfRun(sys: System, states: seq<State>, steps: seq<Step>, i: nat) returns (log: seq<OpId>)
    requires WellFormed(sys) && Fresh(sys) && IsRun(sys, states, steps) && i < |states|
    ensures Placed(sys, states[i]) && LogOK(sys, states[i], log)
  {
    hide Registered, PairAgree, Fresh, EdgeOK, RankOK, LogOK, Enabled, Do;
    BarrierOKInRun(sys, states, steps, i);
    if i == 0 {
      log := [];
      EmptyLog(sys, states[0]);
    } else {
      log := LogOfRun(sys, states, steps, i - 1);
      BarrierOKInRun(sys, states, steps, i - 1);
      log := NextLog(sys, states[i - 1], steps[i - 1], log);
    }
  }

  lemma NextLog(sys: System, s: State, step: Step, log: seq<OpId>) returns (log': seq<OpId>)
    requires WellFormed(sys) && Fresh(sys) && BarrierOK(sys, s) && LogOK(sys, s, log)
    requires Enabled(sys, s, step) && BarrierOK(sys, Do(sys, s, step))
    ensures LogOK(sys, Do(sys, s, step), log')
  {
    hide Registered, PairAgree, Fresh, EdgeOK, RankOK, LogOK, Do;
    if Settles(sys, s, step, log) {
      LogGrows(sys, s, step, log);
      log' := log + [sys.prog[step.r][s.ranks[step.r].at]];
    } else {
      LogStays(sys, s, step, log);
      log' := log;
    }
  }

  lemma EmptyLog(sys: System, s: State)
    requires WellFormed(sys) && InitialState(sys, s)
    ensures Placed(sys, s) && LogOK(sys, s, [])
  {
    hide Registered, PairAgree;
    forall c | 0 <= c < |sys.ops| ensures !Settled(sys, s, c) {
      forall r | r in sys.ops[c].ranks ensures !Passed(sys, s, r, c, Bars(sys.ops[c]) - 1) { MemberIn(sys, r, c); }
    }
  }

  // ------------------------------------------------------------ main results

  /** A run that finishes has followed one global schedule. */
  lemma FinishedFollows(sys: System, states: seq<State>, steps: seq<Step>)
    requires WellFormed(sys) && Fresh(sys) && IsRun(sys, states, steps) && Finished(sys, states[|steps|])
    ensures HasSchedule(sys)
  {
    hide Registered, PairAgree, Fresh, Enabled, Do, Project;
    var s := states[|steps|];
    var order := LogOfRun(sys, states, steps, |steps|);
    forall c | 0 <= c < |sys.ops| ensures c in order { FinishedSettles(sys, s, c); }
    forall r | 0 <= r < sys.world ensures sys.prog[r] == Project(sys, order, r) {
      assert sys.prog[r][..|sys.prog[r]|] == sys.prog[r];
    }
    assert Follows(sys, order);
  }

  lemma FinishedSettles(sys: System, s: State, c: OpId)
    requires WellFormed(sys) && Finished(sys, s) && c < |sys.ops|
    ensures Settled(sys, s, c)
  {
    assert ValidOp(sys, sys.ops[c]);
    var r := sys.ops[c].ranks[0];
    MemberIn(sys, r, c);
    assert Passed(sys, s, r, c, Bars(sys.ops[c]) - 1);
  }

  /** Any run goes on to a state where nothing is enabled. */
  lemma {:induction false} RunOn(sys: System, states: seq<State>, steps: seq<Step>)
      returns (states': seq<State>, steps': seq<Step>)
    requires WellFormed(sys) && IsRun(sys, states, steps)
    ensures IsRun(sys, states', steps') && !CanStep(sys, states'[|steps'|])
    decreases TotalWork(sys, sys.world) - |steps|
  {
    hide Registered, PairAgree, Enabled, Do, TotalWork;
    EveryRunEnds(sys, states, steps);
    if CanStep(sys, states[|steps|]) {
      var step :| Enabled(sys, states[|steps|], step);
      EveryRunEnds(sys, states + [Do(sys, states[|steps|], step)], steps + [step]);
      states', steps' := RunOn(sys, states + [Do(sys, states[|steps|], step)], steps + [step]);
    } else {
      states', steps' := states, steps;
    }
  }

  /** A run that blocks has finished, if there is a global schedule. */
  lemma BlockedIsFinished(sys: System, states: seq<State>, steps: seq<Step>)
    requires WellFormed(sys) && Fresh(sys) && StepFresh(sys) && HasSchedule(sys)
    requires IsRun(sys, states, steps) && !CanStep(sys, states[|steps|])
    ensures Finished(sys, states[|steps|])
  {
    hide Registered, PairAgree, Fresh, StepFresh, Follows, CanStep, Enabled, Do, Finished, Safe;
    SafeInRun(sys, states, steps, |steps|);
    var order :| Follows(sys, order);
    if !Finished(sys, states[|steps|]) {
      DeadlockFree(sys, states[|steps|], order);
    }
  }

  /** Exactly when a system completes: some run finishes, no run ever blocks early, and
      the programs are the projections of one global schedule are the same condition. */
  lemma CompletesExactly(sys: System)
    requires WellFormed(sys) && Fresh(sys) && StepFresh(sys)
    ensures CanFinish(sys) <==> HasSchedule(sys)
    ensures NeverBlocks(sys) <==> HasSchedule(sys)
  {
    hide Registered, PairAgree, Fresh, StepFresh, Follows, CanStep, Enabled, Do, Finished, HasSchedule, InitialState;
    var states, steps := FullRun(sys);
    if HasSchedule(sys) {
      forall states, steps | IsRun(sys, states, steps) && !CanStep(sys, states[|steps|])
        ensures Finished(sys, states[|steps|])
      {
        BlockedIsFinished(sys, states, steps);
      }
      assert IsRun(sys, states, steps) && Finished(sys, states[|steps|]);
    }
    if NeverBlocks(sys) {
      FinishedFollows(sys, states, steps);
    }
    if CanFinish(sys) {
      var aRun, aSteps :| IsRun(sys, aRun, aSteps) && Finished(sys, aRun[|aSteps|]);
      FinishedFollows(sys, aRun, aSteps);
    }
  }

  lemma FullRun(sys: System) returns (states: seq<State>, steps: seq<Step>)
    requires WellFormed(sys)
    ensures IsRun(sys, states, steps) && !CanStep(sys, states[|steps|])
  {
    hide Registered, PairAgree, CanStep;
    var s := State(seq(sys.world, _ => StartOf(0)), map[], map[], map[], map[]);
    assert IsRun(sys, [s], []);
    states, steps := RunOn(sys, [s], []);
  }
}
