/** Freshness is exactly what the barrier needs.

    Without it some run reaches a state where a rank may leave a wait before its partner
    has published; with it none does. */
module EarlyWaits {
  import Words
  import opened Schedule
  import opened Protocol
  import opened LocalOrder
  import opened BarrierSafety
  import opened FusedSteps
  import opened DataSafety
  import opened Progress
  import opened GlobalOrder

  /** Rank `r` may end its wait for `p` although `p` has not published this barrier. */
  ghost predicate EarlyWait(sys: System, s: State, r: Rank, p: Rank)
    requires WellFormed(sys)
  {
    && Placed(sys, s) && r < sys.world && p < sys.world
    && Enabled(sys, s, Wait(r, p))
    && Sent(sys, s.ranks[p], p, r) < Sent(sys, s.ranks[r], r, p)
  }

  /** Some reachable state lets a rank end a wait early. */
  ghost predicate CanMislead(sys: System)
    requires WellFormed(sys)
  {
    exists states, steps, n: nat, r, p ::
      IsRun(sys, states, steps) && n < |states| && EarlyWait(sys, states[n], r, p)
  }

  lemma FreshNeverMisleads(sys: System)
    requires WellFormed(sys) && Fresh(sys)
    ensures !CanMislead(sys)
  {
    hide Registered, PairAgree, Fresh, IsRun, EarlyWait;
    if states, steps, n: nat, r, p :| IsRun(sys, states, steps) && n < |states| && EarlyWait(sys, states[n], r, p) {
      BarrierOKInRun(sys, states, steps, n);
      EarlyIsDishonest(sys, states[n], r, p);
      FreshIsHonest(sys, states[n], Wait(r, p));
    }
  }

  lemma EarlyIsDishonest(sys: System, s: State, r: Rank, p: Rank)
    requires WellFormed(sys) && EarlyWait(sys, s, r, p)
    ensures Placed(sys, s) && Enabled(sys, s, Wait(r, p)) && !Honest(sys, s, Wait(r, p))
  {
    hide Registered, PairAgree, Enabled, Sent;
  }

  /** When no run can be misled, every run is safe, fresh or not. */
  lemma {:induction false} SafeUnmisled(sys: System, states: seq<State>, steps: seq<Step>, i: nat)
    requires WellFormed(sys) && StepFresh(sys) && !CanMislead(sys) && IsRun(sys, states, steps) && i < |states|
    ensures Safe(sys, states[i])
  {
    hide Registered, PairAgree, StepFresh, Safe, CanMislead, Enabled, Do;
    if i == 0 {
      InitialSafe(sys, states[0]);
    } else {
      SafeUnmisled(sys, states, steps, i - 1);
      UnmisledIsHonest(sys, states, steps, i - 1);
      SafeKept(sys, states[i - 1], steps[i - 1]);
    }
  }

  lemma UnmisledIsHonest(sys: System, states: seq<State>, steps: seq<Step>, i: nat)
    requires WellFormed(sys) && !CanMislead(sys) && IsRun(sys, states, steps) && i < |steps|
    requires Safe(sys, states[i])
    ensures Placed(sys, states[i]) && Honest(sys, states[i], steps[i])
  {
    hide Registered, PairAgree, Enabled, Do, PadOK, DataOK, EdgeOK, RankOK, CanMislead, Honest, EarlyWait;
    if !Honest(sys, states[i], steps[i]) {
      DishonestIsEarly(sys, states[i], steps[i]);
      Misleads(sys, states, steps, i, steps[i].r, steps[i].p);
    }
  }

  lemma DishonestIsEarly(sys: System, s: State, step: Step)
    requires WellFormed(sys) && Placed(sys, s) && Enabled(sys, s, step) && !Honest(sys, s, step)
    ensures step.Wait? && EarlyWait(sys, s, step.r, step.p)
  {
    hide Registered, PairAgree, Enabled, Sent;
  }

  /** One of the two ends has published more than `i` tokens on their common edge. */
  ghost predicate Beyond(sys: System, s: State, r: Rank, p: Rank, i: nat)
    requires WellFormed(sys) && Placed(sys, s) && r < sys.world && p < sys.world
  {
    Sent(sys, s.ranks[r], r, p) > i || Sent(sys, s.ranks[p], p, r) > i
  }

  /** A finished rank has published its whole edge, a starting one nothing. */
  lemma SentAtEnds(sys: System, s: State, r: Rank, p: Rank)
    requires WellFormed(sys) && Placed(sys, s) && r < sys.world && p < sys.world
    ensures s.ranks[r] == StartOf(0) ==> Sent(sys, s.ranks[r], r, p) == 0
    ensures s.ranks[r].at == |sys.prog[r]| ==> Sent(sys, s.ranks[r], r, p) == |Edge(sys, r, p)|
  {
    hide Registered, PairAgree;
    assert Flat(Table(sys), []) == [];
  }

  /** The step by which the first of the two ends goes beyond `i`. */
  lemma {:induction false} Crossing(sys: System, states: seq<State>, steps: seq<Step>, n: nat, r: Rank, p: Rank, i: nat)
      returns (k: nat)
    requires WellFormed(sys) && IsRun(sys, states, steps) && n < |states| && r < sys.world && p < sys.world
    requires forall m :: 0 <= m < |states| ==> Placed(sys, states[m])
    requires Beyond(sys, states[n], r, p, i)
    ensures k < n && !Beyond(sys, states[k], r, p, i) && Beyond(sys, states[k + 1], r, p, i)
  {
    hide Registered, PairAgree, Enabled, Do, Sent;
    if n == 0 {
      SentAtEnds(sys, states[0], r, p);
      SentAtEnds(sys, states[0], p, r);
      assert false;
    } else if Beyond(sys, states[n - 1], r, p, i) {
      k := Crossing(sys, states, steps, n - 1, r, p, i);
    } else {
      k := n - 1;
    }
  }

  /** Only publishing on the edge crosses, and then the publisher stands at `i + 1`. */
  lemma CrossingPublishes(sys: System, s: State, step: Step, r: Rank, p: Rank, i: nat)
    requires WellFormed(sys) && BarrierOK(sys, s) && Enabled(sys, s, step) && r < sys.world && p < sys.world
    requires Placed(sys, Do(sys, s, step))
    requires !Beyond(sys, s, r, p, i) && Beyond(sys, Do(sys, s, step), r, p, i)
    ensures var t := Do(sys, s, step);
      || (step == Publish(r, p) && Sent(sys, t.ranks[r], r, p) == i + 1 && (r != p ==>
          Sent(sys, t.ranks[p], p, r) <= i))
      || (step == Publish(p, r) && Sent(sys, t.ranks[p], p, r) == i + 1 && (r != p ==>
          Sent(sys, t.ranks[r], r, p) <= i))
  {
    hide Registered, PairAgree, Sent, EdgeOK, RankOK, RankAfter, EdgeBase;
    CountsElsewhere(sys, s, step, r, p);
    CountsElsewhere(sys, s, step, p, r);
    if step == Publish(r, p) {
      SentAfterPublish(sys, s, r, p);
      ActorAfter(sys, s, step);
    } else if step == Publish(p, r) {
      SentAfterPublish(sys, s, p, r);
      ActorAfter(sys, s, step);
    }
  }

  lemma ActorAfter(sys: System, s: State, step: Step)
    requires WellFormed(sys) && Enabled(sys, s, step)
    ensures step.r < |Do(sys, s, step).ranks| && Do(sys, s, step).ranks[step.r] == RankAfter(sys, s, step)
  {
    hide Registered, PairAgree, CopiesDone, AllPosted;
  }

  /** The rank that publishes first on a stale place finds the stale token in its cell. */
  lemma StaleWait(sys: System, s: State, r: Rank, p: Rank, i: nat)
    requires WellFormed(sys) && BarrierOK(sys, s) && Enabled(sys, s, Publish(r, p)) && p < sys.world && r != p
    requires BarrierOK(sys, Do(sys, s, Publish(r, p)))
    requires i < |Edge(sys, r, p)| && Edge(sys, r, p)[i] == Before(Edge(sys, r, p), i)
    requires var t := Do(sys, s, Publish(r, p));
      Sent(sys, t.ranks[r], r, p) == i + 1 && Sent(sys, t.ranks[p], p, r) <= i
    ensures EarlyWait(sys, Do(sys, s, Publish(r, p)), r, p)
  {
    hide Registered, PairAgree, EdgeBase, Edge, Sent, Got, EdgeOK, LastTok, Before, Token;
    var t := Do(sys, s, Publish(r, p));
    JustPublished(sys, s, r, p);
    CountsWithinOne(sys, t, r, p);
    WaitedCell(sys, t, r, p);
    StaleCell(Edge(sys, r, p), i);
  }

  lemma JustPublished(sys: System, s: State, r: Rank, p: Rank)
    requires WellFormed(sys) && Ordered(sys, s) && Enabled(sys, s, Publish(r, p))
    ensures var t := Do(sys, s, Publish(r, p));
      Active(sys, t, r) && p in t.ranks[r].published && p !in t.ranks[r].waited
  {
    hide Registered, PairAgree, CopiesDone, AllPosted, CopiesOK, StepsOK, Token;
    assert RankOK(sys, s, r);
  }

  lemma StaleCell(e: seq<Words.U64>, i: nat)
    requires i < |e|
    ensures LastTok(e, i, (i + 1 + 1) % 2) == Before(e, i)
  {
  }

  /** A stale place on an edge that a run passes is met by some state of that run. */
  lemma StaleMisleads(sys: System, states: seq<State>, steps: seq<Step>, r: Rank, p: Rank, i: nat)
    requires WellFormed(sys) && IsRun(sys, states, steps) && Finished(sys, states[|steps|])
    requires forall m :: 0 <= m < |states| ==> BarrierOK(sys, states[m])
    requires r < sys.world && p < sys.world && r != p
    requires i < |Edge(sys, r, p)| && Edge(sys, r, p)[i] == Before(Edge(sys, r, p), i)
    ensures CanMislead(sys)
  {
    hide Registered, PairAgree, CanMislead, Sent, Edge, Before, Enabled, Do, EarlyWait, EdgeOK, RankOK;
    assert Placed(sys, states[|steps|]);
    SentAtEnds(sys, states[|steps|], r, p);
    var k := Crossing(sys, states, steps, |steps|, r, p, i);
    CrossingPublishes(sys, states[k], steps[k], r, p, i);
    EdgeSymmetric(sys, r, p);
    var a, b := steps[k].r, steps[k].p;
    StaleWait(sys, states[k], a, b, i);
    Misleads(sys, states, steps, k + 1, a, b);
  }

  lemma SafeBarrier(sys: System, s: State)
    requires WellFormed(sys) && Safe(sys, s)
    ensures BarrierOK(sys, s)
  {
    hide BarrierOK, PadOK, DataOK, Registered, PairAgree;
  }

  lemma Misleads(sys: System, states: seq<State>, steps: seq<Step>, n: nat, r: Rank, p: Rank)
    requires WellFormed(sys) && IsRun(sys, states, steps) && n < |states| && EarlyWait(sys, states[n], r, p)
    ensures CanMislead(sys)
  {
    hide IsRun, EarlyWait, Registered, PairAgree;
  }

  /** Exactly when a barrier can be left early: on a system that can complete, some run
      lets a wait end before its token is published if and only if an edge between two
      different ranks is not fresh. */
  lemma MisledExactly(sys: System)
    requires WellFormed(sys) && StepFresh(sys) && HasSchedule(sys)
    ensures CanMislead(sys) <==> !Fresh(sys)
  {
    hide Registered, PairAgree, StepFresh, CanMislead, Follows, SlotFresh, IsRun, Finished, CanStep, Safe, Edge;
    if Fresh(sys) {
      FreshNeverMisleads(sys);
    } else if !CanMislead(sys) {
      var states, steps := UnmisledFinishes(sys);
      forall m | 0 <= m < |states| ensures BarrierOK(sys, states[m]) {
        SafeUnmisled(sys, states, steps, m);
        SafeBarrier(sys, states[m]);
      }
      var r, p, i := StalePlace(sys);
      StaleMisleads(sys, states, steps, r, p, i);
    }
  }

  lemma StalePlace(sys: System) returns (r: Rank, p: Rank, i: nat)
    requires WellFormed(sys) && !Fresh(sys)
    ensures r < sys.world && p < sys.world && r != p
    ensures i < |Edge(sys, r, p)| && Edge(sys, r, p)[i] == Before(Edge(sys, r, p), i)
  {
    hide Registered, PairAgree, Edge, Before;
    r, p :| 0 <= r < sys.world && 0 <= p < sys.world && r != p && !SlotFresh(Edge(sys, r, p));
    i :| 0 <= i < |Edge(sys, r, p)| && Edge(sys, r, p)[i] == Before(Edge(sys, r, p), i);
  }

  /** With a schedule, a system that misleads nobody completes. */
  lemma UnmisledFinishes(sys: System) returns (states: seq<State>, steps: seq<Step>)
    requires WellFormed(sys) && StepFresh(sys) && HasSchedule(sys) && !CanMislead(sys)
    ensures IsRun(sys, states, steps) && Finished(sys, states[|steps|])
  {
    hide Registered, PairAgree, StepFresh, CanMislead, Follows, Enabled, Do, Finished, CanStep, Safe, InitialState;
    states, steps := FullRun(sys);
    SafeUnmisled(sys, states, steps, |steps|);
    var order :| Follows(sys, order);
    if !Finished(sys, states[|steps|]) {
      DeadlockFree(sys, states[|steps|], order);
    }
  }
}
