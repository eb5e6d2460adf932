/** What stream order alone guarantees about one rank inside one call. */
module LocalOrder {
  import opened Schedule
  import opened Protocol

  /** Copies start inside their window, and none is outstanding when its barrier is
      published. */
  ghost predicate CopiesOK(op: Op, me: nat, rs: RankState) {
    && (forall x :: x in rs.done ==> Valid(op, me, x) && Lo(op, x) <= rs.bar)
    && (forall x: Copy :: Valid(op, me, x) && Hi(op, x) < rs.bar ==> x in rs.done)
    && (rs.published != map[] ==> CopiesDone(op, me, rs, rs.bar))
  }

  ghost predicate BarriersOK(op: Op, rs: RankState) {
    && rs.bar <= Bars(op)
    && (rs.bar == Bars(op) ==> rs.published == map[])
    && (forall p :: p in rs.published ==> p in op.ranks)
    && (forall p :: p in rs.waited ==> p in rs.published)
  }

  ghost predicate StepsOK(op: Op, me: nat, rs: RankState)
    requires me < |op.ranks|
  {
    && (forall ch, k, p :: (ch, k, p) in rs.posted ==>
      ValidChunk(op, ch, k) && p in op.ranks && p != op.ranks[me] && rs.bar >= 1 && ChunkStaged(op, me, rs, ch, k))
    && (forall ch, k :: (ch, k) in rs.seen ==> ValidChunk(op, ch, k) && rs.bar >= 1)
    && (IsFused(op) && (rs.bar > 1 || (rs.bar == 1 && rs.published != map[])) ==> AllPosted(op, me, rs))
  }

  ghost predicate LocalOK(op: Op, me: nat, rs: RankState)
    requires me < |op.ranks|
  {
    BarriersOK(op, rs) && CopiesOK(op, me, rs) && StepsOK(op, me, rs)
  }

  ghost predicate RankOK(sys: System, s: State, r: Rank)
    requires Shape(sys) && |s.ranks| == sys.world && r < sys.world
  {
    var rs := s.ranks[r];
    if rs.at < |sys.prog[r]| then
      var op := CurOp(sys, s, r);
      r in op.ranks && LocalOK(op, IndexOf(op.ranks, r), rs)
    else rs == StartOf(|sys.prog[r]|)
  }

  lemma StartLocalOK(sys: System, op: Op, me: nat, at: nat)
    requires me < |op.ranks| && ValidOp(sys, op)
    ensures LocalOK(op, me, StartOf(at))
  {
  }

  lemma StartRankOK(sys: System, s: State, r: Rank)
    requires WellFormed(sys) && |s.ranks| == sys.world && r < sys.world
    requires s.ranks[r].at <= |sys.prog[r]| && s.ranks[r] == StartOf(s.ranks[r].at)
    ensures RankOK(sys, s, r)
  {
    if s.ranks[r].at < |sys.prog[r]| {
      IdxAt(sys, r, s.ranks[r].at);
      var op := CurOp(sys, s, r);
      StartLocalOK(sys, op, IndexOf(op.ranks, r), s.ranks[r].at);
    }
  }

  lemma LocalPublish(op: Op, me: nat, rs: RankState, p: Rank, slot: nat)
    requires me < |op.ranks| && LocalOK(op, me, rs)
    requires p in op.ranks && rs.bar < Bars(op) && CopiesDone(op, me, rs, rs.bar)
    requires IsFused(op) && rs.bar == 1 ==> AllPosted(op, me, rs)
    ensures LocalOK(op, me, rs.(published := rs.published[p := slot]))
  {
    var t := rs.(published := rs.published[p := slot]);
    assert BarriersOK(op, t);
    assert CopiesOK(op, me, t);
    PostsCarryOver(op, me, rs, t);
  }

  /** Progress that keeps the copies and the step records keeps what the records mean. */
  lemma PostsCarryOver(op: Op, me: nat, rs: RankState, t: RankState)
    requires me < |op.ranks| && StepsOK(op, me, rs)
    requires t.done >= rs.done && t.bar == rs.bar && t.posted == rs.posted && t.seen == rs.seen
    requires IsFused(op) && t.bar == 1 && t.published != rs.published ==> AllPosted(op, me, rs)
    ensures StepsOK(op, me, t)
  {
    forall ch, k, p | (ch, k, p) in t.posted
      ensures ChunkStaged(op, me, t, ch, k)
    {
      assert ChunkStaged(op, me, rs, ch, k);
    }
  }

  lemma LocalWait(op: Op, me: nat, rs: RankState, p: Rank)
    requires me < |op.ranks| && LocalOK(op, me, rs) && p in rs.published
    ensures LocalOK(op, me, rs.(waited := rs.waited + {p}))
  {
    var t := rs.(waited := rs.waited + {p});
    assert BarriersOK(op, t);
    assert CopiesOK(op, me, t);
    PostsCarryOver(op, me, rs, t);
  }

  lemma LocalMove(op: Op, me: nat, rs: RankState, x: Copy)
    requires me < |op.ranks| && LocalOK(op, me, rs) && Valid(op, me, x) && Lo(op, x) <= rs.bar
    ensures LocalOK(op, me, rs.(done := rs.done + {x}))
  {
    var t := rs.(done := rs.done + {x});
    assert BarriersOK(op, t);
    assert CopiesOK(op, me, t);
    PostsCarryOver(op, me, rs, t);
  }

  lemma LocalPost(op: Op, me: nat, rs: RankState, ch: nat, k: nat, p: Rank)
    requires me < |op.ranks| && LocalOK(op, me, rs)
    requires ValidChunk(op, ch, k) && rs.bar == 1 && p in op.ranks && p != op.ranks[me]
    requires ChunkStaged(op, me, rs, ch, k)
    ensures LocalOK(op, me, rs.(posted := rs.posted + {(ch, k, p)}))
  {
    var t := rs.(posted := rs.posted + {(ch, k, p)});
    assert BarriersOK(op, t);
    assert CopiesOK(op, me, t);
    forall ch0, k0, p0 | (ch0, k0, p0) in t.posted
      ensures ChunkStaged(op, me, t, ch0, k0)
    {
      assert ChunkStaged(op, me, rs, ch0, k0);
    }
  }

  lemma LocalSee(op: Op, me: nat, rs: RankState, ch: nat, k: nat)
    requires me < |op.ranks| && LocalOK(op, me, rs) && ValidChunk(op, ch, k) && rs.bar == 1
    ensures LocalOK(op, me, rs.(seen := rs.seen + {(ch, k)}))
  {
    var t := rs.(seen := rs.seen + {(ch, k)});
    assert BarriersOK(op, t);
    assert CopiesOK(op, me, t);
    forall ch0, k0, p0 | (ch0, k0, p0) in t.posted
      ensures ChunkStaged(op, me, t, ch0, k0)
    {
      assert ChunkStaged(op, me, rs, ch0, k0);
    }
  }

  lemma LocalPass(op: Op, me: nat, rs: RankState)
    requires me < |op.ranks| && LocalOK(op, me, rs) && rs.bar < Bars(op)
    requires forall p :: p in op.ranks ==> p in rs.waited
    ensures LocalOK(op, me, rs.(bar := rs.bar + 1, published := map[], waited := {}))
  {
    var t := rs.(bar := rs.bar + 1, published := map[], waited := {});
    assert op.ranks[0] in rs.published;
    assert BarriersOK(op, t);
    assert CopiesOK(op, me, t);
    forall ch, k, p | (ch, k, p) in t.posted
      ensures ChunkStaged(op, me, t, ch, k)
    {
      assert ChunkStaged(op, me, rs, ch, k);
    }
  }

  lemma LocalInside(sys: System, s: State, step: Step)
    requires WellFormed(sys) && Enabled(sys, s, step) && !step.Finish?
    requires RankOK(sys, s, step.r)
    ensures var op := CurOp(sys, s, step.r);
      var me := IndexOf(op.ranks, step.r);
      LocalOK(op, me, RankAfter(sys, s, step))
  {
    var op := CurOp(sys, s, step.r);
    var me := IndexOf(op.ranks, step.r);
    var rs := s.ranks[step.r];
    match step
    case Publish(r, p) => LocalPublish(op, me, rs, p, Val(s.edgeSeq, (r, p)) % 2);
    case Wait(r, p) => LocalWait(op, me, rs, p);
    case Pass(r) => LocalPass(op, me, rs);
    case Move(r, x) => LocalMove(op, me, rs, x);
    case Post(r, ch, k, p) => LocalPost(op, me, rs, ch, k, p);
    case See(r, ch, k) => LocalSee(op, me, rs, ch, k);
  }

  /** Every step keeps every rank's own order. */
  lemma LocalKept(sys: System, s: State, step: Step, q: Rank)
    requires WellFormed(sys) && Enabled(sys, s, step) && q < sys.world
    requires RankOK(sys, s, step.r) && RankOK(sys, s, q)
    ensures RankOK(sys, Do(sys, s, step), q)
  {
    if q == step.r {
      if step.Finish? {
        StartRankOK(sys, Do(sys, s, step), q);
      } else {
        LocalInside(sys, s, step);
      }
    }
  }
}
