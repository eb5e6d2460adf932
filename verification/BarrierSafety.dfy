/** The per-edge double-buffered barrier is safe without an acknowledgement phase.

    For every ordered pair the publisher's count, the cell contents and the reader's
    count are tied together; from that follow that a wait succeeds exactly when the
    partner has published the same barrier, that no unread cell is overwritten, and
    that a rank leaves a barrier only after every member has arrived. */
module BarrierSafety {
  import opened Words
  import opened Schedule
  import opened Protocol
  import opened LocalOrder

  /** How many tokens rank `r` has published on its edge to `p`. */
  ghost function Sent(sys: System, rs: RankState, r: Rank, p: Rank): nat
    requires WellFormed(sys) && r < sys.world && rs.at <= |sys.prog[r]|
  {
    EdgeBase(sys, r, p, rs.at)
    + if rs.at < |sys.prog[r]| && p in sys.ops[sys.prog[r][rs.at]].ranks
      then rs.bar + (if p in rs.published then 1 else 0) else 0
  }

  /** How many of `p`'s tokens rank `r` has waited for. */
  ghost function Got(sys: System, rs: RankState, r: Rank, p: Rank): nat
    requires WellFormed(sys) && r < sys.world && rs.at <= |sys.prog[r]|
  {
    EdgeBase(sys, r, p, rs.at)
    + if rs.at < |sys.prog[r]| && p in sys.ops[sys.prog[r][rs.at]].ranks
      then rs.bar + (if p in rs.waited then 1 else 0) else 0
  }

  /** The cell of parity `slot` after the first `n` tokens of `e`. */
  function LastTok(e: seq<U64>, n: nat, slot: nat): nat
    requires n <= |e|
  {
    if n >= 1 && (n - 1) % 2 == slot then e[n - 1]
    else if n >= 2 then e[n - 2]
    else 0
  }

  /** Counter, cells and reader of one ordered edge: `n` tokens of `e` published, `seq`
      in the publisher's counter, `even` and `odd` in the reader's cells, `got` consumed. */
  predicate EdgeFacts(e: seq<U64>, n: nat, count: nat, even: nat, odd: nat, got: nat) {
    && n <= |e|
    && count == n % TWO64
    && even == LastTok(e, n, 0)
    && odd == LastTok(e, n, 1)
    && got <= n
  }

  ghost predicate Placed(sys: System, s: State)
    requires Shape(sys)
  {
    |s.ranks| == sys.world && forall r :: 0 <= r < sys.world ==> s.ranks[r].at <= |sys.prog[r]|
  }

  ghost predicate EdgeOK(sys: System, s: State, r: Rank, p: Rank)
    requires WellFormed(sys) && Placed(sys, s) && r < sys.world && p < sys.world
  {
    && EdgeFacts(Edge(sys, r, p), Sent(sys, s.ranks[r], r, p), Val(s.edgeSeq, (r, p)),
                 Val(s.signal, (p, 0, r)), Val(s.signal, (p, 1, r)), Got(sys, s.ranks[p], p, r))
    && (p in s.ranks[r].published ==>
      s.ranks[r].published[p] == (Sent(sys, s.ranks[r], r, p) + 1) % 2)
  }

  ghost predicate Ordered(sys: System, s: State)
    requires Shape(sys)
  {
    && Placed(sys, s)
    && (forall r :: 0 <= r < sys.world ==> RankOK(sys, s, r))
  }

  ghost predicate BarrierOK(sys: System, s: State)
    requires WellFormed(sys)
  {
    && Ordered(sys, s)
    && (forall r, p :: 0 <= r < sys.world && 0 <= p < sys.world ==> EdgeOK(sys, s, r, p))
  }

  // ------------------------------------------------------------ cell algebra

  /** Publishing the next token into the slot of the counter's parity. */
  lemma PublishFacts(e: seq<U64>, n: nat, count: nat, even: nat, odd: nat, got: nat)
    requires EdgeFacts(e, n, count, even, odd, got) && n < |e|
    ensures EdgeFacts(e, n + 1, Bump(count),
                      if count % 2 == 0 then e[n] else even, if count % 2 == 1 then e[n] else odd, got)
    ensures count % 2 == n % 2
  {
    WrapKeepsParity(n);
  }

  lemma WrapKeepsParity(n: nat)
    ensures n % TWO64 % 2 == n % 2
    ensures (n % TWO64 + 1) % TWO64 == (n + 1) % TWO64
  {
    assert n == n / TWO64 * TWO64 + n % TWO64;
  }

  /** With fresh tokens a cell shows the reader's expected token exactly when the
      publisher, never more than one ahead or behind, has published it. */
  lemma LastTokExact(e: seq<U64>, n: nat, m: nat)
    requires SlotFresh(e) && 1 <= n <= |e| && m <= |e| && n - 1 <= m <= n + 1
    ensures LastTok(e, m, (n + 1) % 2) == e[n - 1] <==> m >= n
  {
    var i := n - 1;
    assert e[i] != Before(e, i);
  }

  /** The reader of token `n - 1`, looking while `m` tokens are out, is not misled. */
  predicate Exact(e: seq<U64>, n: nat, m: nat)
    requires 1 <= n <= |e| && m <= |e|
  {
    LastTok(e, m, (n + 1) % 2) == e[n - 1] <==> m >= n
  }

  /** On the cells alone, freshness is exactly what keeps a reader from being misled. */
  lemma FreshnessIsNeeded(e: seq<U64>)
    ensures SlotFresh(e) <==>
      forall n: nat, m: nat :: 1 <= n <= |e| && m <= |e| && n - 1 <= m <= n + 1 ==> Exact(e, n, m)
  {
    if SlotFresh(e) {
      forall n: nat, m: nat | 1 <= n <= |e| && m <= |e| && n - 1 <= m <= n + 1 ensures Exact(e, n, m) {
        LastTokExact(e, n, m);
      }
    } else {
      var i :| 0 <= i < |e| && e[i] == Before(e, i);
      assert LastTok(e, i, i % 2) == Before(e, i);
      assert !Exact(e, i + 1, i);
    }
  }

  // ------------------------------------------------------- counts of one rank

  /** The place on the edge that rank `r` publishes next carries the token it computes. */
  lemma SentToken(sys: System, s: State, r: Rank, p: Rank)
    requires WellFormed(sys) && Active(sys, s, r)
    requires p in CurOp(sys, s, r).ranks && s.ranks[r].bar < Bars(CurOp(sys, s, r))
    ensures var i := Sent(sys, s.ranks[r], r, p) - (if p in s.ranks[r].published then 1 else 0);
      && 0 <= i < |Edge(sys, r, p)|
      && Edge(sys, r, p)[i] == Token(sys, r, s.ranks[r].at, s.ranks[r].bar)
  {
    EdgeToken(sys, r, p, s.ranks[r].at, s.ranks[r].bar);
  }

  lemma GotSent(sys: System, s: State, r: Rank, p: Rank)
    requires WellFormed(sys) && Placed(sys, s) && r < sys.world && RankOK(sys, s, r)
    ensures Got(sys, s.ranks[r], r, p) <= Sent(sys, s.ranks[r], r, p) <= Got(sys, s.ranks[r], r, p) + 1
  {
  }

  /** A step that neither publishes nor waits moves none of its rank's counts. */
  lemma QuietCounts(sys: System, s: State, step: Step, p: Rank)
    requires WellFormed(sys) && Enabled(sys, s, step) && RankOK(sys, s, step.r)
    requires !step.Publish? && !step.Wait?
    ensures var t := RankAfter(sys, s, step);
      && t.at <= |sys.prog[step.r]|
      && Sent(sys, t, step.r, p) == Sent(sys, s.ranks[step.r], step.r, p)
      && Got(sys, t, step.r, p) == Got(sys, s.ranks[step.r], step.r, p)
  {
    if step.Finish? {
      FinishCounts(sys, s, step.r, p);
    } else {
      hide EdgeBase, Registered, PairAgree, Token, CopiesOK, StepsOK, CopiesDone, AllPosted, Ready, Valid;
    }
  }

  lemma FinishCounts(sys: System, s: State, r: Rank, p: Rank)
    requires WellFormed(sys) && Enabled(sys, s, Finish(r)) && RankOK(sys, s, r)
    ensures var t := RankAfter(sys, s, Finish(r));
      && t.at <= |sys.prog[r]|
      && Sent(sys, t, r, p) == Sent(sys, s.ranks[r], r, p)
      && Got(sys, t, r, p) == Got(sys, s.ranks[r], r, p)
  {
    hide EdgeBase, Registered, PairAgree, Token, CopiesOK, StepsOK, CopiesDone;
    EdgeBaseStep(sys, r, p, s.ranks[r].at);
  }

  // ------------------------------------------------------------ preservation

  lemma InitialOrdered(sys: System, s: State)
    requires WellFormed(sys) && InitialState(sys, s)
    ensures Ordered(sys, s)
  {
    forall r | 0 <= r < sys.world ensures RankOK(sys, s, r) { StartRankOK(sys, s, r); }
  }

  lemma InitialEdge(sys: System, s: State, r: Rank, p: Rank)
    requires WellFormed(sys) && InitialState(sys, s) && r < sys.world && p < sys.world
    ensures Placed(sys, s) && EdgeOK(sys, s, r, p)
  {
    assert Sent(sys, StartOf(0), r, p) == 0;
    assert Got(sys, StartOf(0), p, r) == 0;
  }

  lemma InitialBarrierOK(sys: System, s: State)
    requires WellFormed(sys) && InitialState(sys, s)
    ensures BarrierOK(sys, s)
  {
    InitialOrdered(sys, s);
    forall r, p | 0 <= r < sys.world && 0 <= p < sys.world ensures EdgeOK(sys, s, r, p) {
      InitialEdge(sys, s, r, p);
    }
  }

  lemma SentAfterPublish(sys: System, s: State, r: Rank, p: Rank)
    requires WellFormed(sys) && Placed(sys, s) && Enabled(sys, s, Publish(r, p))
    ensures Sent(sys, RankAfter(sys, s, Publish(r, p)), r, p) == Sent(sys, s.ranks[r], r, p) + 1
  {
    hide EdgeBase, Registered, PairAgree, Token, CopiesDone, AllPosted;
  }

  lemma PublishedEdge(sys: System, s: State, r: Rank, p: Rank)
    requires WellFormed(sys) && Placed(sys, s) && Enabled(sys, s, Publish(r, p))
    requires p < sys.world && EdgeOK(sys, s, r, p)
    requires Placed(sys, Do(sys, s, Publish(r, p)))
    requires Got(sys, Do(sys, s, Publish(r, p)).ranks[p], p, r) == Got(sys, s.ranks[p], p, r)
    ensures EdgeOK(sys, Do(sys, s, Publish(r, p)), r, p)
  {
    hide EdgeBase, Edge, Registered, PairAgree, Token, CopiesDone, AllPosted, Enabled, Do, RankAfter, Sent, Got,
        LastTok,
      EdgeFacts, Bump, Val;
    PublishCells(sys, s, r, p);
    NextToken(sys, s, r, p);
    SentAfterPublish(sys, s, r, p);
    PublishFacts(Edge(sys, r, p), Sent(sys, s.ranks[r], r, p), Val(s.edgeSeq, (r, p)),
                 Val(s.signal, (p, 0, r)), Val(s.signal, (p, 1, r)), Got(sys, s.ranks[p], p, r));
    TwoOn(Sent(sys, s.ranks[r], r, p));
  }

  lemma TwoOn(n: nat)
    ensures (n + 1 + 1) % 2 == n % 2
  {
  }

  /** What publishing does to the counter, the two cells and the chosen slot. */
  lemma PublishCells(sys: System, s: State, r: Rank, p: Rank)
    requires WellFormed(sys) && Enabled(sys, s, Publish(r, p))
    ensures var t, n := Do(sys, s, Publish(r, p)), Val(s.edgeSeq, (r, p));
      var tok := Token(sys, r, s.ranks[r].at, s.ranks[r].bar);
      && Val(t.edgeSeq, (r, p)) == Bump(n)
      && Val(t.signal, (p, 0, r)) == (if n % 2 == 0 then tok else Val(s.signal, (p, 0, r)))
      && Val(t.signal, (p, 1, r)) == (if n % 2 == 1 then tok else Val(s.signal, (p, 1, r)))
      && |t.ranks| == sys.world && r < sys.world
      && t.ranks[r] == RankAfter(sys, s, Publish(r, p)) && t.ranks[r].published[p] == n % 2
  {
    hide EdgeBase, Registered, PairAgree, Token, CopiesDone, AllPosted;
  }

  lemma NextToken(sys: System, s: State, r: Rank, p: Rank)
    requires WellFormed(sys) && Placed(sys, s) && Enabled(sys, s, Publish(r, p))
    ensures Sent(sys, s.ranks[r], r, p) < |Edge(sys, r, p)|
    ensures Edge(sys, r, p)[Sent(sys, s.ranks[r], r, p)] == Token(sys, r, s.ranks[r].at, s.ranks[r].bar)
  {
    hide EdgeBase, Edge, Registered, PairAgree, Token, CopiesDone, AllPosted;
    SentToken(sys, s, r, p);
  }

  lemma OtherEdge(sys: System, s: State, t: State, r: Rank, p: Rank)
    requires WellFormed(sys) && Placed(sys, s) && Placed(sys, t)
    requires r < sys.world && p < sys.world && EdgeOK(sys, s, r, p)
    requires Sent(sys, t.ranks[r], r, p) == Sent(sys, s.ranks[r], r, p)
    requires Got(sys, t.ranks[p], p, r) == Got(sys, s.ranks[p], p, r)
    requires Val(t.edgeSeq, (r, p)) == Val(s.edgeSeq, (r, p))
    requires Val(t.signal, (p, 0, r)) == Val(s.signal, (p, 0, r))
    requires Val(t.signal, (p, 1, r)) == Val(s.signal, (p, 1, r))
    requires p in t.ranks[r].published ==>
      p in s.ranks[r].published && t.ranks[r].published[p] == s.ranks[r].published[p]
    ensures EdgeOK(sys, t, r, p)
  {
    hide EdgeBase, Edge, Registered, PairAgree, Sent, Got;
  }

  /** Only the acting rank's counts can move, and only by publishing or waiting. */
  lemma CountsElsewhere(sys: System, s: State, step: Step, r: Rank, p: Rank)
    requires WellFormed(sys) && Ordered(sys, s) && Enabled(sys, s, step) && r < sys.world
    requires Placed(sys, Do(sys, s, step))
    ensures var t := Do(sys, s, step);
      && (step != Publish(r, p) ==> Sent(sys, t.ranks[r], r, p) == Sent(sys, s.ranks[r], r, p))
      && (step != Wait(r, p) ==> Got(sys, t.ranks[r], r, p) == Got(sys, s.ranks[r], r, p))
  {
    hide EdgeBase, Registered, PairAgree, Token, Sent, Got, RankOK, CopiesDone, AllPosted;
    if step.Publish? || step.Wait? {
      LoudCounts(sys, s, step, r, p);
    } else if step.r == r {
      QuietCounts(sys, s, step, p);
    } else {
      OthersUntouched(sys, s, step, r);
    }
  }

  lemma OthersUntouched(sys: System, s: State, step: Step, r: Rank)
    requires WellFormed(sys) && Ordered(sys, s) && Enabled(sys, s, step) && r < sys.world && step.r != r
    requires Placed(sys, Do(sys, s, step))
    ensures Do(sys, s, step).ranks[r] == s.ranks[r]
  {
    hide EdgeBase, Registered, PairAgree, Token, RankOK, CopiesDone, AllPosted;
  }

  lemma LoudCounts(sys: System, s: State, step: Step, r: Rank, p: Rank)
    requires WellFormed(sys) && Ordered(sys, s) && Enabled(sys, s, step) && r < sys.world
    requires (step.Publish? || step.Wait?) && Placed(sys, Do(sys, s, step))
    ensures var t := Do(sys, s, step);
      && (step != Publish(r, p) ==> Sent(sys, t.ranks[r], r, p) == Sent(sys, s.ranks[r], r, p))
      && (step != Wait(r, p) ==> Got(sys, t.ranks[r], r, p) == Got(sys, s.ranks[r], r, p))
  {
    hide EdgeBase, Registered, PairAgree, Token, RankOK, CopiesDone, AllPosted;
  }

  lemma PublishKeepsEdge(sys: System, s: State, step: Step, r: Rank, p: Rank)
    requires WellFormed(sys) && Ordered(sys, s) && Enabled(sys, s, step) && step.Publish?
    requires r < sys.world && p < sys.world && EdgeOK(sys, s, r, p)
    requires Placed(sys, Do(sys, s, step))
    ensures EdgeOK(sys, Do(sys, s, step), r, p)
  {
    hide EdgeBase, Edge, Registered, PairAgree, Token, CopiesOK, StepsOK, CopiesDone, AllPosted;
    CountsElsewhere(sys, s, step, r, p);
    CountsElsewhere(sys, s, step, p, r);
    if step == Publish(r, p) {
      PublishedEdge(sys, s, r, p);
    } else {
      OtherEdge(sys, s, Do(sys, s, step), r, p);
    }
  }

  /** The two ends of an edge never differ by more than one publish. */
  lemma CountsWithinOne(sys: System, s: State, r: Rank, p: Rank)
    requires WellFormed(sys) && BarrierOK(sys, s) && r < sys.world && p < sys.world
    ensures -1 <= Sent(sys, s.ranks[r], r, p) - Sent(sys, s.ranks[p], p, r) <= 1
  {
    hide EdgeBase, Edge, Registered, PairAgree, CopiesOK, StepsOK, Sent, Got;
    assert RankOK(sys, s, r) && RankOK(sys, s, p);
    assert EdgeOK(sys, s, r, p) && EdgeOK(sys, s, p, r);
    GotSent(sys, s, r, p);
    GotSent(sys, s, p, r);
  }

  /** A wait succeeds exactly when the partner has published this barrier: the cell
      shows the token if and only if the partner's count has reached ours. */
  lemma WaitExact(sys: System, s: State, r: Rank, p: Rank)
    requires WellFormed(sys) && Fresh(sys) && BarrierOK(sys, s)
    requires Active(sys, s, r) && p < sys.world
    requires p in s.ranks[r].published && p !in s.ranks[r].waited
    ensures Enabled(sys, s, Wait(r, p)) <==>
      Sent(sys, s.ranks[p], p, r) >= Sent(sys, s.ranks[r], r, p)
  {
    hide EdgeBase, Edge, Registered, PairAgree, Fresh, RankOK, Enabled, Sent, Got, LastTok;
    var n, m := Sent(sys, s.ranks[r], r, p), Sent(sys, s.ranks[p], p, r);
    CountsWithinOne(sys, s, r, p);
    WaitedCell(sys, s, r, p);
    if m >= n {
      ArrivedShows(Edge(sys, r, p), n, m);
    } else {
      FreshEdge(sys, r, p);
      LastTokExact(Edge(sys, r, p), n, m);
    }
  }

  /** Fresh or not, a wait for a partner that has published this barrier succeeds. */
  lemma ArrivedWaits(sys: System, s: State, r: Rank, p: Rank)
    requires WellFormed(sys) && BarrierOK(sys, s) && Active(sys, s, r) && p < sys.world
    requires p in s.ranks[r].published && p !in s.ranks[r].waited
    requires Sent(sys, s.ranks[p], p, r) >= Sent(sys, s.ranks[r], r, p)
    ensures Enabled(sys, s, Wait(r, p))
  {
    hide EdgeBase, Edge, Registered, PairAgree, RankOK, Enabled, Sent, Got, LastTok;
    CountsWithinOne(sys, s, r, p);
    WaitedCell(sys, s, r, p);
    ArrivedShows(Edge(sys, r, p), Sent(sys, s.ranks[r], r, p), Sent(sys, s.ranks[p], p, r));
  }

  lemma ArrivedShows(e: seq<U64>, n: nat, m: nat)
    requires 1 <= n <= m <= |e| && m <= n + 1
    ensures LastTok(e, m, (n + 1) % 2) == e[n - 1]
  {
  }

  /** What a published, unfinished wait looks at, in terms of the two counts. */
  lemma WaitedCell(sys: System, s: State, r: Rank, p: Rank)
    requires WellFormed(sys) && BarrierOK(sys, s) && Active(sys, s, r) && p < sys.world
    requires p in s.ranks[r].published && p !in s.ranks[r].waited
    ensures var n, m := Sent(sys, s.ranks[r], r, p), Sent(sys, s.ranks[p], p, r);
      var e := Edge(sys, r, p);
      1 <= n <= |e| && m <= |e| && (Enabled(sys, s, Wait(r, p)) <==> LastTok(e, m, (n + 1) % 2) == e[n - 1])
  {
    hide EdgeBase, Edge, Registered, PairAgree, RankOK, Enabled, Sent, Got, LastTok;
    EdgeSymmetric(sys, r, p);
    assert EdgeOK(sys, s, r, p) && EdgeOK(sys, s, p, r);
    WaitedToken(sys, s, r, p);
  }

  /** A published, unfinished wait looks for the latest token its rank sent. */
  lemma WaitedToken(sys: System, s: State, r: Rank, p: Rank)
    requires WellFormed(sys) && Ordered(sys, s) && Active(sys, s, r)
    requires p in s.ranks[r].published && p !in s.ranks[r].waited
    ensures 1 <= Sent(sys, s.ranks[r], r, p) <= |Edge(sys, r, p)|
    ensures Enabled(sys, s, Wait(r, p)) <==>
      Val(s.signal, (r, s.ranks[r].published[p], p)) == Edge(sys, r, p)[Sent(sys, s.ranks[r], r, p) - 1]
  {
    hide EdgeBase, Edge, Registered, PairAgree, Token, CopiesOK, StepsOK, CopiesDone, AllPosted;
    assert RankOK(sys, s, r);
    SentToken(sys, s, r, p);
  }

  lemma FreshEdge(sys: System, r: Rank, p: Rank)
    requires WellFormed(sys) && Fresh(sys) && r < sys.world && p < sys.world && r != p
    ensures SlotFresh(Edge(sys, r, p))
  {
  }

  /** The step is no wait that ends before the partner has published. */
  ghost predicate Honest(sys: System, s: State, step: Step)
    requires WellFormed(sys) && Placed(sys, s)
  {
    step.Wait? && step.r < sys.world && step.p < sys.world ==>
      Sent(sys, s.ranks[step.p], step.p, step.r) >= Sent(sys, s.ranks[step.r], step.r, step.p)
  }

  /** With fresh tokens every step is honest. */
  lemma FreshIsHonest(sys: System, s: State, step: Step)
    requires WellFormed(sys) && Fresh(sys) && BarrierOK(sys, s) && Enabled(sys, s, step)
    ensures Honest(sys, s, step)
  {
    if step.Wait? && step.p < sys.world {
      hide EdgeBase, Edge, Registered, PairAgree, Fresh, Sent, BarrierOK, Token;
      WaitExact(sys, s, step.r, step.p);
    }
  }

  lemma WaitKeepsEdge(sys: System, s: State, step: Step, r: Rank, p: Rank)
    requires WellFormed(sys) && BarrierOK(sys, s) && Enabled(sys, s, step) && step.Wait? && Honest(sys, s, step)
    requires r < sys.world && p < sys.world
    requires Placed(sys, Do(sys, s, step))
    ensures EdgeOK(sys, Do(sys, s, step), r, p)
  {
    hide EdgeBase, Edge, Registered, PairAgree, Token, CopiesOK, StepsOK, CopiesDone, AllPosted;
    assert EdgeOK(sys, s, r, p);
    CountsElsewhere(sys, s, step, r, p);
    CountsElsewhere(sys, s, step, p, r);
    if step == Wait(p, r) {
      WaitedEdge(sys, s, p, r);
    } else {
      OtherEdge(sys, s, Do(sys, s, step), r, p);
    }
  }

  lemma WaitedEdge(sys: System, s: State, r: Rank, p: Rank)
    requires WellFormed(sys) && BarrierOK(sys, s) && Enabled(sys, s, Wait(r, p)) && p < sys.world
    requires Honest(sys, s, Wait(r, p))
    requires Placed(sys, Do(sys, s, Wait(r, p)))
    ensures EdgeOK(sys, Do(sys, s, Wait(r, p)), p, r)
  {
    hide EdgeBase, Edge, Registered, PairAgree, Token, CopiesOK, StepsOK, CopiesDone, AllPosted;
    assert EdgeOK(sys, s, p, r);
    assert RankOK(sys, s, r);
    GotSent(sys, s, r, p);
  }

  lemma OrderedKept(sys: System, s: State, step: Step)
    requires WellFormed(sys) && Ordered(sys, s) && Enabled(sys, s, step)
    ensures Ordered(sys, Do(sys, s, step))
  {
    hide Registered, PairAgree, RankOK, EdgeBase;
    forall q | 0 <= q < sys.world ensures RankOK(sys, Do(sys, s, step), q) { LocalKept(sys, s, step, q); }
  }

  lemma QuietKeepsEdge(sys: System, s: State, step: Step, r: Rank, p: Rank)
    requires WellFormed(sys) && Ordered(sys, s) && Enabled(sys, s, step) && !step.Publish? && !step.Wait?
    requires r < sys.world && p < sys.world && EdgeOK(sys, s, r, p)
    requires Placed(sys, Do(sys, s, step))
    ensures EdgeOK(sys, Do(sys, s, step), r, p)
  {
    CountsElsewhere(sys, s, step, r, p);
    CountsElsewhere(sys, s, step, p, r);
    QuietSignals(sys, s, step, r, p);
    hide EdgeBase, Edge, Registered, PairAgree, Token, RankOK, Enabled, Do, EdgeOK, Sent, Got;
    OtherEdge(sys, s, Do(sys, s, step), r, p);
  }

  lemma QuietSignals(sys: System, s: State, step: Step, r: Rank, p: Rank)
    requires WellFormed(sys) && Placed(sys, s) && Enabled(sys, s, step) && !step.Publish? && !step.Wait?
    requires r < sys.world
    ensures var t := Do(sys, s, step);
      && t.edgeSeq == s.edgeSeq && t.signal == s.signal && |t.ranks| == |s.ranks|
      && (p in t.ranks[r].published ==>
        p in s.ranks[r].published && t.ranks[r].published[p] == s.ranks[r].published[p])
  {
    hide EdgeBase, Edge, Registered, PairAgree, Token, Ready, Valid, CopiesDone, AllPosted, ChunkStaged, ChunkPulled;
  }

  lemma EdgeKept(sys: System, s: State, step: Step, r: Rank, p: Rank)
    requires WellFormed(sys) && BarrierOK(sys, s) && Enabled(sys, s, step) && Honest(sys, s, step)
    requires r < sys.world && p < sys.world && Placed(sys, Do(sys, s, step))
    ensures EdgeOK(sys, Do(sys, s, step), r, p)
  {
    assert EdgeOK(sys, s, r, p);
    hide Registered, PairAgree, RankOK, Enabled, Do, EdgeOK, Honest;
    if step.Publish? {
      PublishKeepsEdge(sys, s, step, r, p);
    } else if step.Wait? {
      WaitKeepsEdge(sys, s, step, r, p);
    } else {
      QuietKeepsEdge(sys, s, step, r, p);
    }
  }

  /** Every step of any rank keeps every edge consistent. */
  lemma BarrierKept(sys: System, s: State, step: Step)
    requires WellFormed(sys) && BarrierOK(sys, s) && Enabled(sys, s, step) && Honest(sys, s, step)
    ensures BarrierOK(sys, Do(sys, s, step))
  {
    OrderedKept(sys, s, step);
    forall r, p | 0 <= r < sys.world && 0 <= p < sys.world
      ensures EdgeOK(sys, Do(sys, s, step), r, p)
    {
      EdgeKept(sys, s, step, r, p);
    }
  }

  lemma {:induction false} BarrierOKInRun(sys: System, states: seq<State>, steps: seq<Step>, i: nat)
    requires WellFormed(sys) && Fresh(sys) && IsRun(sys, states, steps) && i < |states|
    ensures BarrierOK(sys, states[i])
  {
    if i == 0 {
      InitialBarrierOK(sys, states[0]);
    } else {
      BarrierOKInRun(sys, states, steps, i - 1);
      FreshIsHonest(sys, states[i - 1], steps[i - 1]);
      BarrierKept(sys, states[i - 1], steps[i - 1]);
    }
  }

  // ------------------------------------------------------------ main results

  /** Rank `r` has passed barrier `b` of call `c`. */
  ghost predicate Passed(sys: System, s: State, r: Rank, c: OpId, b: nat)
    requires WellFormed(sys) && |s.ranks| == sys.world && c < |sys.ops| && r in sys.ops[c].ranks
  {
    var i := Idx(sys, r, c);
    s.ranks[r].at > i || (s.ranks[r].at == i && s.ranks[r].bar > b)
  }

  /** Rank `r` has published barrier `b` of call `c` to `p`. */
  ghost predicate Arrived(sys: System, s: State, r: Rank, c: OpId, b: nat, p: Rank)
    requires WellFormed(sys) && |s.ranks| == sys.world && c < |sys.ops| && r in sys.ops[c].ranks
  {
    var i := Idx(sys, r, c);
    || s.ranks[r].at > i
    || (s.ranks[r].at == i && (s.ranks[r].bar > b || (s.ranks[r].bar == b && p in s.ranks[r].published)))
  }

  lemma PassedCount(sys: System, s: State, r: Rank, p: Rank, c: OpId, b: nat)
    requires WellFormed(sys) && Ordered(sys, s) && c < |sys.ops|
    requires r in sys.ops[c].ranks && p in sys.ops[c].ranks && b < Bars(sys.ops[c])
    requires Passed(sys, s, r, c, b)
    ensures r < sys.world && Got(sys, s.ranks[r], r, p) >= EdgeBase(sys, r, p, Idx(sys, r, c)) + b + 1
  {
    var i := Idx(sys, r, c);
    if s.ranks[r].at > i {
      EdgeBaseStep(sys, r, p, i);
      EdgeBaseMonotone(sys, r, p, i + 1, s.ranks[r].at);
    }
  }

  lemma ArrivedCount(sys: System, s: State, r: Rank, p: Rank, c: OpId, b: nat)
    requires WellFormed(sys) && Ordered(sys, s) && c < |sys.ops|
    requires r in sys.ops[c].ranks && p in sys.ops[c].ranks && b < Bars(sys.ops[c])
    requires !Arrived(sys, s, r, c, b, p)
    ensures r < sys.world && Sent(sys, s.ranks[r], r, p) <= EdgeBase(sys, r, p, Idx(sys, r, c)) + b
  {
    var i := Idx(sys, r, c);
    assert RankOK(sys, s, r);
    if s.ranks[r].at < i {
      EdgeBaseStep(sys, r, p, s.ranks[r].at);
      EdgeBaseMonotone(sys, r, p, s.ranks[r].at + 1, i);
    }
  }

  /** A rank passes a barrier only after every member has published it. */
  lemma LeaveAfterAllArrive(sys: System, s: State, r: Rank, p: Rank, c: OpId, b: nat)
    requires WellFormed(sys) && BarrierOK(sys, s) && c < |sys.ops|
    requires r in sys.ops[c].ranks && p in sys.ops[c].ranks && b < Bars(sys.ops[c])
    requires Passed(sys, s, r, c, b)
    ensures Arrived(sys, s, p, c, b, r)
  {
    if !Arrived(sys, s, p, c, b, r) {
      assert EdgeOK(sys, s, p, r) by { MemberInWorld(sys, p, c); MemberInWorld(sys, r, c); }
      PassedCount(sys, s, r, p, c, b);
      ArrivedCount(sys, s, p, r, c, b);
      EdgeBaseAgree(sys, r, p, c);
      assert false;
    }
  }

  /** When a rank is about to publish, the reader has already waited for every token
      this edge carried except at most the latest: the cell being overwritten, two
      publishes old, has been consumed. */
  lemma NoUnreadOverwrite(sys: System, s: State, r: Rank, p: Rank)
    requires WellFormed(sys) && BarrierOK(sys, s) && Enabled(sys, s, Publish(r, p)) && p < sys.world
    ensures Got(sys, s.ranks[p], p, r) + 1 >= Sent(sys, s.ranks[r], r, p)
  {
    assert RankOK(sys, s, r) && RankOK(sys, s, p);
    assert EdgeOK(sys, s, p, r);
    GotSent(sys, s, p, r);
    assert p !in s.ranks[r].waited;
    assert Got(sys, s.ranks[r], r, p) == Sent(sys, s.ranks[r], r, p);
  }
}
