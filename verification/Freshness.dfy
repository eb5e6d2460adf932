/** When the freshness that the barrier rests on can be had from the token function:
    exactly, for ranks that meet in one group only. */
module Freshness {
  import opened Tokens
  import opened Words
  import opened Schedule

  /** The protocol's token function is the real one. */
  ghost predicate RealTokens(sys: System, nonce: nat) {
    forall g: nat, e: nat :: sys.tok(g, e) == ToNat(ComputeToken(nonce, g, e))
  }

  /** Every call that `r` and `p` share is on group id `g`. */
  ghost predicate MeetOnlyIn(sys: System, r: Rank, p: Rank, g: nat)
    requires Shape(sys) && r < sys.world
  {
    forall i :: 0 <= i < |sys.prog[r]| && p in sys.ops[sys.prog[r][i]].ranks ==> sys.ops[sys.prog[r][i]].gid == g
  }

  function BarEpochs(op: Op, base: nat, n: nat): (s: seq<nat>)
    ensures |s| == n && forall b :: 0 <= b < n ==> s[b] == base + EpochOfBar(op, b)
  {
    if n == 0 then [] else BarEpochs(op, base, n - 1) + [base + EpochOfBar(op, n - 1)]
  }

  /** The epochs behind the tokens that `r` sends to `p` in its first `i` calls. */
  ghost function EdgeEpochs(sys: System, r: Rank, p: Rank, i: nat): seq<nat>
    requires Shape(sys) && r < sys.world && i <= |sys.prog[r]|
  {
    if i == 0 then []
    else
      var op := sys.ops[sys.prog[r][i - 1]];
      var before := EdgeEpochs(sys, r, p, i - 1);
      if p in op.ranks then before + BarEpochs(op, EpochsBefore(sys, r, op.gid, i - 1), Bars(op)) else before
  }

  lemma BarsWithinEpochs(op: Op, b: nat, c: nat)
    requires b < c < Bars(op)
    ensures EpochOfBar(op, b) < EpochOfBar(op, c)
  {
  }

  lemma BarWithinEpochs(op: Op, b: nat)
    requires b < Bars(op)
    ensures EpochOfBar(op, b) < Epochs(op)
  {
  }

  /** Along an edge epochs only grow. */
  lemma {:induction false} EdgeEpochsGrow(sys: System, r: Rank, p: Rank, g: nat, i: nat)
    requires Shape(sys) && r < sys.world && i <= |sys.prog[r]| && MeetOnlyIn(sys, r, p, g)
    ensures forall k :: 0 <= k < |EdgeEpochs(sys, r, p, i)| ==> EdgeEpochs(sys, r, p, i)[k] < EpochsBefore(sys, r, g, i)
    ensures forall j, k :: 0 <= j < k < |EdgeEpochs(sys, r, p, i)| ==>
      EdgeEpochs(sys, r, p, i)[j] < EdgeEpochs(sys, r, p, i)[k]
  {
    if i > 0 {
      EdgeEpochsGrow(sys, r, p, g, i - 1);
      var op := sys.ops[sys.prog[r][i - 1]];
      if p in op.ranks {
        forall b, c | 0 <= b < c < Bars(op) ensures EpochOfBar(op, b) < EpochOfBar(op, c) {
          BarsWithinEpochs(op, b, c);
        }
        forall b | 0 <= b < Bars(op) ensures EpochOfBar(op, b) < Epochs(op) { BarWithinEpochs(op, b); }
      }
    }
  }

  /** `ts` are the tokens of the epochs `es` of group id `g`. */
  ghost predicate TokensOf(sys: System, g: nat, ts: seq<U64>, es: seq<nat>) {
    |ts| == |es| && forall k :: 0 <= k < |es| ==> ts[k] == sys.tok(g, es[k])
  }

  /** The tokens on the edge are those of its epochs. */
  lemma {:induction false} EdgeIsTokens(sys: System, r: Rank, p: Rank, g: nat, i: nat)
    requires WellFormed(sys) && r < sys.world && i <= |sys.prog[r]| && MeetOnlyIn(sys, r, p, g)
    ensures TokensOf(sys, g, Flat(Table(sys), Common(sys, r, p, i)), EdgeEpochs(sys, r, p, i))
  {
    hide Registered, PairAgree, EpochsBefore, OpTok, Table;
    if i > 0 {
      EdgeIsTokens(sys, r, p, g, i - 1);
      var c := sys.prog[r][i - 1];
      var op := sys.ops[c];
      if p in op.ranks {
        FlatSnoc(Table(sys), Common(sys, r, p, i - 1), c);
        CallIsTokens(sys, r, g, i - 1);
        hide EdgeEpochs, Flat, Common, MeetOnlyIn;
      }
    }
  }

  lemma CallIsTokens(sys: System, r: Rank, g: nat, i: nat)
    requires WellFormed(sys) && r < sys.world && i < |sys.prog[r]| && sys.ops[sys.prog[r][i]].gid == g
    ensures var op := sys.ops[sys.prog[r][i]];
      TokensOf(sys, g, Table(sys)[sys.prog[r][i]], BarEpochs(op, EpochsBefore(sys, r, g, i), Bars(op)))
  {
    hide Registered, PairAgree, EpochsBefore, EpochOfBar, OpTok;
    var c := sys.prog[r][i];
    forall b | 0 <= b < Bars(sys.ops[c])
      ensures Table(sys)[c][b] == sys.tok(g, EpochsBefore(sys, r, g, i) + EpochOfBar(sys.ops[c], b))
    {
      TokenAgreement(sys, r, i, b);
    }
  }

  /** The remap from 0 to 1 merges these two epochs. */
  predicate Merged(nonce: nat, g: nat, e: nat, f: nat) {
    || (EpochHash(nonce, g, e) == 0 && EpochHash(nonce, g, f) == 1)
    || (EpochHash(nonce, g, e) == 1 && EpochHash(nonce, g, f) == 0)
  }

  lemma TokensEqual(nonce: nat, g: nat, e: nat, f: nat)
    requires e < TWO64 && f < TWO64 && e != f
    ensures ToNat(ComputeToken(nonce, g, e)) == ToNat(ComputeToken(nonce, g, f)) <==> Merged(nonce, g, e, f)
    ensures ToNat(ComputeToken(nonce, g, e)) != 0
  {
    hide EpochHash, ComputeToken, Low64, ToNat;
    TokenCollision(nonce, g, e, f);
    if Low64(e) == Low64(f) { Low64Distinct(e, f); }
    TokenNonzero(nonce, g, e);
    var a, b := ComputeToken(nonce, g, e), ComputeToken(nonce, g, f);
    if ToNat(a) == ToNat(b) { ToNatInjective(a, b); }
    ToNatZero();
    if ToNat(a) == 0 { ToNatInjective(a, 0); }
  }

  lemma ToNatZero()
    ensures ToNat(0) == 0
  {
  }

  /** Ranks that meet in one group of fewer than 2^64 epochs have a fresh edge exactly when
      the merged pair of epochs does not fall two barriers apart on it. */
  lemma FreshExactly(sys: System, nonce: nat, r: Rank, p: Rank, g: nat)
    requires WellFormed(sys) && RealTokens(sys, nonce) && r < sys.world && MeetOnlyIn(sys, r, p, g)
    requires EpochsBefore(sys, r, g, |sys.prog[r]|) <= TWO64
    ensures var es := EdgeEpochs(sys, r, p, |sys.prog[r]|);
      SlotFresh(Edge(sys, r, p)) <==> forall i :: 2 <= i < |es| ==> !Merged(nonce, g, es[i - 2], es[i])
  {
    var n := |sys.prog[r]|;
    var es, ts := EdgeEpochs(sys, r, p, n), Edge(sys, r, p);
    EdgeEpochsGrow(sys, r, p, g, n);
    EdgeIsTokens(sys, r, p, g, n);
    hide Registered, PairAgree, Merged, ToNat, ComputeToken;
    assert |ts| == |es|;
    forall i | 0 <= i < |ts|
      ensures ts[i] != Before(ts, i) <==> (i < 2 || !Merged(nonce, g, es[i - 2], es[i]))
    {
      assert ts[i] == sys.tok(g, es[i]);
      if i >= 2 {
        assert ts[i - 2] == sys.tok(g, es[i - 2]);
        TokensEqual(nonce, g, es[i - 2], es[i]);
      } else {
        TokensEqual(nonce, g, es[i], if es[i] == 0 then 1 else 0);
      }
    }
  }

  /** Two fused calls of such a pair also get different step bases, short of the merged pair. */
  lemma StepBasesDiffer(sys: System, nonce: nat, r: Rank, p: Rank, g: nat, c: OpId, d: OpId)
    requires WellFormed(sys) && RealTokens(sys, nonce) && r < sys.world && MeetOnlyIn(sys, r, p, g)
    requires EpochsBefore(sys, r, g, |sys.prog[r]|) <= TWO64
    requires c < |sys.ops| && d < |sys.ops| && SharesSteps(sys, c, d, r, p)
    ensures OpBase(sys, c) == OpBase(sys, d) <==> Merged(nonce, g, OpEpoch(sys, c) + 1, OpEpoch(sys, d) + 1)
  {
    hide Registered, PairAgree, Merged, ToNat, ComputeToken;
    var i, j := Idx(sys, r, c), Idx(sys, r, d);
    EpochAgreement(sys, r, c);
    EpochAgreement(sys, r, d);
    assert sys.ops[c].gid == g && sys.ops[d].gid == g;
    assert i != j;
    NotBare(sys, c);
    NotBare(sys, d);
    FusedStep(sys, r, g, i);
    FusedStep(sys, r, g, j);
    if i < j { EpochsGrow(sys, r, g, i + 1, j); } else { EpochsGrow(sys, r, g, j + 1, i); }
    TokensEqual(nonce, g, OpEpoch(sys, c) + 1, OpEpoch(sys, d) + 1);
  }

  lemma NotBare(sys: System, c: OpId)
    requires WellFormed(sys) && c < |sys.ops| && IsFused(sys.ops[c])
    ensures !sys.ops[c].kind.Bare?
  {
    assert ValidOp(sys, sys.ops[c]);
  }

  lemma FusedStep(sys: System, r: Rank, g: nat, i: nat)
    requires Shape(sys) && r < sys.world && i < |sys.prog[r]|
    requires var op := sys.ops[sys.prog[r][i]]; op.gid == g && IsFused(op) && !op.kind.Bare?
    ensures EpochsBefore(sys, r, g, i) + 3 == EpochsBefore(sys, r, g, i + 1) <= EpochsBefore(sys, r, g, |sys.prog[r]|)
  {
    EpochsGrow(sys, r, g, i + 1, |sys.prog[r]|);
  }

  lemma {:induction false} EpochsGrow(sys: System, r: Rank, g: nat, i: nat, j: nat)
    requires Shape(sys) && r < sys.world && i <= j <= |sys.prog[r]|
    ensures EpochsBefore(sys, r, g, i) <= EpochsBefore(sys, r, g, j)
    decreases j
  {
    if i < j { EpochsGrow(sys, r, g, i, j - 1); }
  }

  /** A single group of any ranks is fresh until its counter passes the one epoch that
      hashes to zero: there the barrier's hypothesis holds outright. */
  lemma OneGroupIsFresh(sys: System, nonce: nat, g: nat)
    requires WellFormed(sys) && RealTokens(sys, nonce)
    requires forall c :: 0 <= c < |sys.ops| ==> sys.ops[c].gid == g
    requires forall r :: 0 <= r < sys.world ==> EpochsBefore(sys, r, g, |sys.prog[r]|) <= TWO64
    requires forall r, e: nat :: 0 <= r < sys.world && e < EpochsBefore(sys, r, g, |sys.prog[r]|) ==>
        EpochHash(nonce, g, e) != 0
    ensures Fresh(sys)
  {
    hide Registered, PairAgree, EpochHash;
    forall r, p | 0 <= r < sys.world && 0 <= p < sys.world ensures SlotFresh(Edge(sys, r, p)) {
      FreshExactly(sys, nonce, r, p, g);
      EdgeEpochsGrow(sys, r, p, g, |sys.prog[r]|);
    }
  }

  /** The token of this epoch is a step base whose first `chunks` targets do not wrap to zero. */
  predicate SafeBase(nonce: nat, g: nat, e: nat, chunks: nat) {
    EpochHash(nonce, g, e) != 0 && ToNat(EpochHash(nonce, g, e)) + chunks < TWO64
  }

  /** And its fused calls meet the step pad's hypothesis as long as no step-base epoch
      hashes to zero or into the top `maxChunks` words. */
  lemma OneGroupIsStepFresh(sys: System, nonce: nat, g: nat)
    requires WellFormed(sys) && RealTokens(sys, nonce)
    requires forall c :: 0 <= c < |sys.ops| ==> sys.ops[c].gid == g
    requires forall r :: 0 <= r < sys.world ==> EpochsBefore(sys, r, g, |sys.prog[r]|) <= TWO64
    requires forall c :: 0 <= c < |sys.ops| && IsFused(sys.ops[c]) ==>
      SafeBase(nonce, g, OpEpoch(sys, c) + 1, sys.maxChunks)
    ensures StepFresh(sys)
  {
    hide Registered, PairAgree, EpochHash, OpEpoch, ToNat;
    forall c, d, r, p | 0 <= c < |sys.ops| && 0 <= d < |sys.ops| && SharesSteps(sys, c, d, r, p)
      ensures OpBase(sys, c) != OpBase(sys, d)
    {
      MemberInWorld(sys, r, c);
      StepBasesDiffer(sys, nonce, r, p, g, c, d);
    }
    forall c, k | 0 <= c < |sys.ops| && IsFused(sys.ops[c]) && 0 <= k < sys.maxChunks ensures Target(sys, c, k) != 0 {
      TargetNonzero(sys, nonce, g, c, k);
    }
  }

  lemma TargetNonzero(sys: System, nonce: nat, g: nat, c: OpId, k: nat)
    requires WellFormed(sys) && RealTokens(sys, nonce) && c < |sys.ops| && sys.ops[c].gid == g
    requires k < sys.maxChunks && SafeBase(nonce, g, OpEpoch(sys, c) + 1, sys.maxChunks)
    ensures Target(sys, c, k) != 0
  {
    hide Registered, PairAgree, EpochHash, OpEpoch, ToNat;
    var base := OpBase(sys, c);
    assert base == ToNat(EpochHash(nonce, g, OpEpoch(sys, c) + 1));
    SmallMod(base + k + 1);
  }
}
