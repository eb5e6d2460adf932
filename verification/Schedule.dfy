/** Calls, per-rank programs, and what the two ends of an edge agree on.

    A system is a set of calls (operations) and, for every rank, the order in which
    that rank submits the calls it takes part in.  Everything the protocol needs to
    know about submission order is derived here: epochs, tokens, the sequence of
    tokens that crosses each edge, and the fact that both ends see the same one. */
module Schedule {
  import opened Words

  type Rank = nat
  type OpId = nat

  datatype Kind = Bare | AllGather | AllToAll | Put | Get

  /** How a call moves its bytes.  `Pipelined` holds the nominal piece size and the
      number of pieces of the chunk layout; `Fused` the bytes per channel and per chunk. */
  datatype Path = OneShot | Pipelined(nominal: nat, pieces: nat) | Fused(partition: nat, chunk: nat)

  /** One call on a group: `ranks` is the ordered group, `slice` the per-peer byte
      count and `inputs[i]` the bytes that `ranks[i]` passes in. For `Put` and `Get`
      the group is `[source, destination]`. */
  datatype Op = Op(gid: nat, ranks: seq<Rank>, kind: Kind, path: Path, slice: nat, inputs: seq<seq<bv8>>)

  /** `tok(gid, epoch)` is the token function; `channels` and `maxChunks` size the step pad. */
  datatype System = System(
    world: nat,
    channels: nat,
    maxChunks: nat,
    tok: (nat, nat) -> U64,
    ops: seq<Op>,
    prog: seq<seq<OpId>>)

  // ---------------------------------------------------------------- sequences

  function IndexOf<T(==)>(s: seq<T>, x: T): (i: nat)
    requires x in s
    ensures i < |s| && s[i] == x
    ensures x !in s[..i]
  {
    if s[0] == x then 0 else 1 + IndexOf(s[1..], x)
  }

  ghost predicate Distinct<T>(s: seq<T>) {
    forall i, j :: 0 <= i < j < |s| ==> s[i] != s[j]
  }

  lemma IndexUnique<T>(s: seq<T>, i: nat)
    requires Distinct(s) && i < |s|
    ensures IndexOf(s, s[i]) == i
  {
  }

  // -------------------------------------------------------------- call shapes

  predicate IsFused(op: Op) { op.path.Fused? }

  /** Barriers a call issues on the main stream. */
  function Bars(op: Op): nat {
    if op.kind.Bare? then 1
    else match op.path
      case OneShot => 2
      case Pipelined(_, pieces) => pieces + 1
      case Fused(_, _) => 2
  }

  /** Epochs a call consumes: the fused path takes one more, for its step base. */
  function Epochs(op: Op): nat {
    if op.kind.Bare? then 1
    else match op.path
      case OneShot => 2
      case Pipelined(_, pieces) => pieces + 1
      case Fused(_, _) => 3
  }

  /** Which of the call's epochs names its `b`-th barrier. */
  function EpochOfBar(op: Op, b: nat): nat {
    if IsFused(op) && b == 1 then 2 else b
  }

  function StageLen(op: Op): nat {
    if op.kind.AllToAll? then |op.ranks| * op.slice else op.slice
  }

  /** Chunk `k` of channel `ch` holds at least one byte. */
  predicate ValidChunk(op: Op, ch: nat, k: nat) {
    match op.path
    case Fused(p, q) => ch * p < op.slice && k * q < (if p < op.slice - ch * p then p else op.slice - ch * p)
    case _ => false
  }

  /** Every rank of the group is a different rank of the world; sizes fit the call;
      the step pad has a cell for every chunk. */
  ghost predicate ValidOp(sys: System, op: Op) {
    && |op.ranks| > 0
    && Distinct(op.ranks)
    && (forall i :: 0 <= i < |op.ranks| ==> op.ranks[i] < sys.world)
    && (op.kind.Bare? ==> op.path.OneShot?)
    && (!op.kind.Bare? ==>
      && op.slice > 0
      && |op.inputs| == |op.ranks|
      && (op.kind.AllGather? || op.kind.AllToAll? ==> forall i :: 0 <= i < |op.ranks| ==>
          |op.inputs[i]| == StageLen(op))
      && (op.kind.Put? || op.kind.Get? ==> op.path.OneShot? && |op.ranks| == 2 && |op.inputs[0]| == op.slice))
    && (op.path.Pipelined? ==>
      && op.path.nominal > 0 && op.path.pieces > 0
      && (forall off :: 0 <= off < op.slice ==> off / op.path.nominal < op.path.pieces))
    && (op.path.Fused? ==>
      && op.path.partition > 0 && op.path.chunk > 0
      && (forall ch: nat, k: nat :: ValidChunk(op, ch, k) ==> ch < sys.channels && k < sys.maxChunks))
  }

  // ---------------------------------------------------------------- programs

  /** `f` lists calls of the system. */
  ghost predicate Ids(sys: System, f: seq<OpId>) {
    forall i :: 0 <= i < |f| ==> f[i] < |sys.ops|
  }

  ghost predicate Shape(sys: System) {
    && |sys.prog| == sys.world
    && (forall r :: 0 <= r < sys.world ==> Ids(sys, sys.prog[r]))
  }

  /** The calls among rank `r`'s first `i` that also involve `p`, in order. */
  ghost function Common(sys: System, r: Rank, p: Rank, i: nat): (f: seq<OpId>)
    requires Shape(sys) && r < sys.world && i <= |sys.prog[r]|
    ensures Ids(sys, f)
  {
    if i == 0 then []
    else
      var c := sys.prog[r][i - 1];
      var f := Common(sys, r, p, i - 1);
      if p in sys.ops[c].ranks then f + [c] else f
  }

  /** Both ends of every pair submit the calls they share in the same order. */
  ghost predicate PairAgree(sys: System)
    requires Shape(sys)
  {
    forall r, p :: 0 <= r < sys.world && 0 <= p < sys.world ==>
      Common(sys, r, p, |sys.prog[r]|) == Common(sys, p, r, |sys.prog[p]|)
  }

  ghost predicate Registered(sys: System)
    requires Shape(sys)
  {
    && (forall r :: 0 <= r < sys.world ==> Distinct(sys.prog[r]))
    && (forall r, c :: 0 <= r < sys.world && 0 <= c < |sys.ops| ==> (c in sys.prog[r] <==> r in sys.ops[c].ranks))
    && (forall c :: 0 <= c < |sys.ops| ==> ValidOp(sys, sys.ops[c]))
    && (forall c, d :: 0 <= c < |sys.ops| && 0 <= d < |sys.ops| && sys.ops[c].gid == sys.ops[d].gid ==>
      sys.ops[c].ranks == sys.ops[d].ranks)
  }

  /** A well-formed run: every member submits each call once, a group id names one
      ordered rank list, and every pair agrees on the order of its shared calls. */
  ghost predicate WellFormed(sys: System) {
    Shape(sys) && Registered(sys) && PairAgree(sys)
  }

  /** Where rank `r` submits call `c`. */
  ghost function Idx(sys: System, r: Rank, c: OpId): (i: nat)
    requires WellFormed(sys) && c < |sys.ops| && r in sys.ops[c].ranks
    ensures r < sys.world && i < |sys.prog[r]| && sys.prog[r][i] == c
  {
    assert c in sys.prog[r] by { MemberInWorld(sys, r, c); }
    IndexOf(sys.prog[r], c)
  }

  lemma MemberInWorld(sys: System, r: Rank, c: OpId)
    requires WellFormed(sys) && c < |sys.ops| && r in sys.ops[c].ranks
    ensures r < sys.world && c in sys.prog[r]
  {
    assert ValidOp(sys, sys.ops[c]);
    var i :| 0 <= i < |sys.ops[c].ranks| && sys.ops[c].ranks[i] == r;
  }

  lemma IdxAt(sys: System, r: Rank, i: nat)
    requires WellFormed(sys) && r < sys.world && i < |sys.prog[r]|
    ensures sys.prog[r][i] < |sys.ops| && r in sys.ops[sys.prog[r][i]].ranks
    ensures Idx(sys, r, sys.prog[r][i]) == i
  {
    assert sys.prog[r][i] in sys.prog[r];
    IndexUnique(sys.prog[r], i);
  }

  // ----------------------------------------------------- what a pair agrees on

  lemma {:induction false} CommonPrefix(sys: System, r: Rank, p: Rank, i: nat, j: nat)
    requires Shape(sys) && r < sys.world && i <= j <= |sys.prog[r]|
    ensures Common(sys, r, p, i) <= Common(sys, r, p, j)
    decreases j
  {
    if i < j { CommonPrefix(sys, r, p, i, j - 1); }
  }

  lemma {:induction false} CommonFromProgram(sys: System, r: Rank, p: Rank, i: nat)
    requires Shape(sys) && r < sys.world && i <= |sys.prog[r]| && Distinct(sys.prog[r])
    ensures forall k :: 0 <= k < |Common(sys, r, p, i)| ==> Common(sys, r, p, i)[k] in sys.prog[r][..i]
    ensures Distinct(Common(sys, r, p, i))
  {
    if i > 0 {
      CommonFromProgram(sys, r, p, i - 1);
      assert sys.prog[r][..i] == sys.prog[r][..i - 1] + [sys.prog[r][i - 1]];
      assert sys.prog[r][i - 1] !in sys.prog[r][..i - 1];
    }
  }

  lemma SamePlace<T>(f: seq<T>, a: seq<T>, b: seq<T>, c: T)
    requires Distinct(f) && a + [c] <= f && b + [c] <= f
    ensures a == b
  {
    assert f[|a|] == (a + [c])[|a|] == c;
    assert f[|b|] == (b + [c])[|b|] == c;
    assert a == f[..|a|] && b == f[..|b|];
  }

  /** Just before a shared call the two ends have shared exactly the same calls. */
  lemma PrefixAgree(sys: System, r: Rank, p: Rank, c: OpId)
    requires WellFormed(sys) && c < |sys.ops| && r in sys.ops[c].ranks && p in sys.ops[c].ranks
    ensures Common(sys, r, p, Idx(sys, r, c)) == Common(sys, p, r, Idx(sys, p, c))
  {
    var i, j := Idx(sys, r, c), Idx(sys, p, c);
    var f := Common(sys, r, p, |sys.prog[r]|);
    CommonPrefix(sys, r, p, i + 1, |sys.prog[r]|);
    CommonPrefix(sys, p, r, j + 1, |sys.prog[p]|);
    CommonFromProgram(sys, r, p, |sys.prog[r]|);
    var a, b := Common(sys, r, p, i), Common(sys, p, r, j);
    SamePlace(f, a, b, c);
  }

  // ------------------------------------------------------------------ epochs

  /** Epochs rank `r` has issued for group id `g` before its `i`-th call. */
  ghost function EpochsBefore(sys: System, r: Rank, g: nat, i: nat): nat
    requires Shape(sys) && r < sys.world && i <= |sys.prog[r]|
  {
    if i == 0 then 0
    else
      var op := sys.ops[sys.prog[r][i - 1]];
      EpochsBefore(sys, r, g, i - 1) + (if op.gid == g then Epochs(op) else 0)
  }

  ghost function SumEpochs(sys: System, g: nat, f: seq<OpId>): nat
    requires Ids(sys, f)
  {
    if f == [] then 0
    else
      var c := f[|f| - 1];
      SumEpochs(sys, g, f[..|f| - 1]) + (if sys.ops[c].gid == g then Epochs(sys.ops[c]) else 0)
  }

  lemma {:induction false} EpochsFromCommon(sys: System, r: Rank, p: Rank, c: OpId, i: nat)
    requires WellFormed(sys) && c < |sys.ops| && p in sys.ops[c].ranks
    requires r < sys.world && i <= |sys.prog[r]|
    ensures EpochsBefore(sys, r, sys.ops[c].gid, i) == SumEpochs(sys, sys.ops[c].gid, Common(sys, r, p, i))
  {
    CommonFromProgram(sys, r, p, i);
    if i > 0 {
      EpochsFromCommon(sys, r, p, c, i - 1);
      var d := sys.prog[r][i - 1];
      var f := Common(sys, r, p, i - 1);
      assert (f + [d])[..|f|] == f;
    }
  }

  /** The epoch at which call `c` starts, as its first member counts it. */
  ghost function OpEpoch(sys: System, c: OpId): nat
    requires WellFormed(sys) && c < |sys.ops|
  {
    assert ValidOp(sys, sys.ops[c]);
    var r := sys.ops[c].ranks[0];
    EpochsBefore(sys, r, sys.ops[c].gid, Idx(sys, r, c))
  }

  /** Every member issues the same epochs for a call, whatever it does on other groups. */
  lemma EpochAgreement(sys: System, r: Rank, c: OpId)
    requires WellFormed(sys) && c < |sys.ops| && r in sys.ops[c].ranks
    ensures EpochsBefore(sys, r, sys.ops[c].gid, Idx(sys, r, c)) == OpEpoch(sys, c)
  {
    assert ValidOp(sys, sys.ops[c]);
    var p := sys.ops[c].ranks[0];
    PrefixAgree(sys, r, p, c);
    EpochsFromCommon(sys, r, p, c, Idx(sys, r, c));
    EpochsFromCommon(sys, p, r, c, Idx(sys, p, c));
  }

  // ------------------------------------------------------------------ tokens

  /** The token rank `r` computes for barrier `b` of its `i`-th call. */
  ghost function Token(sys: System, r: Rank, i: nat, b: nat): U64
    requires Shape(sys) && r < sys.world && i < |sys.prog[r]|
  {
    var op := sys.ops[sys.prog[r][i]];
    sys.tok(op.gid, EpochsBefore(sys, r, op.gid, i) + EpochOfBar(op, b))
  }

  /** The step base rank `r` computes for its `i`-th call. */
  ghost function StepBase(sys: System, r: Rank, i: nat): U64
    requires Shape(sys) && r < sys.world && i < |sys.prog[r]|
  {
    var op := sys.ops[sys.prog[r][i]];
    sys.tok(op.gid, EpochsBefore(sys, r, op.gid, i) + 1)
  }

  ghost function OpTok(sys: System, c: OpId, b: nat): U64
    requires WellFormed(sys) && c < |sys.ops|
  {
    sys.tok(sys.ops[c].gid, OpEpoch(sys, c) + EpochOfBar(sys.ops[c], b))
  }

  ghost function OpBase(sys: System, c: OpId): U64
    requires WellFormed(sys) && c < |sys.ops|
  {
    sys.tok(sys.ops[c].gid, OpEpoch(sys, c) + 1)
  }

  /** Token agreement: all members compute the same token for every barrier of a call,
      and the same step base. */
  lemma TokenAgreement(sys: System, r: Rank, i: nat, b: nat)
    requires WellFormed(sys) && r < sys.world && i < |sys.prog[r]|
    ensures Token(sys, r, i, b) == OpTok(sys, sys.prog[r][i], b)
    ensures StepBase(sys, r, i) == OpBase(sys, sys.prog[r][i])
  {
    IdxAt(sys, r, i);
    EpochAgreement(sys, r, sys.prog[r][i]);
  }

  /** For every call, the tokens of its barriers in order. */
  ghost function Table(sys: System): (t: seq<seq<U64>>)
    requires WellFormed(sys)
    ensures |t| == |sys.ops|
    ensures forall c :: 0 <= c < |t| ==> |t[c]| == Bars(sys.ops[c])
    ensures forall c, b :: 0 <= c < |t| && 0 <= b < |t[c]| ==> t[c][b] == OpTok(sys, c, b)
  {
    seq(|sys.ops|, c requires 0 <= c < |sys.ops| =>
      seq(Bars(sys.ops[c]), b requires 0 <= b => OpTok(sys, c, b)))
  }

  /** The entries of a table picked by `f`, one after another. */
  ghost function Flat(t: seq<seq<U64>>, f: seq<OpId>): seq<U64>
    requires forall i :: 0 <= i < |f| ==> f[i] < |t|
  {
    if f == [] then [] else Flat(t, f[..|f| - 1]) + t[f[|f| - 1]]
  }

  lemma FlatSnoc(t: seq<seq<U64>>, f: seq<OpId>, c: OpId)
    requires (forall i :: 0 <= i < |f| ==> f[i] < |t|) && c < |t|
    ensures Flat(t, f + [c]) == Flat(t, f) + t[c]
  {
    assert (f + [c])[..|f|] == f;
  }

  lemma {:induction false} FlatPrefix(t: seq<seq<U64>>, f: seq<OpId>, g: seq<OpId>)
    requires f <= g && forall i :: 0 <= i < |g| ==> g[i] < |t|
    ensures forall i :: 0 <= i < |f| ==> f[i] < |t|
    ensures Flat(t, f) <= Flat(t, g)
    decreases |g|
  {
    assert forall i :: 0 <= i < |f| ==> f[i] == g[i];
    if |f| < |g| {
      assert f <= g[..|g| - 1];
      FlatPrefix(t, f, g[..|g| - 1]);
    } else {
      assert f == g;
    }
  }

  lemma FlatAt(t: seq<seq<U64>>, f: seq<OpId>, c: OpId, g: seq<OpId>, b: nat)
    requires f + [c] <= g && forall i :: 0 <= i < |g| ==> g[i] < |t|
    requires c < |t| && b < |t[c]|
    ensures forall i :: 0 <= i < |f| ==> f[i] < |t|
    ensures |Flat(t, f)| + b < |Flat(t, g)|
    ensures Flat(t, g)[|Flat(t, f)| + b] == t[c][b]
  {
    assert f <= g;
    FlatPrefix(t, f, g);
    FlatSnoc(t, f, c);
    FlatPrefix(t, f + [c], g);
  }

  /** Barriers on the edge from `r` to `p` that precede `r`'s `i`-th call. */
  ghost function EdgeBase(sys: System, r: Rank, p: Rank, i: nat): nat
    requires WellFormed(sys) && r < sys.world && i <= |sys.prog[r]|
  {
    |Flat(Table(sys), Common(sys, r, p, i))|
  }

  /** All the tokens that rank `r` sends on its edge to `p`, in order. */
  ghost function Edge(sys: System, r: Rank, p: Rank): seq<U64>
    requires WellFormed(sys) && r < sys.world
  {
    Flat(Table(sys), Common(sys, r, p, |sys.prog[r]|))
  }

  /** Both ends of an edge expect the same token sequence. */
  lemma EdgeSymmetric(sys: System, r: Rank, p: Rank)
    requires WellFormed(sys) && r < sys.world && p < sys.world
    ensures Edge(sys, r, p) == Edge(sys, p, r)
  {
  }

  lemma EdgeBaseStep(sys: System, r: Rank, p: Rank, i: nat)
    requires WellFormed(sys) && r < sys.world && i < |sys.prog[r]|
    ensures EdgeBase(sys, r, p, i + 1) == EdgeBase(sys, r, p, i)
              + (if p in sys.ops[sys.prog[r][i]].ranks then Bars(sys.ops[sys.prog[r][i]]) else 0)
  {
    FlatSnoc(Table(sys), Common(sys, r, p, i), sys.prog[r][i]);
  }

  lemma {:induction false} EdgeBaseMonotone(sys: System, r: Rank, p: Rank, i: nat, j: nat)
    requires WellFormed(sys) && r < sys.world && i <= j <= |sys.prog[r]|
    ensures EdgeBase(sys, r, p, i) <= EdgeBase(sys, r, p, j)
  {
    CommonPrefix(sys, r, p, i, j);
    FlatPrefix(Table(sys), Common(sys, r, p, i), Common(sys, r, p, j));
  }

  /** Just before a shared call both ends have the same number of barriers behind them. */
  lemma EdgeBaseAgree(sys: System, r: Rank, p: Rank, c: OpId)
    requires WellFormed(sys) && c < |sys.ops| && r in sys.ops[c].ranks && p in sys.ops[c].ranks
    ensures EdgeBase(sys, r, p, Idx(sys, r, c)) == EdgeBase(sys, p, r, Idx(sys, p, c))
  {
    PrefixAgree(sys, r, p, c);
  }

  /** Barrier `b` of rank `r`'s `i`-th call sits at a known place of the edge, carrying
      the token that `r` itself computes. */
  lemma EdgeToken(sys: System, r: Rank, p: Rank, i: nat, b: nat)
    requires WellFormed(sys) && r < sys.world && i < |sys.prog[r]|
    requires p in sys.ops[sys.prog[r][i]].ranks && b < Bars(sys.ops[sys.prog[r][i]])
    ensures EdgeBase(sys, r, p, i) + b < |Edge(sys, r, p)|
    ensures Edge(sys, r, p)[EdgeBase(sys, r, p, i) + b] == Token(sys, r, i, b)
  {
    var c, f, g := sys.prog[r][i], Common(sys, r, p, i), Common(sys, r, p, |sys.prog[r]|);
    assert f + [c] <= g by { CommonPrefix(sys, r, p, i + 1, |sys.prog[r]|); }
    FlatAt(Table(sys), f, c, g, b);
    assert Table(sys)[c][b] == OpTok(sys, c, b);
    TokenAgreement(sys, r, i, b);
  }

  // --------------------------------------------------------------- freshness

  /** A token differs from the value its slot held before: the token two positions
      earlier on the edge, or the initial zero. */
  predicate SlotFresh(e: seq<U64>) {
    forall i :: 0 <= i < |e| ==> e[i] != Before(e, i)
  }

  function Before(e: seq<U64>, i: nat): U64
    requires i < |e|
  {
    if i >= 2 then e[i - 2] else 0
  }

  /** Every edge between two different ranks is fresh. A rank's edge to itself needs
      nothing: there the store and the look are in one program. */
  ghost predicate Fresh(sys: System)
    requires WellFormed(sys)
  {
    forall r, p :: 0 <= r < sys.world && 0 <= p < sys.world && r != p ==> SlotFresh(Edge(sys, r, p))
  }

  /** The value the fused path publishes for chunk `k` of call `c`. */
  ghost function Target(sys: System, c: OpId, k: nat): U64
    requires WellFormed(sys) && c < |sys.ops|
  {
    (OpBase(sys, c) + k + 1) % TWO64
  }

  /** Two fused calls whose step cells between `r` and `p` are the same cells. */
  ghost predicate SharesSteps(sys: System, c: OpId, d: OpId, r: Rank, p: Rank)
    requires c < |sys.ops| && d < |sys.ops|
  {
    && c != d && r != p
    && IsFused(sys.ops[c]) && r in sys.ops[c].ranks && p in sys.ops[c].ranks
    && IsFused(sys.ops[d]) && r in sys.ops[d].ranks && p in sys.ops[d].ranks
  }

  /** Fused calls that share a pair of ranks use different step bases, and no chunk
      target is zero. */
  ghost predicate StepFresh(sys: System)
    requires WellFormed(sys)
  {
    && (forall c, d, r, p :: 0 <= c < |sys.ops| && 0 <= d < |sys.ops| && SharesSteps(sys, c, d, r, p) ==>
      OpBase(sys, c) != OpBase(sys, d))
    && (forall c, k :: 0 <= c < |sys.ops| && IsFused(sys.ops[c]) && 0 <= k < sys.maxChunks ==> Target(sys, c, k) != 0)
  }
}
