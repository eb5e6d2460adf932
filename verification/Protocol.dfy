/** The runtime as a transition system: all ranks, all streams, all shared memory.

    A rank works through its program call by call.  Inside a call its main stream
    alternates kernels and barriers, and every kernel is a set of byte copies that may
    run in any order the streams, events and kernel loops leave open.  One step of the
    system is one publish, one successful wait, one byte copy, one step-pad store, one
    satisfied step-pad poll, or one kernel or call ending, by any rank. */
module Protocol {
  import opened Words
  import opened Schedule

  // ------------------------------------------------------------- byte copies

  /** One byte moved on behalf of a call.  `Stage(a)` fills the caller's own comm buffer
      at `a`; `Pull(i, off)` brings byte `off` from member `i`; `SelfCopy` is the fused
      sender's direct write to the output; `PutByte` writes the partner's comm buffer;
      `CopyOut` drains it into the receiver's tensor. */
  datatype Copy =
    | Stage(a: nat)
    | Pull(i: nat, off: nat)
    | SelfCopy(off: nat)
    | PutByte(off: nat)
    | CopyOut(off: nat)

  datatype Loc = Comm(rank: Rank, addr: nat) | Out(rank: Rank, call: nat, addr: nat)

  /** The slice a member reads from each peer's comm buffer. */
  function Sel(op: Op, me: nat): nat {
    if op.kind.AllToAll? then me else 0
  }

  /** The copies member `me` performs for the call. */
  predicate Valid(op: Op, me: nat, x: Copy) {
    && !op.kind.Bare?
    && match x
       case Stage(a) => a < StageLen(op) && (op.kind.Put? || op.kind.Get? ==> me == 0)
       case Pull(i, off) =>
         && off < op.slice
         && (if op.kind.Get? then me == 1 && i == 0
             else !op.kind.Put? && i < |op.ranks| && (IsFused(op) ==> i != me))
       case SelfCopy(off) => off < op.slice && IsFused(op)
       case PutByte(off) => off < op.slice && op.kind.Put? && me == 0
       case CopyOut(off) => off < op.slice && op.kind.Put? && me == 1
  }

  /** The piece of the chunk layout that a slice offset belongs to. */
  function Piece(op: Op, off: nat): nat {
    if op.path.Pipelined? && op.path.nominal > 0 then off / op.path.nominal else 0
  }

  /** The fused channel and chunk that a slice offset belongs to. */
  function CellOf(op: Op, off: nat): (nat, nat) {
    if op.path.Fused? && op.path.partition > 0 && op.path.chunk > 0
    then (off / op.path.partition, off % op.path.partition / op.path.chunk)
    else (0, 0)
  }

  /** The slice offset that a copy touches. */
  function Offset(op: Op, x: Copy): nat {
    match x
    case Stage(a) => if op.kind.AllToAll? && op.slice > 0 then a % op.slice else a
    case Pull(_, off) => off
    case SelfCopy(off) => off
    case PutByte(off) => off
    case CopyOut(off) => off
  }

  /** The copy must be finished before the call's barrier of this number is published. */
  function Hi(op: Op, x: Copy): nat {
    if IsFused(op) then 1
    else match x
      case Stage(_) => Piece(op, Offset(op, x))
      case Pull(_, off) => Piece(op, off) + 1
      case SelfCopy(_) => 1
      case PutByte(_) => 1
      case CopyOut(_) => 2
  }

  /** The number of the call's barriers the rank has passed before the copy may start. */
  function Lo(op: Op, x: Copy): nat {
    if x.Stage? && !IsFused(op) then 0 else Hi(op, x)
  }

  // ------------------------------------------------------------------- state

  /** A rank: its call, the barriers of the call it has passed, the edge programs of the
      current barrier that have published (with the slot each chose) and finished
      waiting, the copies made, the step cells stored, and the chunks whose cells the
      receiver has seen complete. */
  datatype RankState = RankState(
    at: nat,
    bar: nat,
    published: map<Rank, nat>,
    waited: set<Rank>,
    done: set<Copy>,
    posted: set<(nat, nat, Rank)>,
    seen: set<(nat, nat)>)

  /** `signal[(dst, slot, src)]` is destination `dst`'s cell for source `src`;
      `pad[(dst, cell)]` its step pad; absent entries hold the initial zero. */
  datatype State = State(
    ranks: seq<RankState>,
    edgeSeq: map<(Rank, Rank), nat>,
    signal: map<(Rank, nat, Rank), nat>,
    pad: map<(Rank, nat), nat>,
    mem: map<Loc, bv8>)

  function Val<K>(m: map<K, nat>, k: K): nat {
    if k in m then m[k] else 0
  }

  function Read(m: map<Loc, bv8>, l: Loc): bv8 {
    if l in m then m[l] else 0
  }

  function StartOf(at: nat): RankState {
    RankState(at, 0, map[], {}, {}, {}, {})
  }

  /** Position of `[channel][chunk][producer]` in a rank's step pad. */
  function Cell(sys: System, ch: nat, k: nat, p: Rank): nat {
    ch * sys.maxChunks * sys.world + k * sys.world + p
  }

  ghost predicate InitialState(sys: System, s: State) {
    && |s.ranks| == sys.world
    && (forall r :: 0 <= r < sys.world ==> s.ranks[r] == StartOf(0))
    && s.edgeSeq == map[] && s.signal == map[] && s.pad == map[]
  }

  // -------------------------------------------------- order inside one rank

  /** The sender of a channel has posted every chunk before `k`. */
  ghost predicate EarlierPosted(op: Op, me: nat, rs: RankState, cell: (nat, nat)) {
    forall k: nat, i: nat :: k < cell.1 && i < |op.ranks| && i != me ==> (cell.0, k, op.ranks[i]) in rs.posted
  }

  /** Stream, event and kernel order: what must have happened before copy `x` starts. */
  ghost predicate Ready(op: Op, me: nat, rs: RankState, x: Copy) {
    match x
    case Stage(_) =>
      if IsFused(op) then EarlierPosted(op, me, rs, CellOf(op, Offset(op, x)))
      else forall y: Copy :: y.Stage? && Valid(op, me, y) && Hi(op, y) < Hi(op, x) ==> y in rs.done
    case SelfCopy(off) => EarlierPosted(op, me, rs, CellOf(op, off))
    case Pull(_, off) => IsFused(op) ==> CellOf(op, off) in rs.seen
    case PutByte(_) => true
    case CopyOut(_) => true
  }

  /** All the copies the fused sender makes for one chunk are done. */
  ghost predicate ChunkStaged(op: Op, me: nat, rs: RankState, ch: nat, k: nat) {
    forall x: Copy :: Valid(op, me, x) && !x.Pull? && CellOf(op, Offset(op, x)) == (ch, k) ==> x in rs.done
  }

  /** All the copies the fused receiver makes for one chunk are done. */
  ghost predicate ChunkPulled(op: Op, me: nat, rs: RankState, ch: nat, k: nat) {
    forall x: Copy :: Valid(op, me, x) && x.Pull? && CellOf(op, Offset(op, x)) == (ch, k) ==> x in rs.done
  }

  ghost predicate AllPosted(op: Op, me: nat, rs: RankState) {
    forall ch: nat, k: nat, i: nat :: ValidChunk(op, ch, k) && i < |op.ranks| && i != me ==>
      (ch, k, op.ranks[i]) in rs.posted
  }

  ghost predicate CopiesDone(op: Op, me: nat, rs: RankState, upTo: nat) {
    forall x: Copy :: Valid(op, me, x) && Hi(op, x) <= upTo ==> x in rs.done
  }

  // -------------------------------------------------------------------- steps

  datatype Step =
    | Publish(r: Rank, p: Rank)
    | Wait(r: Rank, p: Rank)
    | Pass(r: Rank)
    | Move(r: Rank, x: Copy)
    | Post(r: Rank, ch: nat, k: nat, p: Rank)
    | See(r: Rank, ch: nat, k: nat)
    | Finish(r: Rank)

  ghost predicate Active(sys: System, s: State, r: Rank)
    requires Shape(sys)
  {
    |s.ranks| == sys.world && r < sys.world && s.ranks[r].at < |sys.prog[r]|
  }

  ghost function CurOp(sys: System, s: State, r: Rank): Op
    requires Shape(sys) && Active(sys, s, r)
  {
    sys.ops[sys.prog[r][s.ranks[r].at]]
  }

  /** The value this rank's fused kernel stores and waits for at chunk `k`. */
  ghost function LocalTarget(sys: System, s: State, r: Rank, k: nat): nat
    requires Shape(sys) && Active(sys, s, r)
  {
    (StepBase(sys, r, s.ranks[r].at) + k + 1) % TWO64
  }

  ghost predicate Member(op: Op, r: Rank) { r in op.ranks }

  ghost predicate Enabled(sys: System, s: State, step: Step)
    requires Shape(sys)
  {
    && Active(sys, s, step.r)
    && var rs := s.ranks[step.r];
    var op := CurOp(sys, s, step.r);
    && Member(op, step.r)
    && var me := IndexOf(op.ranks, step.r);
    match step
    case Publish(r, p) =>
      && Member(op, p) && rs.bar < Bars(op) && p !in rs.published
      && CopiesDone(op, me, rs, rs.bar)
      && (IsFused(op) && rs.bar == 1 ==> AllPosted(op, me, rs))
    case Wait(r, p) =>
      && p in rs.published && p !in rs.waited
      && Val(s.signal, (r, rs.published[p], p)) == Token(sys, r, rs.at, rs.bar)
    case Pass(r) =>
      && rs.bar < Bars(op)
      && (forall p :: p in op.ranks ==> p in rs.waited)
    case Move(r, x) =>
      && Valid(op, me, x) && x !in rs.done
      && Lo(op, x) <= rs.bar <= Hi(op, x)
      && Ready(op, me, rs, x)
    case Post(r, ch, k, p) =>
      && ValidChunk(op, ch, k) && rs.bar == 1
      && Member(op, p) && p != r && (ch, k, p) !in rs.posted
      && ChunkStaged(op, me, rs, ch, k)
    case See(r, ch, k) =>
      && ValidChunk(op, ch, k) && rs.bar == 1 && (ch, k) !in rs.seen
      && (forall k0: nat :: k0 < k ==> (ch, k0) in rs.seen && ChunkPulled(op, me, rs, ch, k0))
      && (forall p :: p in op.ranks && p != r ==>
        Val(s.pad, (r, Cell(sys, ch, k, p))) == LocalTarget(sys, s, r, k))
    case Finish(r) =>
      && rs.bar == Bars(op)
      && CopiesDone(op, me, rs, rs.bar)
  }

  /** The edge counter is 64 bits wide and wraps. */
  function Bump(n: nat): nat { (n + 1) % TWO64 }

  /** Where a copy reads: the caller's own input, or a member's comm buffer. */
  datatype Src = Input(i: nat, a: nat) | Peer(i: nat, a: nat)

  function Source(op: Op, me: nat, x: Copy): Src {
    match x
    case Stage(a) => Input(me, a)
    case SelfCopy(off) => Input(me, Sel(op, me) * op.slice + off)
    case Pull(i, off) => Peer(i, Sel(op, me) * op.slice + off)
    case PutByte(off) => Peer(0, off)
    case CopyOut(off) => Peer(1, off)
  }

  function CopyValue(op: Op, me: nat, mem: map<Loc, bv8>, x: Copy): bv8 {
    match Source(op, me, x)
    case Input(i, a) => if i < |op.inputs| && a < |op.inputs[i]| then op.inputs[i][a] else 0
    case Peer(i, a) => if i < |op.ranks| then Read(mem, Comm(op.ranks[i], a)) else 0
  }

  /** Where a copy writes. */
  function Destination(op: Op, me: nat, at: nat, x: Copy): Loc
    requires me < |op.ranks|
  {
    match x
    case Stage(a) => Comm(op.ranks[me], a)
    case SelfCopy(off) => Out(op.ranks[me], at, me * op.slice + off)
    case Pull(i, off) => Out(op.ranks[me], at, i * op.slice + off)
    case PutByte(off) => Comm(op.ranks[if |op.ranks| > 1 then 1 else me], off)
    case CopyOut(off) => Out(op.ranks[me], at, off)
  }

  /** What the step does to the acting rank's own progress. */
  ghost function RankAfter(sys: System, s: State, step: Step): RankState
    requires Shape(sys) && Enabled(sys, s, step)
  {
    var rs := s.ranks[step.r];
    match step
    case Publish(r, p) => rs.(published := rs.published[p := Val(s.edgeSeq, (r, p)) % 2])
    case Wait(r, p) => rs.(waited := rs.waited + {p})
    case Pass(r) => rs.(bar := rs.bar + 1, published := map[], waited := {})
    case Move(r, x) => rs.(done := rs.done + {x})
    case Post(r, ch, k, p) => rs.(posted := rs.posted + {(ch, k, p)})
    case See(r, ch, k) => rs.(seen := rs.seen + {(ch, k)})
    case Finish(r) => StartOf(rs.at + 1)
  }

  ghost function Do(sys: System, s: State, step: Step): State
    requires Shape(sys) && Enabled(sys, s, step)
  {
    var rs := s.ranks[step.r];
    var t := s.(ranks := s.ranks[step.r := RankAfter(sys, s, step)]);
    match step
    case Publish(r, p) =>
      var n := Val(s.edgeSeq, (r, p));
      t.(edgeSeq := s.edgeSeq[(r, p) := Bump(n)],
         signal := s.signal[(p, n % 2, r) := Token(sys, r, rs.at, rs.bar)])
    case Move(r, x) =>
      var op := CurOp(sys, s, r);
      var me := IndexOf(op.ranks, r);
      t.(mem := s.mem[Destination(op, me, rs.at, x) := CopyValue(op, me, s.mem, x)])
    case Post(r, ch, k, p) =>
      t.(pad := s.pad[(p, Cell(sys, ch, k, r)) := LocalTarget(sys, s, r, k)])
    case _ => t
  }

  /** A run: `states[i + 1]` is what `steps[i]` makes of `states[i]`. */
  ghost predicate IsRun(sys: System, states: seq<State>, steps: seq<Step>)
    requires Shape(sys)
  {
    && |states| == |steps| + 1
    && InitialState(sys, states[0])
    && (forall i :: 0 <= i < |steps| ==>
      Enabled(sys, states[i], steps[i]) && states[i + 1] == Do(sys, states[i], steps[i]))
  }

  /** Every rank has finished every call. */
  ghost predicate Finished(sys: System, s: State)
    requires Shape(sys)
  {
    |s.ranks| == sys.world && forall r :: 0 <= r < sys.world ==> s.ranks[r].at == |sys.prog[r]|
  }
}
