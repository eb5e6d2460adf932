/** Submission of a collective: which checks run before anything is enqueued, and what is
    left behind when one fails later. */
module Dispatch {
  import opened Arithmetic
  import opened Autotune
  import opened GroupHost
  import opened FusedLayout
  import Bits
  import ChunkLayout
  import Protocol
  import Schedule

  datatype Settings = Settings(
    fused: Config, knobs: ChunkLayout.Knobs, enableFused: bool,
    numSms: nat, copySms: int, tmaEnabled: bool, copyEngine: bool)
  {
    ghost predicate Valid() {
      fused.Valid() && knobs.Valid() && knobs.alignment == fused.alignment && copySms > 0
    }
  }

  /** One all_gather or all2all on a registered group: `dst` is the output address,
      `chunks` the caller's choice of piece count, `policy` the autotuner's answer. */
  datatype Call = Call(gid: nat, allToAll: bool, groupSize: nat, slice: nat, dst: nat,
                       chunks: ChunkLayout.Choice, policy: Option<Policy>)

  /** What goes onto the streams. */
  datatype Kernel =
    | Stage(off: nat, size: nat)
    | BarrierKernel(gid: nat, epoch: nat)
    | FusedKernel(channels: int, chunk: int, stepEpoch: nat)
    | PullKernel(off: nat, size: nat, sms: int)
    | TmaKernel
    | CopyEngine

  /** The data path that a call ends up on. */
  datatype Plan = Fused(channels: int, chunk: int) | Pieces(pieces: seq<(nat, nat)>) | Whole(body: Kernel)

  datatype Outcome = Rejected | HalfIssued | Complete(plan: Plan)

  // --------------------------------------------------------- complete sequences

  function PiecesLog(gid: nat, e: nat, ps: seq<(nat, nat)>, sms: int): seq<Kernel> {
    if ps == [] then []
    else
      var k := |ps| - 1;
      PiecesLog(gid, e, ps[..k], sms)
        + [Stage(ps[k].0, ps[k].1), BarrierKernel(gid, e + k), PullKernel(ps[k].0, ps[k].1, sms)]
  }

  /** Pre-barriers, bodies and the post-barrier, from the first epoch `e`. */
  function LogOf(plan: Plan, call: Call, e: nat, sms: int): seq<Kernel> {
    match plan
    case Fused(channels, chunk) =>
      [BarrierKernel(call.gid, e), FusedKernel(channels, chunk, e + 1), BarrierKernel(call.gid, e + 2)]
    case Pieces(ps) => PiecesLog(call.gid, e, ps, sms) + [BarrierKernel(call.gid, e + |ps|)]
    case Whole(body) => [Stage(0, call.slice), BarrierKernel(call.gid, e), body, BarrierKernel(call.gid, e + 1)]
  }

  function EpochsOf(plan: Plan): nat {
    match plan
    case Fused(_, _) => 3
    case Pieces(ps) => |ps| + 1
    case Whole(_) => 2
  }

  // ------------------------------------------------------------ launcher checks

  predicate FusedLaunchable(s: Settings, slice: nat, channels: int, chunk: int)
    requires s.fused.alignment > 0 && s.fused.chunk > 0
  {
    && slice > 0 && channels > 0 && chunk > 0
    && CeilDiv(PartitionBytes(slice, channels, s.fused.alignment), chunk) <= s.fused.MaxChunksPerChannel()
  }

  predicate TmaGates(slice: nat, off: nat, dst: nat) {
    slice > 0 && slice % 16 == 0 && off % 16 == 0 && dst % 16 == 0
  }

  predicate PullLaunchable(size: nat, sms: int) {
    size > 0 && sms > 0
  }

  /** The launcher of the fused kernel refuses exactly a call with a chunk, of a whole
      partition, for which the pad has no step cell. */
  lemma FusedLaunchableExactly(s: Settings, slice: nat, channels: int, chunk: int)
    requires s.fused.alignment > 0 && s.fused.chunk > 0
    ensures FusedLaunchable(s, slice, channels, chunk) <==>
      && slice > 0 && channels > 0 && chunk > 0
      && (forall k: nat :: k * chunk < PartitionBytes(slice, channels, s.fused.alignment) ==>
        k < s.fused.MaxChunksPerChannel())
  {
    if slice > 0 && channels > 0 && chunk > 0 {
      var p, m := PartitionBytes(slice, channels, s.fused.alignment), s.fused.MaxChunksPerChannel();
      hide PartitionBytes, Config.MaxChunksPerChannel, CeilDiv;
      forall k: nat | k * chunk < p && CeilDiv(p, chunk) <= m ensures k < m { CeilDivAtMost(p, chunk, k); }
      CeilDivAtMost(p, chunk, m);
    }
  }

  /** The TMA gates are passed exactly when the slice is not empty and every peer's copy
      starts on 16 bytes, at its source and at its destination. */
  lemma TmaGatesExactly(slice: nat, off: nat, dst: nat)
    ensures TmaGates(slice, off, dst) <==>
      slice > 0 && forall i: nat :: Aligned16(off, slice, i) && Aligned16(dst, slice, i)
  {
    if TmaGates(slice, off, dst) {
      forall i: nat ensures Aligned16(off, slice, i) && Aligned16(dst, slice, i) {
        StrideAligned(off, slice, i);
        StrideAligned(dst, slice, i);
      }
    }
    assert Aligned16(off, slice, 0) <==> off % 16 == 0;
    assert Aligned16(dst, slice, 0) <==> dst % 16 == 0;
    assert Aligned16(off, slice, 1) <==> (off + slice) % 16 == 0;
  }

  predicate Aligned16(base: nat, stride: nat, i: nat) { (base + i * stride) % 16 == 0 }

  lemma StrideAligned(base: nat, stride: nat, i: nat)
    requires base % 16 == 0 && stride % 16 == 0
    ensures Aligned16(base, stride, i)
  {
    var q := i * (stride / 16);
    assert i * stride == 16 * q;
  }

  /** What the policy says about the fused kernel's channels and chunk size. */
  function FusedChannels(s: Settings, p: Policy): Knob { KnobOf(p.knobs, "fused_num_channels", s.fused.channels) }

  function FusedChunk(s: Settings, p: Policy): Knob { KnobOf(p.knobs, "fused_chunk_size", s.fused.chunk) }

  function PieceKnob(p: Policy): Knob { KnobOf(p.knobs, "pipeline_chunks", 2) }

  function SmsKnob(s: Settings, p: Policy): Knob { KnobOf(p.knobs, "copy_sms", s.copySms) }

  /** The checks made on a policy before anything happens. */
  predicate GuardAccepts(s: Settings, p: Policy, slice: nat, off: nat, dst: nat) {
    if p.path == "tma" then s.tmaEnabled && TmaGates(slice, off, dst)
    else if p.path == "fused" then
      && FusedChannels(s, p).Number? && FusedChunk(s, p).Number?
      && var channels, chunk := FusedChannels(s, p).n, FusedChunk(s, p).n;
      && channels > 0 && 2 * channels <= s.numSms && channels <= s.fused.channels
      && chunk > 0 && s.fused.alignment > 0 && chunk % s.fused.alignment == 0
      && s.fused.chunk > 0
      && CeilDiv(PartitionBytes(slice, channels, s.fused.alignment), chunk) <= s.fused.MaxChunksPerChannel()
    else true
  }

  /** The size checks on the arguments. */
  predicate ArgsAccepted(s: Settings, call: Call) {
    if call.allToAll then call.slice > 0 && call.slice * call.groupSize <= s.fused.maxCollectiveBytes
    else call.slice <= s.fused.maxCollectiveBytes
  }

  /** How many pieces the call splits into; 1 also stands for a knob that is no number, on
      which the call is refused. */
  function PieceTarget(s: Settings, call: Call): int
    requires s.knobs.minChunk > 0
  {
    if call.policy.Some? && PieceKnob(call.policy.value).Malformed? then 1
    else
      var choice := if call.policy.Some? then ChunkLayout.Override(PieceKnob(call.policy.value).n) else call.chunks;
      ChunkLayout.EffectivePipelineChunks(s.knobs, s.tmaEnabled || s.copyEngine, call.slice, choice)
  }

  /** The call ends up on the plain pull kernels. */
  predicate PullsWhole(s: Settings, call: Call)
    requires s.knobs.minChunk > 0
  {
    match call.policy
    case Some(p) =>
      if p.path == "pipelined" then PieceKnob(p).Number? && PieceTarget(s, call) <= 1
      else p.path !in ["fused", "tma", "copy_engine"]
    case None => !s.enableFused && PieceTarget(s, call) <= 1 && !s.copyEngine && !s.tmaEnabled
  }

  /** The call ends up on the fused kernel. */
  predicate RunsFused(s: Settings, call: Call) {
    match call.policy
    case Some(p) => p.path == "fused" && GuardAccepts(s, p, call.slice, 0, call.dst)
    case None => s.enableFused && 2 * s.fused.channels <= s.numSms
  }

  function PullSms(s: Settings, call: Call): Knob {
    if call.policy.Some? then SmsKnob(s, call.policy.value) else Number(s.copySms)
  }

  /** The SM count is a number, and positive. */
  predicate Usable(k: Knob) { k.Number? && k.n > 0 }

  /** Exactly when a call raises with its pre-barrier already enqueued: an empty slice on
      the fused or the plain pull path, or a plain pull whose SM count is no positive number. */
  predicate Halves(s: Settings, call: Call)
    requires s.knobs.minChunk > 0
  {
    && ArgsAccepted(s, call)
    && ((call.slice == 0 && RunsFused(s, call))
        || ((call.slice == 0 || !Usable(PullSms(s, call))) && PullsWhole(s, call)))
  }

  /** Exactly when a call is refused before anything is enqueued. */
  predicate Refuses(s: Settings, call: Call)
    requires s.knobs.minChunk > 0
  {
    || !ArgsAccepted(s, call)
    || match call.policy
       case Some(p) =>
         !GuardAccepts(s, p, call.slice, 0, call.dst) || (p.path == "pipelined" && PieceKnob(p).Malformed?)
       case None =>
         if s.enableFused then 2 * s.fused.channels > s.numSms
         else PieceTarget(s, call) <= 1 && s.tmaEnabled && !TmaGates(call.slice, 0, call.dst)
  }

  /** The path the call asks for: the policy's, or the settings'. */
  ghost predicate Asked(s: Settings, call: Call, path: string)
    requires s.knobs.minChunk > 0
  {
    match call.policy
    case Some(p) => p.path == path
    case None => path == if s.enableFused then "fused" else if PieceTarget(s, call) > 1 then "pipelined"
                         else if s.copyEngine then "copy_engine" else if s.tmaEnabled then "tma" else "vec_pull"
  }

  /** `plan` is what the call asks for, with the right overrides. */
  ghost predicate Serves(s: Settings, call: Call, plan: Plan)
    requires s.knobs.minChunk > 0 && s.knobs.alignment > 0
  {
    match plan
    case Fused(channels, chunk) =>
      && Asked(s, call, "fused")
      && (if call.policy.Some?
          then Number(channels) == FusedChannels(s, call.policy.value) &&
              Number(chunk) == FusedChunk(s, call.policy.value)
          else channels == s.fused.channels && chunk == s.fused.chunk)
    case Pieces(ps) =>
      && Asked(s, call, "pipelined") && PieceTarget(s, call) > 1 && |ps| <= s.knobs.maxPipelineChunks
      && ChunkLayout.Even(ps, call.slice, ChunkLayout.Nominal(call.slice, PieceTarget(s, call), s.knobs.alignment))
    case Whole(body) =>
      if body == CopyEngine then Asked(s, call, "copy_engine")
      else if body == TmaKernel then Asked(s, call, "tma") && TmaGates(call.slice, 0, call.dst)
      else PullsWhole(s, call) && Usable(PullSms(s, call)) && body == PullKernel(0, call.slice, PullSms(s, call).n)
  }

  class Submitter {
    const settings: Settings
    const manager: EpochManager
    var log: seq<Kernel>

    constructor (settings: Settings)
      requires settings.Valid()
      ensures this.settings == settings && log == [] && fresh(manager) && manager.epochs == map[]
    {
      this.settings := settings;
      manager := new EpochManager();
      log := [];
    }

    /** The fused path: three epochs, then the kernels, with the launcher's own check
        between the pre-barrier and the body. */
    method IssueFused(call: Call, channels: int, chunk: int) returns (outcome: Outcome)
      requires settings.Valid()
      modifies this, manager
      ensures var e := old(manager.Peek(call.gid));
        && manager.epochs == old(manager.epochs)[call.gid := e + 3]
        && (if FusedLaunchable(settings, call.slice, channels, chunk)
            then outcome == Complete(Fused(channels, chunk)) && log == old(log) +
              [BarrierKernel(call.gid, e), FusedKernel(channels, chunk, e + 1), BarrierKernel(call.gid, e + 2)]
            else outcome == HalfIssued && log == old(log) + [BarrierKernel(call.gid, e)])
    {
      var pre := manager.NextForBarrier(call.gid);
      var step := manager.NextForBarrier(call.gid);
      var post := manager.NextForBarrier(call.gid);
      log := log + [BarrierKernel(call.gid, pre)];
      if !FusedLaunchable(settings, call.slice, channels, chunk) {
        return HalfIssued;
      }
      log := log + [FusedKernel(channels, chunk, step)];
      log := log + [BarrierKernel(call.gid, post)];
      return Complete(Fused(channels, chunk));
    }

    /** Stage, pre-barrier, one body, post-barrier; `launchable` is the body's own check. */
    method IssueWhole(call: Call, body: Kernel, launchable: bool) returns (outcome: Outcome)
      modifies this, manager
      ensures var e := old(manager.Peek(call.gid));
        && manager.epochs == old(manager.epochs)[call.gid := e + 2]
        && (if launchable
            then outcome == Complete(Whole(body)) && log == old(log) +
              [Stage(0, call.slice), BarrierKernel(call.gid, e), body, BarrierKernel(call.gid, e + 1)]
            else outcome == HalfIssued && log == old(log) + [Stage(0, call.slice), BarrierKernel(call.gid, e)])
    {
      var pre, post := manager.NextPairForCollective(call.gid);
      log := log + [Stage(0, call.slice)];
      log := log + [BarrierKernel(call.gid, pre)];
      if !launchable {
        return HalfIssued;
      }
      log := log + [body];
      log := log + [BarrierKernel(call.gid, post)];
      return Complete(Whole(body));
    }

    /** The pipelined path: all epochs first, then stage, pre-barrier and pull piece by piece. */
    method IssuePieces(call: Call, ps: seq<(nat, nat)>) returns (outcome: Outcome)
      requires settings.Valid()
      requires forall k :: 0 <= k < |ps| ==> ps[k].1 > 0
      modifies this, manager
      ensures var e := old(manager.Peek(call.gid));
        if |ps| > settings.knobs.maxPipelineChunks
        then outcome == Rejected && manager.epochs == old(manager.epochs) && log == old(log)
        else
          && outcome == Complete(Pieces(ps))
          && manager.epochs == old(manager.epochs)[call.gid := e + |ps| + 1]
          && log == old(log) + LogOf(Pieces(ps), call, e, settings.copySms)
    {
      if |ps| > settings.knobs.maxPipelineChunks {
        return Rejected;
      }
      ghost var e := manager.Peek(call.gid);
      var epochs := [];
      for k := 0 to |ps|
        invariant |epochs| == k && forall j :: 0 <= j < k ==> epochs[j] == e + j
        invariant log == old(log) && manager.Peek(call.gid) == e + k
        invariant manager.epochs == if k == 0 then old(manager.epochs) else old(manager.epochs)[call.gid := e + k]
      {
        var next := manager.NextForBarrier(call.gid);
        epochs := epochs + [next];
      }
      var post := manager.NextForBarrier(call.gid);
      for k := 0 to |ps|
        invariant log == old(log) + PiecesLog(call.gid, e, ps[..k], settings.copySms)
        invariant manager.epochs == old(manager.epochs)[call.gid := e + |ps| + 1]
      {
        log := log + [Stage(ps[k].0, ps[k].1)];
        log := log + [BarrierKernel(call.gid, epochs[k])];
        // The launcher's own check cannot fail here.
        assert PullLaunchable(ps[k].1, settings.copySms);
        log := log + [PullKernel(ps[k].0, ps[k].1, settings.copySms)];
        assert ps[..k + 1][..k] == ps[..k];
      }
      assert ps[..|ps|] == ps;
      log := log + [BarrierKernel(call.gid, post)];
      return Complete(Pieces(ps));
    }

    /** A call either completes, or is refused with nothing changed, or (exactly under
        `Halves`) raises with its epochs spent and its pre-barrier enqueued. */
    method Submit(call: Call) returns (outcome: Outcome)
      requires settings.Valid() && call.groupSize > 0
      modifies this, manager
      ensures outcome == HalfIssued <==> Halves(settings, call)
      ensures outcome == Rejected <==> Refuses(settings, call)
      ensures outcome == Rejected ==> manager.epochs == old(manager.epochs) && log == old(log)
      ensures outcome == HalfIssued ==> old(manager.Peek(call.gid)) < manager.Peek(call.gid) && |old(log)| < |log|
      ensures outcome.Complete? ==> var e := old(manager.Peek(call.gid));
        && manager.epochs == old(manager.epochs)[call.gid := e + EpochsOf(outcome.plan)]
        && log == old(log) + LogOf(outcome.plan, call, e, settings.copySms)
      ensures outcome.Complete? ==> Serves(settings, call, outcome.plan)
    {
      if !ArgsAccepted(settings, call) {
        return Rejected;
      }
      if call.policy.Some? {
        outcome := SubmitPolicy(call, call.policy.value);
      } else {
        outcome := SubmitStatic(call);
      }
    }

    /** The autotuned entry: guard first, then one of the paths. */
    method SubmitPolicy(call: Call, p: Policy) returns (outcome: Outcome)
      requires settings.Valid() && call.policy == Some(p) && ArgsAccepted(settings, call)
      modifies this, manager
      ensures outcome == HalfIssued <==> Halves(settings, call)
      ensures outcome == Rejected <==> Refuses(settings, call)
      ensures outcome == Rejected ==> manager.epochs == old(manager.epochs) && log == old(log)
      ensures outcome == HalfIssued ==> old(manager.Peek(call.gid)) < manager.Peek(call.gid) && |old(log)| < |log|
      ensures outcome.Complete? ==> var e := old(manager.Peek(call.gid));
        && manager.epochs == old(manager.epochs)[call.gid := e + EpochsOf(outcome.plan)]
        && log == old(log) + LogOf(outcome.plan, call, e, settings.copySms)
      ensures outcome.Complete? ==> Serves(settings, call, outcome.plan)
    {
      hide Config.MaxChunksPerChannel, PartitionBytes, CeilDiv, PiecesLog, ChunkLayout.EffectivePipelineChunks,
          ChunkLayout.Even, ChunkLayout.Nominal;
      if !GuardAccepts(settings, p, call.slice, 0, call.dst) {
        return Rejected;
      }
      var path := p.path;
      if path == "pipelined" && PieceKnob(p).Malformed? {
        return Rejected;
      }
      var chunks := PieceTarget(settings, call);
      if path == "pipelined" && chunks <= 1 {
        path := "vec_pull";
      }
      if path == "fused" {
        outcome := IssueFused(call, FusedChannels(settings, p).n, FusedChunk(settings, p).n);
      } else if path == "pipelined" {
        outcome := SubmitPieces(call, chunks);
      } else if path == "copy_engine" {
        outcome := IssueWhole(call, CopyEngine, true);
      } else if path == "tma" {
        outcome := IssueWhole(call, TmaKernel, TmaGates(call.slice, 0, call.dst));
      } else {
        // The count is read as a number only here, after the pre-barrier.
        var sms := SmsKnob(settings, p);
        var n := if sms.Number? then sms.n else 0;
        outcome := IssueWhole(call, PullKernel(0, call.slice, n), sms.Number? && PullLaunchable(call.slice, n));
      }
    }

    /** The entry without a policy, from the static settings. */
    method SubmitStatic(call: Call) returns (outcome: Outcome)
      requires settings.Valid() && call.groupSize > 0 && call.policy == None && ArgsAccepted(settings, call)
      modifies this, manager
      ensures outcome == HalfIssued <==> Halves(settings, call)
      ensures outcome == Rejected <==> Refuses(settings, call)
      ensures outcome == Rejected ==> manager.epochs == old(manager.epochs) && log == old(log)
      ensures outcome == HalfIssued ==> old(manager.Peek(call.gid)) < manager.Peek(call.gid) && |old(log)| < |log|
      ensures outcome.Complete? ==> var e := old(manager.Peek(call.gid));
        && manager.epochs == old(manager.epochs)[call.gid := e + EpochsOf(outcome.plan)]
        && log == old(log) + LogOf(outcome.plan, call, e, settings.copySms)
      ensures outcome.Complete? ==> Serves(settings, call, outcome.plan)
    {
      StaticFusedFits(settings, call);
      StaticHalves(settings, call);
      hide Halves, PieceTarget, FusedLaunchable, LogOf, ArgsAccepted, Settings.Valid,
          Config.MaxChunksPerChannel, PartitionBytes, CeilDiv, PiecesLog, ChunkLayout.EffectivePipelineChunks,
          ChunkLayout.Even, ChunkLayout.Nominal;
      var chunks := PieceTarget(settings, call);
      if settings.enableFused {
        if 2 * settings.fused.channels > settings.numSms {
          return Rejected;
        }
        outcome := IssueFused(call, settings.fused.channels, settings.fused.chunk);
      } else if chunks <= 1 {
        if settings.tmaEnabled && !TmaGates(call.slice, 0, call.dst) {
          return Rejected;
        }
        if settings.copyEngine {
          outcome := IssueWhole(call, CopyEngine, true);
        } else if settings.tmaEnabled {
          outcome := IssueWhole(call, TmaKernel, TmaGates(call.slice, 0, call.dst));
        } else {
          var sms := settings.copySms;
          outcome := IssueWhole(call, PullKernel(0, call.slice, sms), PullLaunchable(call.slice, sms));
        }
      } else {
        outcome := SubmitPieces(call, chunks);
      }
    }

    /** Splitting and issuing; the check on the number of pieces never fails. */
    method SubmitPieces(call: Call, chunks: int) returns (outcome: Outcome)
      requires settings.Valid() && chunks > 1 && chunks == PieceTarget(settings, call)
      modifies this, manager
      ensures outcome.Complete? && outcome.plan.Pieces?
      ensures var e := old(manager.Peek(call.gid));
        && manager.epochs == old(manager.epochs)[call.gid := e + EpochsOf(outcome.plan)]
        && log == old(log) + LogOf(outcome.plan, call, e, settings.copySms)
      ensures |outcome.plan.pieces| <= settings.knobs.maxPipelineChunks
      ensures var nominal := ChunkLayout.Nominal(call.slice, chunks, settings.knobs.alignment);
        ChunkLayout.Even(outcome.plan.pieces, call.slice, nominal)
    {
      TargetNeedsBytes(settings, call);
      var layout := ChunkLayout.Split(call.slice, chunks, settings.knobs.alignment);
      ChunkLayout.EvenPieces(layout.pieces, call.slice, chunks, settings.knobs.alignment, 0);
      hide PiecesLog, ChunkLayout.Contiguous, ChunkLayout.Even, ChunkLayout.Nominal;
      outcome := IssuePieces(call, layout.pieces);
    }
  }

  lemma TargetNeedsBytes(s: Settings, call: Call)
    requires s.Valid() && PieceTarget(s, call) > 1
    ensures call.slice > 0 && PieceTarget(s, call) <= s.knobs.maxPipelineChunks
  {
  }

  lemma StaticHalves(s: Settings, call: Call)
    requires s.Valid() && ArgsAccepted(s, call) && call.policy == None
    ensures Halves(s, call) <==>
      (call.slice == 0
       && if s.enableFused then 2 * s.fused.channels <= s.numSms
          else PieceTarget(s, call) <= 1 && !s.copyEngine && !s.tmaEnabled)
    ensures s.copySms > 0
  {
  }

  /** Without a policy the launcher's chunk check always passes. */
  lemma StaticFusedFits(s: Settings, call: Call)
    requires s.Valid() && ArgsAccepted(s, call) && call.groupSize > 0
    ensures FusedLaunchable(s, call.slice, s.fused.channels, s.fused.chunk) <==> call.slice > 0
  {
    if call.slice > 0 {
      MulAtLeast(call.groupSize, call.slice);
      StaticBound(s.fused, call.slice);
    }
  }

  /** The default settings on a device with 132 SMs. */
  function Defaults(): Settings {
    Settings(Config(134217728, 128, 262144, 24), ChunkLayout.Knobs(1, 4, 262144, 128), false, 132, 24, false, false)
  }

  lemma DefaultsValid()
    ensures Defaults().Valid()
  {
    assert Bits.Pow2(7) == 128 by { assert Bits.Pow2(3) == 8; }
  }

  /** With them an empty all_gather is left half issued. */
  lemma EmptyGatherHalves(gid: nat, dst: nat)
    ensures Defaults().Valid() && Halves(Defaults(), Call(gid, false, 2, 0, dst, ChunkLayout.Default, None))
  {
    DefaultsValid();
  }

  /** So is an all_gather of a kilobyte whose rule says how many SMs to use, but not with
      a number, or with zero or less. */
  lemma BadSmsHalves(gid: nat, dst: nat, sms: Knob)
    requires sms == Malformed || sms.n <= 0
    ensures Defaults().Valid()
    ensures var rule := Policy("vec_pull", map["copy_sms" := sms]);
      Halves(Defaults(), Call(gid, false, 2, 1024, dst, ChunkLayout.Default, Some(rule)))
  {
    DefaultsValid();
  }

  /** A rule's own numbers decide, under these names, and the configured ones otherwise. */
  lemma KnobsDecide(s: Settings, p: Policy, n: int)
    ensures p.knobs == map["fused_num_channels" := Number(n)] ==>
      FusedChannels(s, p) == Number(n) && FusedChunk(s, p) == Number(s.fused.chunk)
    ensures p.knobs == map["fused_chunk_size" := Number(n)] ==>
      FusedChunk(s, p) == Number(n) && FusedChannels(s, p) == Number(s.fused.channels)
    ensures p.knobs == map["pipeline_chunks" := Number(n)] ==> PieceKnob(p) == Number(n)
    ensures p.knobs == map["copy_sms" := Number(n)] ==> SmsKnob(s, p) == Number(n)
    ensures p.knobs == map[] ==> PieceKnob(p) == Number(2) && SmsKnob(s, p) == Number(s.copySms)
  {
  }

  /** A fused rule that keeps the configured channels and chunk size is accepted whenever
      its programs fit the device. */
  lemma ConfiguredFusedAccepted(s: Settings, call: Call, p: Policy)
    requires s.Valid() && call.groupSize > 0 && ArgsAccepted(s, call) && call.policy == Some(p) && p.path == "fused"
    requires FusedChannels(s, p) == Number(s.fused.channels) && FusedChunk(s, p) == Number(s.fused.chunk)
    ensures Refuses(s, call) <==> 2 * s.fused.channels > s.numSms
  {
    if call.slice > 0 {
      MulAtLeast(call.groupSize, call.slice);
      StaticBound(s.fused, call.slice);
    } else {
      EmptyPartition(s.fused);
    }
  }

  lemma EmptyPartition(cfg: Config)
    requires cfg.Valid()
    ensures CeilDiv(PartitionBytes(0, cfg.channels, cfg.alignment), cfg.chunk) <= cfg.MaxChunksPerChannel()
  {
    hide Bits.AlignUp, Bits.IsPow2, CeilDiv;
    CeilDivAtMost(0, cfg.channels, 0);
    Bits.AlignUpMeans(0, cfg.alignment);
    MultipleBelow(PartitionBytes(0, cfg.channels, cfg.alignment), 0, cfg.alignment);
    CeilDivAtMost(0, cfg.chunk, 0);
  }

  /** A table passes the check at load time exactly when no fused rule of it can be refused
      later for asking more channels than the pad was sized for. */
  lemma TableFitsPad(s: Settings, rules: seq<Rule>)
    requires s.Valid() && forall i :: 0 <= i < |rules| ==> ChannelsAsked(rules[i]).Number?
    ensures (forall i :: 0 <= i < |rules| ==> ChannelsAsked(rules[i]).n <= s.fused.channels) <==>
      (forall i :: 0 <= i < |rules| && rules[i].path == Some("fused") ==>
        FusedChannels(s, PolicyAt(rules[i])).Number? && FusedChannels(s, PolicyAt(rules[i])).n <= s.fused.channels)
  {
  }

  /** Paths without conditions of their own are never refused, once the sizes fit. */
  lemma PlainPathsAccepted(s: Settings, call: Call)
    requires s.Valid() && ArgsAccepted(s, call) && call.policy.Some?
    requires call.policy.value.path in ["vec_pull", "copy_engine"]
    ensures !Refuses(s, call)
  {
  }

  /** Which path a completed call has taken. Without a policy: fused if that is enabled, else
      the copy engine, else TMA, else pieces if more than one, else the plain pull. With one:
      the policy's own, but the plain pull when a split collapses. */
  lemma PathChosen(s: Settings, call: Call, plan: Plan)
    requires s.Valid() && call.groupSize > 0 && !Refuses(s, call) && !Halves(s, call) && Serves(s, call, plan)
    ensures s.copyEngine || s.tmaEnabled ==> !plan.Pieces?
    ensures call.policy.None? ==>
      && (plan == Fused(s.fused.channels, s.fused.chunk) <==> s.enableFused)
      && (plan == Whole(CopyEngine) <==> !s.enableFused && s.copyEngine)
      && (plan == Whole(TmaKernel) <==> !s.enableFused && !s.copyEngine && s.tmaEnabled)
      && (plan.Pieces? <==> !s.enableFused && PieceTarget(s, call) > 1)
      && (plan == Whole(PullKernel(0, call.slice, s.copySms)) <==>
        !s.enableFused && !s.copyEngine && !s.tmaEnabled && PieceTarget(s, call) <= 1)
    ensures call.policy.Some? ==> var path := call.policy.value.path;
      && (plan.Fused? <==> path == "fused")
      && (plan == Whole(CopyEngine) <==> path == "copy_engine")
      && (plan == Whole(TmaKernel) <==> path == "tma")
      && (plan.Pieces? <==> path == "pipelined" && PieceTarget(s, call) > 1)
  {
  }

  /** With room for them a call is split into as many pieces as its rule says, whatever the
      caller chose; without a rule as the caller says, or else the settings. */
  lemma PiecesAsked(s: Settings, call: Call, n: int)
    requires s.Valid() && !s.tmaEnabled && !s.copyEngine
    requires 1 < n <= s.knobs.maxPipelineChunks && n * s.knobs.minChunk <= call.slice
    ensures call.policy.Some? && call.policy.value.knobs == map["pipeline_chunks" := Number(n)] ==>
      PieceTarget(s, call) == n
    ensures call.policy.None? && call.chunks == ChunkLayout.Override(n) ==> PieceTarget(s, call) == n
    ensures call.policy.None? && call.chunks == ChunkLayout.Default && n == s.knobs.pipelineChunks ==>
      PieceTarget(s, call) == n
  {
    ChunkLayout.AskedPieces(s.knobs, call.slice, ChunkLayout.Override(n), n);
    ChunkLayout.AskedPieces(s.knobs, call.slice, ChunkLayout.Default, s.knobs.pipelineChunks);
  }

  /** A loaded table brings a policy to the plain pull only by its own name or as a split
      that collapsed: no other path ends there. */
  lemma LoadedPulls(s: Settings, call: Call, rules: seq<Rule>, i: nat)
    requires s.knobs.minChunk > 0 && Loadable(rules) && i < |rules| && rules[i].path.Some?
    requires call.policy == Some(PolicyAt(rules[i]))
    ensures PullsWhole(s, call) <==>
      rules[i].path.value == "vec_pull"
      || (rules[i].path.value == "pipelined" && PieceKnob(PolicyAt(rules[i])).Number? && PieceTarget(s, call) <= 1)
  {
  }

  /** A fused policy that the guard accepts stays inside the pad that was sized from the
      configuration, keeps its chunk bases aligned and its programs co-resident. */
  lemma GuardFitsPad(s: Settings, p: Policy, op: Schedule.Op, dst: nat)
    requires s.Valid() && p.path == "fused" && op.slice > 0 && GuardAccepts(s, p, op.slice, 0, dst)
    requires op.path == LaunchPath(op.slice, FusedChannels(s, p).n, s.fused.alignment, FusedChunk(s, p).n,
      s.fused.MaxChunksPerChannel())
    ensures op.path.Fused? && op.path.partition > 0 && op.path.chunk % s.fused.alignment == 0
    ensures forall ch: nat, k: nat :: Schedule.ValidChunk(op, ch, k) ==>
      ch < s.fused.channels && k < s.fused.MaxChunksPerChannel() && 2 * ch + 1 < s.numSms
  {
    var channels, chunk := FusedChannels(s, p).n, FusedChunk(s, p).n;
    LaunchFitsPad(op, channels, s.fused.alignment, chunk, s.fused.MaxChunksPerChannel());
    hide Schedule.ValidChunk, Config.MaxChunksPerChannel, PartitionBytes, CeilDiv;
    forall ch: nat, k: nat | Schedule.ValidChunk(op, ch, k)
      ensures ch < s.fused.channels && k < s.fused.MaxChunksPerChannel() && 2 * ch + 1 < s.numSms
    {
      assert ch < channels;
    }
  }

  // ------------------------------------------------- what the protocol model runs

  /** The barriers in a log, each by its group id and epoch, in order. */
  function BarriersIn(log: seq<Kernel>): seq<(nat, nat)> {
    if log == [] then []
    else
      var before := BarriersIn(log[..|log| - 1]);
      match log[|log| - 1]
      case BarrierKernel(gid, e) => before + [(gid, e)]
      case _ => before
  }

  /** The protocol model's path for this plan. */
  function PathOf(s: Settings, call: Call, plan: Plan): Schedule.Path
    requires s.Valid()
  {
    match plan
    case Fused(channels, chunk) =>
      if channels > 0 && chunk > 0
      then LaunchPath(call.slice, channels, s.fused.alignment, chunk, s.fused.MaxChunksPerChannel())
      else Schedule.OneShot
    case Pieces(ps) =>
      var target := PieceTarget(s, call);
      Schedule.Pipelined(if target > 0 then ChunkLayout.Nominal(call.slice, target, s.knobs.alignment) else 0, |ps|)
    case Whole(_) => Schedule.OneShot
  }

  /** The call of the protocol model with these arguments, whatever its path. */
  predicate Describes(call: Call, op: Schedule.Op) {
    && op.gid == call.gid && |op.ranks| == call.groupSize && op.slice == call.slice
    && op.kind == (if call.allToAll then Schedule.AllToAll else Schedule.AllGather)
  }

  /** And with the geometry that the plan was launched with. */
  ghost predicate Runs(s: Settings, call: Call, plan: Plan, op: Schedule.Op)
    requires s.Valid()
  {
    Describes(call, op) && op.path == PathOf(s, call, plan)
  }

  /** The size checks let a call pass exactly when what it stages fits the comm buffer; an
      all2all must not be empty either. */
  lemma SizeCheckExactly(s: Settings, call: Call, op: Schedule.Op)
    requires Describes(call, op)
    ensures ArgsAccepted(s, call) <==>
      Schedule.StageLen(op) <= s.fused.maxCollectiveBytes && (op.kind.AllToAll? ==> op.slice > 0)
  {
    assert call.slice * call.groupSize == |op.ranks| * op.slice;
  }

  lemma BarriersSnoc(log: seq<Kernel>, k: Kernel)
    ensures BarriersIn(log + [k]) ==
      if k.BarrierKernel? then BarriersIn(log) + [(k.gid, k.epoch)] else BarriersIn(log)
  {
    assert (log + [k])[..|log|] == log;
  }

  lemma {:induction false} PiecesBarriers(gid: nat, e: nat, ps: seq<(nat, nat)>, sms: int)
    ensures |BarriersIn(PiecesLog(gid, e, ps, sms))| == |ps|
    ensures forall b :: 0 <= b < |ps| ==> BarriersIn(PiecesLog(gid, e, ps, sms))[b] == (gid, e + b)
  {
    if ps != [] {
      PiecesBarriers(gid, e, ps[..|ps| - 1], sms);
      LastPieceBarrier(gid, e, ps, sms);
      hide BarriersIn, PiecesLog;
    }
  }

  lemma LastPieceBarrier(gid: nat, e: nat, ps: seq<(nat, nat)>, sms: int)
    requires ps != []
    ensures BarriersIn(PiecesLog(gid, e, ps, sms)) ==
      BarriersIn(PiecesLog(gid, e, ps[..|ps| - 1], sms)) + [(gid, e + |ps| - 1)]
  {
    hide BarriersIn;
    var k := |ps| - 1;
    BarrierAmongThree(PiecesLog(gid, e, ps[..k], sms), Stage(ps[k].0, ps[k].1), BarrierKernel(gid, e + k),
      PullKernel(ps[k].0, ps[k].1, sms));
  }

  lemma BarrierAmongThree(log: seq<Kernel>, x: Kernel, y: Kernel, z: Kernel)
    requires !x.BarrierKernel? && y.BarrierKernel? && !z.BarrierKernel?
    ensures BarriersIn(log + [x, y, z]) == BarriersIn(log) + [(y.gid, y.epoch)]
  {
    hide BarriersIn;
    BarriersSnoc(log, x);
    BarriersSnoc(log + [x], y);
    BarriersSnoc(log + [x] + [y], z);
    assert log + [x, y, z] == log + [x] + [y] + [z];
  }

  lemma BarriersOfFour(a: Kernel, b: Kernel, c: Kernel, d: Kernel)
    requires !a.BarrierKernel? && b.BarrierKernel? && !c.BarrierKernel? && d.BarrierKernel?
    ensures BarriersIn([a, b, c, d]) == [(b.gid, b.epoch), (d.gid, d.epoch)]
    ensures BarriersIn([b, c, d]) == [(b.gid, b.epoch), (d.gid, d.epoch)]
  {
    hide BarriersIn;
    BarriersOfTwo(a, b);
    BarriersOfOne([b]);
    BarriersSnoc([a, b], c);
    BarriersSnoc([b], c);
    BarriersSnoc([a, b, c], d);
    BarriersSnoc([b, c], d);
    assert [a, b] + [c] == [a, b, c] && [b] + [c] == [b, c];
    assert [a, b, c] + [d] == [a, b, c, d] && [b, c] + [d] == [b, c, d];
  }

  /** A served call has a path that the protocol model admits: its channels and chunks fit
      the pad, its pieces cover the slice. */
  lemma ServedPathIsValid(s: Settings, call: Call, plan: Plan, op: Schedule.Op)
    requires s.Valid() && call.groupSize > 0 && !Refuses(s, call) && !Halves(s, call)
    requires Serves(s, call, plan) && Runs(s, call, plan, op)
    ensures plan.Fused? ==> op.path.Fused? && op.path.partition > 0 && op.path.chunk == plan.chunk
    ensures plan.Fused? ==> forall ch: nat, k: nat :: Schedule.ValidChunk(op, ch, k) ==>
      ch < s.fused.channels && k < s.fused.MaxChunksPerChannel() && 2 * ch + 1 < s.numSms
    ensures plan.Pieces? ==> op.path.Pipelined? && op.path.nominal > 0 && op.path.pieces == |plan.pieces| > 0
    ensures plan.Pieces? ==> forall off :: 0 <= off < op.slice ==> off / op.path.nominal < op.path.pieces
    ensures plan.Whole? ==> op.path.OneShot?
  {
    match plan
    case Fused(channels, chunk) => ServedFused(s, call, channels, chunk, op);
    case Pieces(ps) =>
      TargetNeedsBytes(s, call);
      ChunkLayout.PipelinedPath(op, ps, PieceTarget(s, call), s.knobs.alignment);
    case Whole(_) =>
  }

  lemma ServedFused(s: Settings, call: Call, channels: int, chunk: int, op: Schedule.Op)
    requires s.Valid() && call.groupSize > 0 && !Refuses(s, call) && !Halves(s, call)
    requires Serves(s, call, Fused(channels, chunk)) && Runs(s, call, Fused(channels, chunk), op)
    ensures op.path.Fused? && op.path.partition > 0 && op.path.chunk == chunk
    ensures forall ch: nat, k: nat :: Schedule.ValidChunk(op, ch, k) ==>
      ch < s.fused.channels && k < s.fused.MaxChunksPerChannel() && 2 * ch + 1 < s.numSms
  {
    hide Config.MaxChunksPerChannel, PartitionBytes, CeilDiv, ChunkLayout.EffectivePipelineChunks, Schedule.ValidChunk;
    assert RunsFused(s, call) && op.slice > 0;
    if call.policy.Some? {
      GuardFitsPad(s, call.policy.value, op, call.dst);
    } else {
      MulAtLeast(call.groupSize, call.slice);
      StaticBound(s.fused, call.slice);
      LaunchFitsPad(op, s.fused.channels, s.fused.alignment, s.fused.chunk, s.fused.MaxChunksPerChannel());
    }
  }

  /** What a complete submission enqueues is what the protocol model assumes of the call:
      its barriers in order, each named by the epoch the model gives it, and as many
      epochs as the model counts. */
  lemma LogMatchesSchedule(s: Settings, call: Call, plan: Plan, op: Schedule.Op, e: nat)
    requires s.Valid() && call.groupSize > 0 && !Refuses(s, call) && !Halves(s, call)
    requires Serves(s, call, plan) && Runs(s, call, plan, op)
    ensures EpochsOf(plan) == Schedule.Epochs(op)
    ensures |BarriersIn(LogOf(plan, call, e, s.copySms))| == Schedule.Bars(op)
    ensures forall b :: 0 <= b < Schedule.Bars(op) ==>
      BarriersIn(LogOf(plan, call, e, s.copySms))[b] == (op.gid, e + Schedule.EpochOfBar(op, b))
  {
    ServedPathIsValid(s, call, plan, op);
    hide Refuses, Halves, Schedule.ValidChunk, PathOf;
    match plan
    case Fused(channels, chunk) =>
      var body := FusedKernel(channels, chunk, e + 1);
      BarriersOfFour(CopyEngine, BarrierKernel(call.gid, e), body, BarrierKernel(call.gid, e + 2));
    case Pieces(ps) => AllPiecesBarriers(call, e, ps, s.copySms);
    case Whole(body) =>
      BarriersOfFour(Stage(0, call.slice), BarrierKernel(call.gid, e), body, BarrierKernel(call.gid, e + 1));
  }

  lemma AllPiecesBarriers(call: Call, e: nat, ps: seq<(nat, nat)>, sms: int)
    ensures var bs := BarriersIn(LogOf(Pieces(ps), call, e, sms));
      |bs| == |ps| + 1 && forall b :: 0 <= b < |bs| ==> bs[b] == (call.gid, e + b)
  {
    PiecesBarriers(call.gid, e, ps, sms);
    hide PiecesLog, BarriersIn;
    BarriersSnoc(PiecesLog(call.gid, e, ps, sms), BarrierKernel(call.gid, e + |ps|));
  }

  /** Each of the barriers runs with the token the protocol model gives it, and a fused
      call with its channels, its chunk size and, as the base of its step values, the
      token of an epoch that is its own and that none of its barriers uses. */
  lemma TokensMatchSchedule(s: Settings, call: Call, plan: Plan, sys: Schedule.System, r: nat, i: nat, e: nat)
    requires s.Valid() && call.groupSize > 0 && !Refuses(s, call) && !Halves(s, call)
    requires Schedule.Shape(sys) && r < sys.world && i < |sys.prog[r]|
    requires Serves(s, call, plan) && Runs(s, call, plan, sys.ops[sys.prog[r][i]])
    requires e == Schedule.EpochsBefore(sys, r, call.gid, i)
    ensures var op := sys.ops[sys.prog[r][i]];
      var log := LogOf(plan, call, e, s.copySms);
      && |BarriersIn(log)| == Schedule.Bars(op)
      && (forall b :: 0 <= b < Schedule.Bars(op) ==>
        sys.tok(BarriersIn(log)[b].0, BarriersIn(log)[b].1) == Schedule.Token(sys, r, i, b))
      && (plan.Fused? ==>
        && |log| == 3 && FusedAsLaunched(s, plan, op, log[1])
        && sys.tok(op.gid, log[1].stepEpoch) == Schedule.StepBase(sys, r, i)
        && e <= log[1].stepEpoch < e + EpochsOf(plan) && (op.gid, log[1].stepEpoch) !in BarriersIn(log))
  {
    var op := sys.ops[sys.prog[r][i]];
    LogMatchesSchedule(s, call, plan, op, e);
    if plan.Fused? {
      FusedInLog(s, call, plan, op, e);
    }
    hide Refuses, Halves, Serves, Runs, BarriersIn, LogOf, Schedule.EpochsBefore, Schedule.EpochOfBar, FusedAsLaunched;
  }

  /** The kernel has the plan's numbers, and the path they give is the call's. */
  ghost predicate FusedAsLaunched(s: Settings, plan: Plan, op: Schedule.Op, kernel: Kernel)
    requires s.Valid() && plan.Fused?
  {
    && kernel.FusedKernel?
    && kernel.channels == plan.channels > 0 && kernel.chunk == plan.chunk > 0
    && op.path == LaunchPath(op.slice, kernel.channels, s.fused.alignment, kernel.chunk,
      s.fused.MaxChunksPerChannel())
  }

  lemma FusedInLog(s: Settings, call: Call, plan: Plan, op: Schedule.Op, e: nat)
    requires s.Valid() && call.groupSize > 0 && !Refuses(s, call) && !Halves(s, call)
    requires Serves(s, call, plan) && Runs(s, call, plan, op) && plan.Fused?
    ensures var log := LogOf(plan, call, e, s.copySms);
      && |log| == 3 && FusedAsLaunched(s, plan, op, log[1])
      && log[1].stepEpoch == e + 1 && (op.gid, e + 1) !in BarriersIn(log)
  {
    FusedArguments(s, call, plan.channels, plan.chunk);
    StepEpochIsOwn(call, plan.channels, plan.chunk, e, s.copySms);
    hide BarriersIn, LogOf, Refuses, Halves, Serves, LaunchPath, Config.MaxChunksPerChannel;
  }

  lemma StepEpochIsOwn(call: Call, channels: int, chunk: int, e: nat, sms: int)
    ensures var log := LogOf(Fused(channels, chunk), call, e, sms);
      && |log| == 3 && log[1] == FusedKernel(channels, chunk, e + 1)
      && (call.gid, e + 1) !in BarriersIn(log)
  {
    var log := LogOf(Fused(channels, chunk), call, e, sms);
    hide BarriersIn;
    BarriersOfFour(CopyEngine, log[0], log[1], log[2]);
  }

  lemma FusedArguments(s: Settings, call: Call, channels: int, chunk: int)
    requires s.Valid() && !Refuses(s, call) && Serves(s, call, Fused(channels, chunk))
    ensures channels > 0 && chunk > 0
  {
  }

  /** Nothing that a completed call has enqueued fails its launcher's check, wherever in
      the queue it stands; and only a call that may use TMA runs it. */
  lemma LaunchesPass(s: Settings, call: Call, plan: Plan, e: nat, k: nat)
    requires s.Valid() && call.groupSize > 0 && !Refuses(s, call) && !Halves(s, call) && Serves(s, call, plan)
    requires k < |LogOf(plan, call, e, s.copySms)|
    ensures var kernel := LogOf(plan, call, e, s.copySms)[k];
      && (kernel.PullKernel? ==> kernel.size > 0 && kernel.sms > 0)
      && (kernel.FusedKernel? ==> FusedLaunchable(s, call.slice, kernel.channels, kernel.chunk))
      && (kernel.TmaKernel? ==> s.tmaEnabled && TmaGates(call.slice, 0, call.dst))
  {
    match plan
    case Fused(channels, chunk) =>
      if call.policy.None? { StaticFusedFits(s, call); }
    case Pieces(ps) =>
      TargetNeedsBytes(s, call);
      ChunkLayout.EvenPieces(ps, call.slice, PieceTarget(s, call), s.knobs.alignment, 0);
      if k < |PiecesLog(call.gid, e, ps, s.copySms)| { PiecePulls(call.gid, e, ps, s.copySms, k); }
    case Whole(_) =>
  }

  lemma {:induction false} PiecePulls(gid: nat, e: nat, ps: seq<(nat, nat)>, sms: int, k: nat)
    requires k < |PiecesLog(gid, e, ps, sms)| && forall m :: 0 <= m < |ps| ==> ps[m].1 > 0
    ensures var kernel := PiecesLog(gid, e, ps, sms)[k];
      !kernel.FusedKernel? && !kernel.TmaKernel? && (kernel.PullKernel? ==> kernel.size > 0 && kernel.sms == sms)
  {
    var n := |ps| - 1;
    if k < |PiecesLog(gid, e, ps[..n], sms)| { PiecePulls(gid, e, ps[..n], sms, k); }
  }

  // ------------------------------------------------- where each byte is moved

  /** Where in the log the kernel stands that stages piece `k`, or pulls it. */
  function KernelAt(plan: Plan, staging: bool, k: nat): nat {
    match plan
    case Fused(_, _) => 1
    case Pieces(_) => 3 * k + if staging then 0 else 2
    case Whole(_) => if staging then 0 else 2
  }

  /** The kernel moves byte `off` of every peer's slice. */
  predicate Moves(kernel: Kernel, staging: bool, off: nat) {
    match kernel
    case Stage(from, size) => staging && from <= off < from + size
    case PullKernel(from, size, _) => !staging && from <= off < from + size
    case FusedKernel(_, _, _) => true
    case BarrierKernel(_, _) => false
    case TmaKernel => !staging
    case CopyEngine => !staging
  }

  /** The protocol model's windows are those of the queue: the kernel that moves a copy's
      byte stands behind exactly as many of the call's barriers as the model has the copy
      made before. */
  lemma QueueMatchesWindows(s: Settings, call: Call, plan: Plan, op: Schedule.Op, e: nat, x: Protocol.Copy)
    requires s.Valid() && call.groupSize > 0 && !Refuses(s, call) && !Halves(s, call)
    requires Serves(s, call, plan) && Runs(s, call, plan, op)
    requires x.Stage? || x.Pull? || (x.SelfCopy? && plan.Fused?)
    requires Protocol.Offset(op, x) < op.slice
    ensures var off := Protocol.Offset(op, x);
      var at := KernelAt(plan, !x.Pull?, Protocol.Piece(op, off));
      var log := LogOf(plan, call, e, s.copySms);
      at < |log| && Moves(log[at], !x.Pull?, off) && |BarriersIn(log[..at])| == Protocol.Hi(op, x)
  {
    ServedPathIsValid(s, call, plan, op);
    hide Refuses, Halves, Schedule.ValidChunk, PathOf;
    var off := Protocol.Offset(op, x);
    var log := LogOf(plan, call, e, s.copySms);
    match plan
    case Fused(_, _) => BarriersOfOne(log[..1]);
    case Pieces(ps) =>
      PieceMoves(s, call, ps, op, e, off);
    case Whole(_) =>
      assert log[..2] == [log[0], log[1]];
      BarriersOfTwo(log[0], log[1]);
      assert log[..0] == [];
  }

  lemma BarriersOfOne(log: seq<Kernel>)
    requires |log| == 1
    ensures BarriersIn(log) == if log[0].BarrierKernel? then [(log[0].gid, log[0].epoch)] else []
  {
    assert BarriersIn([]) == [] && log == [] + [log[0]];
    BarriersSnoc([], log[0]);
  }

  lemma BarriersOfTwo(a: Kernel, b: Kernel)
    requires !a.BarrierKernel? && b.BarrierKernel?
    ensures BarriersIn([a, b]) == [(b.gid, b.epoch)]
  {
    hide BarriersIn;
    BarriersOfOne([a]);
    assert [a, b] == [a] + [b];
    BarriersSnoc([a], b);
  }

  /** Piece `k` takes the places `3 * k` to `3 * k + 2`, behind `k` barriers. */
  lemma {:induction false} PiecePlaces(gid: nat, e: nat, ps: seq<(nat, nat)>, sms: int, k: nat)
    requires k < |ps|
    ensures var log := PiecesLog(gid, e, ps, sms);
      && |log| == 3 * |ps|
      && log[3 * k] == Stage(ps[k].0, ps[k].1)
      && log[3 * k + 2] == PullKernel(ps[k].0, ps[k].1, sms)
      && |BarriersIn(log[..3 * k])| == k && |BarriersIn(log[..3 * k + 2])| == k + 1
  {
    var m := |ps| - 1;
    var before := PiecesLog(gid, e, ps[..m], sms);
    var x, y, z := Stage(ps[m].0, ps[m].1), BarrierKernel(gid, e + m), PullKernel(ps[m].0, ps[m].1, sms);
    var log := PiecesLog(gid, e, ps, sms);
    PiecesLength(gid, e, ps[..m], sms);
    assert log == before + [x, y, z];
    hide PiecesLog, BarriersIn;
    if k < m {
      PiecePlaces(gid, e, ps[..m], sms, k);
      assert log[..3 * k] == before[..3 * k] && log[..3 * k + 2] == before[..3 * k + 2];
    } else {
      PiecesBarriers(gid, e, ps[..m], sms);
      assert log[..3 * k] == before;
      assert log[..3 * k + 2] == before + [x] + [y];
      BarriersSnoc(before, x);
      BarriersSnoc(before + [x], y);
    }
  }

  lemma {:induction false} PiecesLength(gid: nat, e: nat, ps: seq<(nat, nat)>, sms: int)
    ensures |PiecesLog(gid, e, ps, sms)| == 3 * |ps|
  {
    if ps != [] { PiecesLength(gid, e, ps[..|ps| - 1], sms); }
  }

  lemma PieceMoves(s: Settings, call: Call, ps: seq<(nat, nat)>, op: Schedule.Op, e: nat, off: nat)
    requires s.Valid() && Serves(s, call, Pieces(ps)) && Runs(s, call, Pieces(ps), op) && off < op.slice
    requires op.path.Pipelined? && op.path.nominal > 0
    ensures var k := Protocol.Piece(op, off);
      var log := LogOf(Pieces(ps), call, e, s.copySms);
      && 3 * k + 2 < |log|
      && Moves(log[3 * k], true, off) && |BarriersIn(log[..3 * k])| == k
      && Moves(log[3 * k + 2], false, off) && |BarriersIn(log[..3 * k + 2])| == k + 1
  {
    TargetNeedsBytes(s, call);
    ChunkLayout.EvenPieces(ps, call.slice, PieceTarget(s, call), s.knobs.alignment, off);
    var k := Protocol.Piece(op, off);
    var body := PiecesLog(call.gid, e, ps, s.copySms);
    PiecePlaces(call.gid, e, ps, s.copySms, k);
    var log := LogOf(Pieces(ps), call, e, s.copySms);
    assert log[..3 * k] == body[..3 * k] && log[..3 * k + 2] == body[..3 * k + 2];
  }
}
