/** The host side of groups: the registry of group handles and the epoch counters. */
module GroupHost {
  import opened Words
  import opened Tokens
  import Schedule

  // ------------------------------------------------------------------ handles

  /** A group handle. Its identity is the object; `hasRankList` says whether its device
      rank list is still allocated. */
  class GroupDescriptor {
    const groupId: nat
    const ranks: seq<int>
    const localIndex: int
    const size: nat
    var hasRankList: bool

    constructor (groupId: nat, ranks: seq<int>, localIndex: int, hasRankList: bool)
      ensures this.groupId == groupId && this.ranks == ranks && this.localIndex == localIndex
      ensures this.size == |ranks| && this.hasRankList == hasRankList
    {
      this.groupId, this.ranks, this.localIndex, this.size, this.hasRankList :=
        groupId, ranks, localIndex, |ranks|, hasRankList;
    }
  }

  datatype Result<T> = Ok(value: T) | Err

  /** The place of this rank in a rank list, or -1. */
  function LocalIndex(ranks: seq<int>, rank: int): (i: int)
    ensures if rank in ranks then 0 <= i < |ranks| && ranks[i] == rank && rank !in ranks[..i] else i == -1
  {
    if ranks == [] then -1
    else if ranks[0] == rank then 0
    else
      var i := LocalIndex(ranks[1..], rank);
      assert rank in ranks <==> rank in ranks[1..];
      if i < 0 then -1 else
        assert ranks[..i + 1] == [ranks[0]] + ranks[1..][..i];
        i + 1
  }

  // ------------------------------------------- what the host state does, as values

  /** The registry and the next epoch of every group id that has issued one. */
  datatype Host = Host(registered: map<nat, GroupDescriptor>, epochs: map<nat, nat>)
  {
    function Peek(gid: nat): nat { if gid in epochs then epochs[gid] else 0 }

    /** A handle can be used while the registry holds exactly this object. */
    predicate Live(h: GroupDescriptor) {
      h.groupId in registered && registered[h.groupId] == h && h.localIndex >= 0
    }
  }

  /** What the host is asked to do. `Register` carries the handle that is created if the
      id is free; `Issue` is any collective or barrier, with the epochs it consumes. */
  datatype Event =
    | Register(handle: GroupDescriptor)
    | Unregister(handle: GroupDescriptor)
    | Issue(handle: GroupDescriptor, count: nat)

  function Next(s: Host, e: Event): Host {
    match e
    case Register(h) =>
      if h.groupId in s.registered then s else s.(registered := s.registered[h.groupId := h])
    case Unregister(h) =>
      if h.groupId in s.registered && s.registered[h.groupId] == h
      then s.(registered := s.registered - {h.groupId}) else s
    case Issue(h, n) =>
      if s.Live(h) then s.(epochs := s.epochs[h.groupId := s.Peek(h.groupId) + n]) else s
  }

  function Run(s: Host, trace: seq<Event>): Host {
    if trace == [] then s else Next(Run(s, trace[..|trace| - 1]), trace[|trace| - 1])
  }

  function Booted(): Host { Host(map[], map[]) }

  function After(trace: seq<Event>): Host { Run(Booted(), trace) }

  // ------------------------------------------------------------------ classes

  /** Per-group epoch counters. */
  class EpochManager {
    var epochs: map<nat, nat>

    constructor ()
      ensures epochs == map[]
    {
      epochs := map[];
    }

    function Peek(gid: nat): nat
      reads this
    {
      if gid in epochs then epochs[gid] else 0
    }

    method NextForBarrier(gid: nat) returns (e: nat)
      modifies this
      ensures e == old(Peek(gid))
      ensures epochs == old(epochs)[gid := e + 1]
    {
      e := Peek(gid);
      epochs := epochs[gid := e + 1];
    }

    method NextPairForCollective(gid: nat) returns (e: nat, f: nat)
      modifies this
      ensures e == old(Peek(gid)) && f == e + 1
      ensures epochs == old(epochs)[gid := e + 2]
    {
      e := Peek(gid);
      epochs := epochs[gid := e + 2];
      f := e + 1;
    }
  }

  /** The group-related part of one rank's runtime. `handed` collects every handle it
      has returned, live or stale. */
  class Runtime {
    const rank: int
    const worldSize: nat
    const maxGroupSize: nat
    const nonce: nat
    const manager: EpochManager
    var registered: map<nat, GroupDescriptor>
    ghost var handed: set<GroupDescriptor>

    ghost predicate Valid()
      reads this, manager, handed
    {
      && (forall g :: g in registered ==> registered[g].groupId == g && registered[g] in handed)
      && (forall h :: h in handed ==> (h.hasRankList <==> State().Live(h)))
      && (forall h :: h in handed ==> |h.ranks| == h.size && h.localIndex == LocalIndex(h.ranks, rank))
    }

    ghost function State(): Host
      reads this, manager
    {
      Host(registered, manager.epochs)
    }

    constructor (rank: int, worldSize: nat, maxGroupSize: nat, nonce: nat)
      ensures Valid() && State() == Booted()
      ensures this.rank == rank && this.worldSize == worldSize && this.maxGroupSize == maxGroupSize &&
          this.nonce == nonce
      ensures fresh(manager) && handed == {}
    {
      this.rank, this.worldSize, this.maxGroupSize, this.nonce := rank, worldSize, maxGroupSize, nonce;
      manager := new EpochManager();
      registered := map[];
      handed := {};
    }

    /** The rank lists that `register_group` accepts. */
    predicate Acceptable(ranks: seq<int>) {
      && 0 < |ranks| <= maxGroupSize
      && (forall i, j :: 0 <= i < j < |ranks| ==> ranks[i] != ranks[j])
      && (forall i :: 0 <= i < |ranks| ==> 0 <= ranks[i] < worldSize)
    }

    /** An explicit id, or the stable hash of the rank list. */
    method RegisterGroup(ranks: seq<int>, explicitId: nat, isExplicit: bool) returns (res: Result<GroupDescriptor>)
      requires Valid()
      modifies this
      ensures Valid() && manager.epochs == old(manager.epochs)
      ensures old(handed) <= handed
      ensures var gid := if isExplicit then explicitId else ToNat(HashOf([Bytes(GROUP_TAG), Ints(ranks)]));
        if !Acceptable(ranks) then res == Err && State() == old(State())
        else if gid in old(registered) then
          && State() == old(State())
          && res == if old(registered)[gid].ranks == ranks then Ok(old(registered)[gid]) else Err
        else
          && res.Ok? && fresh(res.value) && res.value in handed
          && res.value.groupId == gid && res.value.ranks == ranks
          && State() == Next(old(State()), Register(res.value))
          && (State().Live(res.value) <==> rank in ranks)
    {
      hide HashOf, ToNat, Acceptable;
      if !Acceptable(ranks) {
        return Err;
      }
      var gid := explicitId;
      if !isExplicit {
        var h := StableHash64([Bytes(GROUP_TAG), Ints(ranks)]);
        gid := ToNat(h);
      }
      if gid in registered {
        var existing := registered[gid];
        if existing.ranks != ranks {
          return Err;
        }
        return Ok(existing);
      }
      var localIndex := LocalIndex(ranks, rank);
      var desc := new GroupDescriptor(gid, ranks, localIndex, localIndex >= 0);
      registered := registered[gid := desc];
      handed := handed + {desc};
      return Ok(desc);
    }

    method UnregisterGroup(group: GroupDescriptor)
      requires Valid() && group in handed
      modifies this, group
      ensures Valid() && handed == old(handed)
      ensures State() == Next(old(State()), Unregister(group))
    {
      if group.groupId !in registered || registered[group.groupId] != group {
        return;
      }
      registered := registered - {group.groupId};
      group.hasRankList := false;
    }

    /** `barrier`: the checks, one epoch, and the token it launches with. */
    method Barrier(group: GroupDescriptor) returns (res: Result<bv64>)
      requires Valid() && group in handed
      modifies manager
      ensures Valid() && handed == old(handed) && registered == old(registered)
      ensures res.Ok? <==> old(State()).Live(group) && group.size <= maxGroupSize
      ensures res == Err ==> State() == old(State())
      ensures res.Ok? ==> State() == Next(old(State()), Issue(group, 1))
      ensures res.Ok? ==> res.value == ComputeToken(nonce, group.groupId, old(State()).Peek(group.groupId))
    {
      hide ComputeToken;
      if group.localIndex < 0 || group.size > maxGroupSize || !group.hasRankList {
        return Err;
      }
      var epoch := manager.NextForBarrier(group.groupId);
      return Ok(ComputeToken(nonce, group.groupId, epoch));
    }

    /** The epochs of a one-shot collective and the tokens of its two barriers. */
    method OneShotTokens(group: GroupDescriptor) returns (res: Result<(bv64, bv64)>)
      requires Valid() && group in handed
      modifies manager
      ensures Valid() && handed == old(handed) && registered == old(registered)
      ensures res.Ok? <==> old(State()).Live(group) && group.size <= maxGroupSize
      ensures res == Err ==> State() == old(State())
      ensures res.Ok? ==> State() == Next(old(State()), Issue(group, 2))
      ensures res.Ok? ==> var e := old(State()).Peek(group.groupId);
        res.value == (ComputeToken(nonce, group.groupId, e), ComputeToken(nonce, group.groupId, e + 1))
    {
      hide ComputeToken;
      if group.localIndex < 0 || group.size > maxGroupSize || !group.hasRankList {
        return Err;
      }
      var pre, post := manager.NextPairForCollective(group.groupId);
      return Ok((ComputeToken(nonce, group.groupId, pre), ComputeToken(nonce, group.groupId, post)));
    }

    /** A pipelined collective: one epoch for every piece and one for the post-barrier. */
    method PipelinedTokens(group: GroupDescriptor, pieces: nat) returns (res: Result<seq<bv64>>)
      requires Valid() && group in handed
      modifies manager
      ensures Valid() && handed == old(handed) && registered == old(registered)
      ensures res.Ok? <==> old(State()).Live(group) && group.size <= maxGroupSize
      ensures res == Err ==> State() == old(State())
      ensures res.Ok? ==> State() == Next(old(State()), Issue(group, pieces + 1))
      ensures res.Ok? ==> |res.value| == pieces + 1
      ensures res.Ok? ==> forall k :: 0 <= k <= pieces ==>
        res.value[k] == ComputeToken(nonce, group.groupId, old(State()).Peek(group.groupId) + k)
    {
      hide ComputeToken;
      if group.localIndex < 0 || group.size > maxGroupSize || !group.hasRankList {
        return Err;
      }
      var gid := group.groupId;
      var toks := [];
      for k := 0 to pieces + 1
        invariant Valid() && |toks| == k
        invariant manager.epochs == if k == 0 then old(manager.epochs)
            else old(manager.epochs)[gid := old(manager.Peek(gid)) + k]
        invariant forall j :: 0 <= j < k ==> toks[j] == ComputeToken(nonce, gid, old(manager.Peek(gid)) + j)
      {
        var e := manager.NextForBarrier(gid);
        toks := toks + [ComputeToken(nonce, gid, e)];
      }
      return Ok(toks);
    }
  }

  const GROUP_TAG: seq<bv8> := [103, 102, 99, 45, 103, 114, 111, 117, 112, 45, 118, 49]

  /** The tag is the text that the runtime hashes in front of the rank list. */
  lemma TagSpelled()
    ensures |GROUP_TAG| == |"gfc-group-v1"|
    ensures forall i :: 0 <= i < |GROUP_TAG| ==> GROUP_TAG[i] as char == "gfc-group-v1"[i]
  {
  }

  /** Registering without an id gives two groups different ids when their rank lists
      have one length and differ in one place. */
  lemma HashedIdsDiffer(ranks: seq<int>, k: nat, p: int)
    requires k < |ranks| && 0 <= ranks[k] < TWO64 && 0 <= p < TWO64
    ensures ToNat(HashOf([Bytes(GROUP_TAG), Ints(ranks)])) == ToNat(HashOf([Bytes(GROUP_TAG), Ints(ranks[k := p])]))
      <==> ranks[k] == p
  {
    hide HashOf, ToNat, Low64;
    var tag := [Bytes(GROUP_TAG)];
    assert ranks[k := ranks[k]] == ranks;
    IntsApart(tag, ranks, k, ranks[k], p);
    assert tag + [Ints(ranks)] == [Bytes(GROUP_TAG), Ints(ranks)];
    assert tag + [Ints(ranks[k := p])] == [Bytes(GROUP_TAG), Ints(ranks[k := p])];
    if HashOf(tag + [Ints(ranks)]) == HashOf(tag + [Ints(ranks[k := p])]) { Low64Distinct(ranks[k], p); }
    if ToNat(HashOf(tag + [Ints(ranks)])) == ToNat(HashOf(tag + [Ints(ranks[k := p])])) {
      ToNatInjective(HashOf(tag + [Ints(ranks)]), HashOf(tag + [Ints(ranks[k := p])]));
    }
  }

  /** The rank lists that can be registered are those on which the protocol model admits a
      barrier, up to the configured size; no other list is refused. */
  lemma AcceptableExactly(rt: Runtime, sys: Schedule.System, gid: nat, ranks: seq<int>)
    requires sys.world == rt.worldSize
    ensures rt.Acceptable(ranks) ==> forall i :: 0 <= i < |ranks| ==> ranks[i] >= 0
    ensures (forall i :: 0 <= i < |ranks| ==> ranks[i] >= 0) ==>
      (rt.Acceptable(ranks) <==>
        (|ranks| <= rt.maxGroupSize
         && Schedule.ValidOp(sys, Schedule.Op(gid, ranks, Schedule.Bare, Schedule.OneShot, 0, []))))
  {
  }

  // ------------------------------------------------------- lives of a group id

  /** The calls a trace has really issued, as `(group id, epochs)`. */
  function Issued(trace: seq<Event>): seq<(nat, nat)> {
    if trace == [] then []
    else
      var before := trace[..|trace| - 1];
      var e := trace[|trace| - 1];
      if e.Issue? && After(before).Live(e.handle) then Issued(before) + [(e.handle.groupId, e.count)]
          else Issued(before)
  }

  /** The epoch counts among `calls` that are on `gid`, in order. */
  function On(calls: seq<(nat, nat)>, gid: nat): seq<nat> {
    if calls == [] then []
    else
      var c := calls[|calls| - 1];
      var before := On(calls[..|calls| - 1], gid);
      if c.0 == gid then before + [c.1] else before
  }

  function Sum(counts: seq<nat>): nat {
    if counts == [] then 0 else Sum(counts[..|counts| - 1]) + counts[|counts| - 1]
  }

  lemma SumOnSnoc(calls: seq<(nat, nat)>, c: (nat, nat), gid: nat)
    ensures Sum(On(calls + [c], gid)) == Sum(On(calls, gid)) + if c.0 == gid then c.1 else 0
  {
    assert (calls + [c])[..|calls|] == calls;
    var f := On(calls, gid);
    assert (f + [c.1])[..|f|] == f;
  }

  /** After `before`, `e` is a call that really consumes epochs of `gid`. */
  predicate Accepts(before: seq<Event>, e: Event, gid: nat) {
    e.Issue? && e.handle.groupId == gid && After(before).Live(e.handle)
  }

  /** The counter and the record of issued calls move together. */
  lemma PeekNext(before: seq<Event>, e: Event, gid: nat)
    ensures var n := if Accepts(before, e, gid) then e.count else 0;
      && After(before + [e]).Peek(gid) == After(before).Peek(gid) + n
      && Sum(On(Issued(before + [e]), gid)) == Sum(On(Issued(before), gid)) + n
  {
    assert (before + [e])[..|before|] == before;
    if e.Issue? && After(before).Live(e.handle) {
      SumOnSnoc(Issued(before), (e.handle.groupId, e.count), gid);
    }
  }

  function Range(from: nat, n: nat): (r: seq<nat>)
    ensures |r| == n && forall k :: 0 <= k < n ==> r[k] == from + k
  {
    if n == 0 then [] else Range(from, n - 1) + [from + n - 1]
  }

  /** The epochs that a trace hands out for `gid`, in order. */
  function Epochs(trace: seq<Event>, gid: nat): seq<nat> {
    if trace == [] then []
    else
      var before := trace[..|trace| - 1];
      var e := trace[|trace| - 1];
      if Accepts(before, e, gid) then Epochs(before, gid) + Range(After(before).Peek(gid), e.count)
      else Epochs(before, gid)
  }

  /** Whatever is registered, unregistered or used in between, the epochs of an id are
      0, 1, 2, ...: none is skipped and none is issued twice. */
  lemma {:induction false} EpochsConsecutive(trace: seq<Event>, gid: nat)
    ensures |Epochs(trace, gid)| == After(trace).Peek(gid) == Sum(On(Issued(trace), gid))
    ensures forall k :: 0 <= k < |Epochs(trace, gid)| ==> Epochs(trace, gid)[k] == k
  {
    if trace != [] {
      var before := trace[..|trace| - 1];
      EpochsConsecutive(before, gid);
      var e := trace[|trace| - 1];
      hide Accepts, After, Run, Issued, On, Sum;
      assert trace == before + [e];
      PeekNext(before, e, gid);
    }
  }

  /** Two members whose histories on one id agree compute the same tokens for their next
      call on it, whatever they do on other groups and through any re-registration. */
  lemma SameHistorySameTokens(a: seq<Event>, b: seq<Event>, gid: nat, nonce: nat, k: nat)
    requires On(Issued(a), gid) == On(Issued(b), gid)
    ensures ComputeToken(nonce, gid, After(a).Peek(gid) + k) == ComputeToken(nonce, gid, After(b).Peek(gid) + k)
  {
    hide ComputeToken, After, Epochs;
    EpochsConsecutive(a, gid);
    EpochsConsecutive(b, gid);
  }

  // ------------------------------------------------------------ stale handles

  /** A handle that the registry does not hold evicts nothing. */
  lemma StaleEvictsNothing(s: Host, h: GroupDescriptor)
    requires h.groupId !in s.registered || s.registered[h.groupId] != h
    ensures Next(s, Unregister(h)) == s
  {
  }

  /** Every registration creates its own handle. */
  ghost predicate FreshHandles(trace: seq<Event>) {
    forall i, j :: 0 <= i < j < |trace| && trace[i].Register? && trace[j].Register? ==>
        trace[i].handle != trace[j].handle
  }

  lemma RunPrefix(trace: seq<Event>, i: nat)
    requires i < |trace|
    ensures After(trace[..i + 1]) == Next(After(trace[..i]), trace[i])
  {
    assert trace[..i + 1][..i] == trace[..i];
  }

  ghost predicate Holds(trace: seq<Event>, i: nat, h: GroupDescriptor)
    requires i <= |trace|
  {
    var s := After(trace[..i]);
    h.groupId in s.registered && s.registered[h.groupId] == h
  }

  /** A registered handle was registered earlier. */
  lemma {:induction false} HeldWasRegistered(trace: seq<Event>, i: nat, h: GroupDescriptor) returns (j: nat)
    requires i <= |trace| && Holds(trace, i, h)
    ensures j < i && trace[j] == Register(h) && !Holds(trace, j, h)
  {
    if i == 0 {
      assert false;
    }
    RunPrefix(trace, i - 1);
    if Holds(trace, i - 1, h) {
      j := HeldWasRegistered(trace, i - 1, h);
    } else {
      j := i - 1;
    }
  }

  /** A live group loses its registration only through its own handle: whatever stale
      handles are released meanwhile, some step in between released this very one. */
  lemma {:induction false} OnlyItsHandleEvicts(trace: seq<Event>, i: nat, j: nat, h: GroupDescriptor) returns (k: nat)
    requires i <= j <= |trace| && Holds(trace, i, h) && !Holds(trace, j, h)
    ensures i <= k < j && trace[k] == Unregister(h) && Holds(trace, k, h)
  {
    RunPrefix(trace, j - 1);
    if Holds(trace, j - 1, h) {
      k := j - 1;
    } else {
      k := OnlyItsHandleEvicts(trace, i, j - 1, h);
    }
  }

  /** Once released, a handle never becomes live again. */
  lemma ReleasedForever(trace: seq<Event>, i: nat, j: nat, h: GroupDescriptor)
    requires FreshHandles(trace) && i < j <= |trace|
    requires trace[i] == Unregister(h) && Holds(trace, i, h)
    ensures !Holds(trace, j, h)
    decreases j
  {
    var a := HeldWasRegistered(trace, i, h);
    RunPrefix(trace, i);
    if j > i + 1 {
      ReleasedForever(trace, i, j - 1, h);
      RunPrefix(trace, j - 1);
    }
  }

  /** So releasing it again at any later time changes nothing, whatever group has its id
      by then. */
  lemma StaleReleaseKeeps(trace: seq<Event>, i: nat, j: nat, h: GroupDescriptor)
    requires FreshHandles(trace) && i < j < |trace|
    requires trace[i] == Unregister(h) && Holds(trace, i, h) && trace[j] == Unregister(h)
    ensures After(trace[..j + 1]) == After(trace[..j])
  {
    ReleasedForever(trace, i, j, h);
    RunPrefix(trace, j);
    StaleEvictsNothing(After(trace[..j]), h);
  }

  // --------------------------------------------------- what the schedule assumes

  /** A rank's first `i` calls, as the host sees them. */
  ghost function Calls(sys: Schedule.System, r: nat, i: nat): seq<(nat, nat)>
    requires Schedule.Shape(sys) && r < sys.world && i <= |sys.prog[r]|
  {
    if i == 0 then []
    else
      var op := sys.ops[sys.prog[r][i - 1]];
      Calls(sys, r, i - 1) + [(op.gid, Schedule.Epochs(op))]
  }

  lemma {:induction false} CallsCountEpochs(sys: Schedule.System, r: nat, i: nat, gid: nat)
    requires Schedule.Shape(sys) && r < sys.world && i <= |sys.prog[r]|
    ensures Sum(On(Calls(sys, r, i), gid)) == Schedule.EpochsBefore(sys, r, gid, i)
  {
    if i > 0 {
      CallsCountEpochs(sys, r, i - 1, gid);
      var op := sys.ops[sys.prog[r][i - 1]];
      SumOnSnoc(Calls(sys, r, i - 1), (op.gid, Schedule.Epochs(op)), gid);
    }
  }

  /** However a rank mixes registrations with its calls, when it has issued its first `i`
      calls its counter for any group stands where the protocol model puts it. */
  lemma CounterMatchesSchedule(sys: Schedule.System, r: nat, i: nat, trace: seq<Event>, gid: nat)
    requires Schedule.Shape(sys) && r < sys.world && i <= |sys.prog[r]|
    requires Issued(trace) == Calls(sys, r, i)
    ensures After(trace).Peek(gid) == Schedule.EpochsBefore(sys, r, gid, i)
  {
    EpochsConsecutive(trace, gid);
    CallsCountEpochs(sys, r, i, gid);
  }
}
