/** The pull kernels: a grid of programs, each walking the tiles `pid`, `pid + programs`,
    ... with the peer order rotated by the rank's own place in the group. */
module PullKernels {
  import opened Arithmetic
  import opened Lanes
  import VecWidth

  /** What one launch is given. Peer `i` reads from `comm[ranks[i]]` at `from` and its bytes
      go to `at + i * stride` of the destination; `elt` bytes per lane, `block` lanes per tile. */
  datatype Launch = Launch(
    comm: seq<seq<bv8>>, ranks: seq<nat>, from: nat, at: nat,
    me: nat, copy: nat, stride: nat, elt: nat, block: nat, programs: nat)
  {
    ghost predicate Valid() {
      && me < |ranks|
      && 0 < copy <= stride
      && elt > 0 && block > 0 && programs > 0
      && (forall i :: 0 <= i < |ranks| ==> ranks[i] < |comm| && from + copy <= |comm[ranks[i]]|)
    }

    function Full(): nat requires elt > 0 { copy / elt }

    function Bulk(): nat requires elt > 0 { Full() * elt }

    /** The peer and the byte of its slice that position `j` of the destination belongs to. */
    function PeerOf(j: int): int requires stride > 0 { (j - at) / stride }

    function ByteOf(j: int): int requires stride > 0 { (j - at) % stride }

    predicate Inside(j: int) requires stride > 0 {
      at <= j && PeerOf(j) < |ranks| && ByteOf(j) < copy
    }

    function SourceByte(j: int): bv8
      requires Valid() && Inside(j)
    {
      var i: nat, b: nat := PeerOf(j), ByteOf(j);
      assert i < |ranks| && b < copy;
      comm[ranks[i]][from + b]
    }

    /** The place of peer `i` in the rotated order. */
    function Delta(i: int): int requires ranks != [] { Turn(|ranks|, me, i) }

    function TaskOf(j: int): int
      requires stride > 0 && elt > 0 && block > 0 && ranks != []
    {
      ByteOf(j) / (block * elt) * |ranks| + Delta(PeerOf(j))
    }

    /** The program that stores position `j`; not a program of the grid if nobody does. */
    function Owner(j: int): int
      requires stride > 0 && elt > 0 && block > 0 && programs > 0 && ranks != []
    {
      if ByteOf(j) < Bulk() then TaskOf(j) % programs else Delta(PeerOf(j))
    }

    predicate Fits(length: nat) requires ranks != [] {
      at + (|ranks| - 1) * stride + copy <= length
    }
  }

  // --------------------------------------------------------------- arithmetic

  /** Position `j` belongs to the bytes `[lo, hi)` of peer `i`. */
  predicate InStretch(l: Launch, i: int, lo: int, hi: int, j: int)
    requires l.Valid()
    ensures InStretch(l, i, lo, hi, j) ==> l.Inside(j)
  {
    l.Inside(j) && l.PeerOf(j) == i && lo <= l.ByteOf(j) < hi
  }

  lemma Stretch(l: Launch, i: nat, lo: nat, hi: nat, j: int)
    requires l.Valid() && i < |l.ranks| && lo <= hi <= l.copy
    ensures l.at + i * l.stride + lo <= j < l.at + i * l.stride + hi <==> InStretch(l, i, lo, hi, j)
    ensures InStretch(l, i, lo, hi, j) ==>
      0 <= j - (l.at + i * l.stride) < l.copy &&
          l.SourceByte(j) == l.comm[l.ranks[i]][l.from + (j - (l.at + i * l.stride))]
  {
    assert i * l.stride >= 0;
    if l.at <= j { InRow(l.stride, i, j - l.at, lo, hi); }
  }

  lemma InRow(n: nat, i: nat, x: nat, lo: nat, hi: nat)
    requires n > 0 && lo <= hi <= n
    ensures i * n + lo <= x < i * n + hi <==> x / n == i && lo <= x % n < hi
    ensures x / n == i ==> x % n == x - i * n
  {
    assert x == x / n * n + x % n;
    if i * n + lo <= x < i * n + hi { DivModOf(n, i, x - i * n); }
  }

  lemma StretchInside(l: Launch, i: nat, length: nat)
    requires l.Valid() && i < |l.ranks| && l.Fits(length)
    ensures l.at + i * l.stride + l.copy <= length
  {
    if i < |l.ranks| - 1 { MulGap(l.stride, i, |l.ranks| - 1); }
  }

  lemma BulkBound(l: Launch)
    requires l.Valid()
    ensures l.Bulk() <= l.copy < l.Bulk() + l.elt
  {
    assert l.copy == l.copy / l.elt * l.elt + l.copy % l.elt;
  }

  /** End of the stretch that tile `t` covers. */
  function TileEnd(l: Launch, t: nat): nat
    requires l.elt > 0
  {
    Min((t + 1) * l.block, l.Full()) * l.elt
  }

  /** Position `j` belongs to tile `t` of peer `i`. */
  predicate InTile(l: Launch, i: int, t: nat, j: int)
    requires l.Valid()
    ensures InTile(l, i, t, j) ==> l.Inside(j)
  {
    InStretch(l, i, t * l.block * l.elt, TileEnd(l, t), j)
  }

  /** Tile `t` covers the bulk bytes `b` with `b / (block * elt) == t`. */
  lemma TileRange(l: Launch, t: nat, b: nat)
    requires l.Valid() && t * l.block < l.Full()
    ensures t * l.block * l.elt <= TileEnd(l, t) <= l.Bulk()
    ensures t * l.block * l.elt <= b < TileEnd(l, t) <==> b < l.Bulk() && b / (l.block * l.elt) == t
  {
    var n := l.block * l.elt;
    assert t * l.block * l.elt == t * n;
    assert (t + 1) * l.block * l.elt == t * n + n by { assert (t + 1) * l.block == t * l.block + l.block; }
    var e := (t + 1) * l.block;
    assert TileEnd(l, t) == Min(e * l.elt, l.Bulk()) by {
      if e < l.Full() { MulGap(l.elt, e, l.Full()); } else if l.Full() < e { MulGap(l.elt, l.Full(), e); }
    }
    MulGap(l.elt, t * l.block, l.Full());
    assert n > 0 by { MulAtLeast(l.block, l.elt); }
    InBlock(n, t, b);
  }

  lemma InBlock(n: nat, t: nat, b: nat)
    requires n > 0
    ensures t * n <= b < t * n + n <==> b / n == t
  {
    assert b == b / n * n + b % n;
    if t * n <= b < t * n + n { DivModOf(n, t, b - t * n); }
  }

  // ------------------------------------------------------------------ a store

  /** The lanes `[first, first + block)` of peer `i`, masked at `full` elements of `elt` bytes. */
  method StoreStretch(l: Launch, dst: array<bv8>, i: nat, first: nat, block: nat, full: nat, elt: nat)
    requires l.Valid() && i < |l.ranks| && l.Fits(dst.Length)
    requires first <= full && full * elt <= l.copy
    modifies dst
    ensures forall j :: 0 <= j < dst.Length ==>
      dst[j] == if InStretch(l, i, first * elt, Min(first + block, full) * elt, j) then l.SourceByte(j) else old(dst[j])
  {
    StretchInside(l, i, dst.Length);
    ghost var lo: nat, hi: nat := first * elt, Min(first + block, full) * elt;
    LanesWithin(first, block, full, elt);
    StoreLanes(l.comm[l.ranks[i]], dst, l.from, l.at + i * l.stride, first, block, full, elt);
    hide InStretch, Launch.SourceByte, Launch.Inside, Launch.Fits;
    forall j | 0 <= j < dst.Length
      ensures dst[j] == if InStretch(l, i, lo, hi, j) then l.SourceByte(j) else old(dst[j])
    {
      Stretch(l, i, lo, hi, j);
    }
  }

  lemma LanesWithin(first: nat, block: nat, full: nat, elt: nat)
    requires first <= full
    ensures first * elt <= Min(first + block, full) * elt <= full * elt
  {
    var m := Min(first + block, full);
    if first < m { MulGap(elt, first, m); }
    if m < full { MulGap(elt, m, full); }
  }

  /** One tile of one peer: lane `k` moves element `t * block + k` while it is in range. */
  method StoreTile(l: Launch, dst: array<bv8>, i: nat, t: nat)
    requires l.Valid() && i < |l.ranks| && l.Fits(dst.Length) && t * l.block < l.Full()
    modifies dst
    ensures forall j :: 0 <= j < dst.Length ==>
      dst[j] == if InTile(l, i, t, j) then l.SourceByte(j) else old(dst[j])
  {
    hide InStretch, Launch.SourceByte, Launch.Inside;
    BulkBound(l);
    assert t * l.block + l.block == (t + 1) * l.block;
    StoreStretch(l, dst, i, t * l.block, l.block, l.Full(), l.elt);
  }

  /** The bytes after the last whole element of peer `i`. */
  method StoreTail(l: Launch, dst: array<bv8>, i: nat)
    requires l.Valid() && i < |l.ranks| && l.Fits(dst.Length)
    modifies dst
    ensures forall j :: 0 <= j < dst.Length ==>
      dst[j] == if InStretch(l, i, l.Bulk(), l.copy, j) then l.SourceByte(j) else old(dst[j])
  {
    hide InStretch, Launch.SourceByte, Launch.Inside;
    BulkBound(l);
    StoreStretch(l, dst, i, l.Bulk(), l.elt, l.copy, 1);
  }

  // ---------------------------------------------------------------- a program

  function TotalTasks(l: Launch): nat
    requires l.block > 0 && l.elt > 0
  {
    |l.ranks| * CeilDiv(l.Full(), l.block)
  }

  /** The tile and the peer that a task stands for. */
  function TileOf(l: Launch, task: nat): nat
    requires l.ranks != []
  {
    task / |l.ranks|
  }

  function PeerFor(l: Launch, task: nat): int
    requires l.ranks != []
  {
    var delta := task - TileOf(l, task) * |l.ranks|;
    (delta + l.me + 1) % |l.ranks|
  }

  /** What one turn of the loop stores: the positions whose task is `task`. */
  lemma TurnStores(l: Launch, task: nat, j: int)
    requires l.Valid() && task < TotalTasks(l)
    ensures TileOf(l, task) * l.block < l.Full() && 0 <= PeerFor(l, task) < |l.ranks|
    ensures InTile(l, PeerFor(l, task), TileOf(l, task), j) <==>
      l.Inside(j) && l.ByteOf(j) < l.Bulk() && l.TaskOf(j) == task
  {
    var g, n := |l.ranks|, CeilDiv(l.Full(), l.block);
    var t, delta := task / g, task % g;
    assert task == t * g + delta;
    DivBound(g, n, task);
    CeilDivAtMost(l.Full(), l.block, t);
    if l.Inside(j) { TurnStoresInside(l, task, t, delta, j); }
  }

  lemma TurnStoresInside(l: Launch, task: nat, t: nat, delta: nat, j: int)
    requires l.Valid() && delta < |l.ranks| && task == t * |l.ranks| + delta && t * l.block < l.Full()
    requires l.Inside(j)
    ensures InTile(l, (delta + l.me + 1) % |l.ranks|, t, j) <==> l.ByteOf(j) < l.Bulk() && l.TaskOf(j) == task
  {
    var peer := PeerAt(l, j);
    var b: nat := l.ByteOf(j);
    Swizzle(|l.ranks|, l.me, peer, delta);
    TileRange(l, t, b);
    TaskParts(l, |l.ranks|, b / (l.block * l.elt), l.Delta(peer), t, delta);
  }

  lemma TaskParts(l: Launch, g: nat, a: int, b: int, t: nat, delta: nat)
    requires 0 <= a && 0 <= b < g && delta < g
    ensures a * g + b == t * g + delta <==> a == t && b == delta
  {
    if a * g + b == t * g + delta { PairInjective(g, a, b, t, delta); }
  }

  lemma PeerAt(l: Launch, j: int) returns (peer: nat)
    requires l.Valid() && l.Inside(j)
    ensures peer == l.PeerOf(j) < |l.ranks|
    ensures 0 <= l.ByteOf(j) < l.copy
    ensures 0 <= l.Delta(peer) < |l.ranks| && 0 <= l.TaskOf(j)
  {
    peer := l.PeerOf(j);
    Swizzle(|l.ranks|, l.me, peer, 0);
    assert l.ByteOf(j) / (l.block * l.elt) >= 0 by { MulAtLeast(l.block, l.elt); }
    assert l.ByteOf(j) / (l.block * l.elt) * |l.ranks| >= 0;
  }

  /** Nothing lies between two turns of one program. */
  lemma NextTurn(p: nat, pid: nat, task: nat, x: nat)
    requires pid < p && task % p == pid && x % p == pid
    ensures x < task + p <==> (x < task || x == task)
  {
    assert task == task / p * p + pid;
    assert x == x / p * p + pid;
    Turns(p, task / p, x / p);
  }

  lemma NextMod(p: nat, pid: nat, task: nat)
    requires pid < p && task % p == pid
    ensures (task + p) % p == pid
  {
    DivModOf(p, task / p + 1, pid);
  }

  lemma Turns(p: nat, q: nat, r: nat)
    ensures q < r ==> q * p + p <= r * p
    ensures r < q ==> r * p + p <= q * p
  {
    if q < r { MulGap(p, q, r); } else if r < q { MulGap(p, r, q); }
  }

  /** A task below the total is reached by a bulk byte of every peer. */
  lemma TaskBelowTotal(l: Launch, j: int)
    requires l.Valid() && l.Inside(j) && l.ByteOf(j) < l.Bulk()
    ensures 0 <= l.TaskOf(j) < TotalTasks(l)
  {
    var peer := PeerAt(l, j);
    var b, n, g := l.ByteOf(j), CeilDiv(l.Full(), l.block), |l.ranks|;
    CeilDivMeans(l.Full(), l.block);
    assert n * (l.block * l.elt) == n * l.block * l.elt;
    if l.Full() < n * l.block { MulGap(l.elt, l.Full(), n * l.block); }
    MulAtLeast(l.block, l.elt);
    DivBound(l.block * l.elt, n, b);
    PairBound(g, n, b / (l.block * l.elt), l.Delta(peer));
  }

  /** The positions of one turn of the loop. */
  predicate AtTask(l: Launch, task: nat, j: int)
    requires l.Valid()
    ensures AtTask(l, task, j) ==> l.Inside(j)
  {
    l.Inside(j) && l.ByteOf(j) < l.Bulk() && l.TaskOf(j) == task
  }

  /** The positions of program `pid`'s part of the tail. */
  predicate AtTail(l: Launch, pid: nat, j: int)
    requires l.Valid()
    ensures AtTail(l, pid, j) ==> l.Inside(j)
  {
    l.Inside(j) && l.Bulk() <= l.ByteOf(j) && l.Owner(j) == pid
  }

  /** One turn of the loop over whole elements. */
  method RunTurn(l: Launch, dst: array<bv8>, task: nat)
    requires l.Valid() && l.Fits(dst.Length) && task < TotalTasks(l)
    modifies dst
    ensures forall j :: 0 <= j < dst.Length ==> dst[j] == if AtTask(l, task, j) then l.SourceByte(j) else old(dst[j])
  {
    hide TotalTasks, TileOf, PeerFor, InTile, AtTask, Launch.Inside, Launch.SourceByte, Launch.Fits;
    TurnStores(l, task, 0);
    StoreTile(l, dst, PeerFor(l, task), TileOf(l, task));
    forall j | 0 <= j < dst.Length ensures InTile(l, PeerFor(l, task), TileOf(l, task), j) <==> AtTask(l, task, j) {
      TurnIsTask(l, task, j);
    }
  }

  lemma TurnIsTask(l: Launch, task: nat, j: int)
    requires l.Valid() && task < TotalTasks(l)
    ensures InTile(l, PeerFor(l, task), TileOf(l, task), j) <==> AtTask(l, task, j)
  {
    TurnStores(l, task, j);
  }

  /** What a program does after its loop. */
  method RunTail(l: Launch, dst: array<bv8>, pid: nat)
    requires l.Valid() && l.Fits(dst.Length) && pid < l.programs
    modifies dst
    ensures forall j :: 0 <= j < dst.Length ==> dst[j] == if AtTail(l, pid, j) then l.SourceByte(j) else old(dst[j])
  {
    hide AtTail, InStretch, Launch.Inside, Launch.SourceByte, Launch.Fits;
    if l.copy % l.elt != 0 && pid < |l.ranks| {
      StoreTail(l, dst, (pid + l.me + 1) % |l.ranks|);
    }
    forall j | 0 <= j < dst.Length
      ensures AtTail(l, pid, j) <==>
        (l.copy % l.elt != 0 && pid < |l.ranks| && InStretch(l, (pid + l.me + 1) % |l.ranks|, l.Bulk(), l.copy, j))
    {
      TailStretch(l, pid, j);
    }
  }

  lemma TailStretch(l: Launch, pid: nat, j: int)
    requires l.Valid()
    ensures AtTail(l, pid, j) <==>
      (l.copy % l.elt != 0 && pid < |l.ranks| && InStretch(l, (pid + l.me + 1) % |l.ranks|, l.Bulk(), l.copy, j))
  {
    if l.Inside(j) && l.Bulk() <= l.ByteOf(j) { TailOwner(l, pid, j); }
  }

  lemma TailOwner(l: Launch, pid: nat, j: int)
    requires l.Valid() && l.Inside(j) && l.Bulk() <= l.ByteOf(j)
    ensures l.copy % l.elt != 0
    ensures l.Owner(j) == pid <==> pid < |l.ranks| && l.PeerOf(j) == (pid + l.me + 1) % |l.ranks|
  {
    var peer := PeerAt(l, j);
    BulkBound(l);
    assert l.copy == l.Bulk() + l.copy % l.elt;
    if pid < |l.ranks| { Swizzle(|l.ranks|, l.me, peer, pid); }
  }

  // ------------------------------------------------------------------- a grid

  /** Where the programs of a grid are: the next task of each, and which have ended. */
  datatype GridState = GridState(next: seq<nat>, live: set<int>)
  {
    ghost predicate OfGrid(l: Launch) requires l.Valid() {
      && |next| == l.programs
      && (forall p :: 0 <= p < |next| ==> next[p] % l.programs == p)
      && (forall p :: p in live ==> 0 <= p < |next|)
      && (forall p :: 0 <= p < |next| && p !in live ==> next[p] >= TotalTasks(l))
    }

    /** Position `j` has been stored. */
    ghost predicate Done(l: Launch, j: int)
      requires l.Valid() && OfGrid(l)
    {
      && l.Inside(j) && 0 <= l.Owner(j) < |next|
      && if l.ByteOf(j) < l.Bulk() then l.TaskOf(j) < next[l.Owner(j)] else l.Owner(j) !in live
    }
  }

  /** The destination and the number of stores to each position so far. */
  ghost predicate Stored(l: Launch, g: GridState, was: seq<bv8>, now: seq<bv8>, stores: seq<nat>)
    requires l.Valid() && g.OfGrid(l)
  {
    && |now| == |stores| == |was|
    && (forall j :: 0 <= j < |now| ==> now[j] == if g.Done(l, j) then l.SourceByte(j) else was[j])
    && (forall j :: 0 <= j < |now| ==> stores[j] == if g.Done(l, j) then 1 else 0)
  }

  ghost function Counted(stores: seq<nat>, here: iset<int>): (r: seq<nat>)
    ensures |r| == |stores| && forall j :: 0 <= j < |r| ==> r[j] == stores[j] + if j in here then 1 else 0
  {
    seq(|stores|, j requires 0 <= j < |stores| => stores[j] + if j in here then 1 else 0)
  }

  function AfterTurn(l: Launch, g: GridState, pid: nat): GridState
    requires pid < |g.next|
  {
    g.(next := g.next[pid := g.next[pid] + l.programs])
  }

  function AfterTail(g: GridState, pid: nat): GridState {
    g.(live := g.live - {pid})
  }

  lemma TurnKeepsFor(l: Launch, g: GridState, pid: nat)
    requires l.Valid() && g.OfGrid(l) && pid in g.live
    ensures AfterTurn(l, g, pid).OfGrid(l)
  {
    NextMod(l.programs, pid, g.next[pid]);
  }

  /** A turn stores positions that nobody has stored, and makes just those done. */
  lemma TurnDone(l: Launch, g: GridState, pid: nat, j: int)
    requires l.Valid() && g.OfGrid(l) && pid in g.live && AfterTurn(l, g, pid).OfGrid(l)
    ensures AfterTurn(l, g, pid).Done(l, j) <==> (g.Done(l, j) || AtTask(l, g.next[pid], j))
    ensures AtTask(l, g.next[pid], j) ==> !g.Done(l, j)
  {
    if l.Inside(j) && l.ByteOf(j) < l.Bulk() {
      var _ := PeerAt(l, j);
      if l.Owner(j) == pid { NextTurn(l.programs, pid, g.next[pid], l.TaskOf(j)); }
    }
  }

  lemma TailDone(l: Launch, g: GridState, pid: nat, j: int)
    requires l.Valid() && g.OfGrid(l) && pid in g.live && AfterTail(g, pid).OfGrid(l)
    ensures AfterTail(g, pid).Done(l, j) <==> (g.Done(l, j) || AtTail(l, pid, j))
    ensures AtTail(l, pid, j) ==> !g.Done(l, j)
  {
  }

  lemma StoredAfter(l: Launch, g: GridState, h: GridState, here: iset<int>,
      was: seq<bv8>, mid: seq<bv8>, now: seq<bv8>, stores: seq<nat>)
    requires l.Valid() && g.OfGrid(l) && h.OfGrid(l) && Stored(l, g, was, mid, stores) && |now| == |mid|
    requires forall j :: 0 <= j < |now| ==> (j in here ==> l.Inside(j))
    requires forall j :: 0 <= j < |now| ==> now[j] == if j in here then l.SourceByte(j) else mid[j]
    requires forall j :: 0 <= j < |now| ==> (j in here ==> !g.Done(l, j))
    requires forall j :: 0 <= j < |now| ==> (h.Done(l, j) <==> (g.Done(l, j) || j in here))
    ensures Stored(l, h, was, now, Counted(stores, here))
  {
    hide GridState.Done, GridState.OfGrid, Launch.Inside, Launch.SourceByte;
  }

  function Start(n: nat): (next: seq<nat>)
    ensures |next| == n && forall p :: 0 <= p < n ==> next[p] == p
  {
    if n == 0 then [] else Start(n - 1) + [n - 1]
  }

  /** The next action of program `pid`: a turn of its loop, or its tail once the loop is over. */
  method Act(l: Launch, dst: array<bv8>, g: GridState, pid: nat, ghost was: seq<bv8>, ghost stores: seq<nat>)
    returns (h: GridState, ghost counts: seq<nat>)
    requires l.Valid() && l.Fits(dst.Length) && g.OfGrid(l) && pid in g.live
    requires Stored(l, g, was, dst[..], stores)
    modifies dst
    ensures h == if g.next[pid] < TotalTasks(l) then AfterTurn(l, g, pid) else AfterTail(g, pid)
    ensures h.OfGrid(l) && Stored(l, h, was, dst[..], counts)
  {
    hide Stored, GridState.Done, TotalTasks, AtTask, AtTail, Launch.Inside, Launch.SourceByte, Launch.Fits,
        Launch.Owner;
    ghost var mid := dst[..];
    if g.next[pid] < TotalTasks(l) {
      ghost var task := g.next[pid];
      RunTurn(l, dst, g.next[pid]);
      TurnKeepsFor(l, g, pid);
      h := AfterTurn(l, g, pid);
      forall j | 0 <= j < dst.Length
        ensures h.Done(l, j) <==> (g.Done(l, j) || AtTask(l, task, j))
        ensures AtTask(l, task, j) ==> !g.Done(l, j)
      {
        TurnDone(l, g, pid, j);
      }
      ghost var here := iset j | AtTask(l, task, j);
      StoredAfter(l, g, h, here, was, mid, dst[..], stores);
      counts := Counted(stores, here);
    } else {
      RunTail(l, dst, pid);
      h := AfterTail(g, pid);
      forall j | 0 <= j < dst.Length
        ensures h.Done(l, j) <==> (g.Done(l, j) || AtTail(l, pid, j))
        ensures AtTail(l, pid, j) ==> !g.Done(l, j)
      {
        TailDone(l, g, pid, j);
      }
      ghost var here := iset j | AtTail(l, pid, j);
      StoredAfter(l, g, h, here, was, mid, dst[..], stores);
      counts := Counted(stores, here);
    }
  }

  /** One program on its own stores exactly the positions it owns, each from its source. */
  method Program(l: Launch, dst: array<bv8>, pid: nat)
    requires l.Valid() && l.Fits(dst.Length) && pid < l.programs
    modifies dst
    ensures forall j :: 0 <= j < dst.Length ==>
      dst[j] == if l.Inside(j) && l.Owner(j) == pid then l.SourceByte(j) else old(dst[j])
  {
    hide Stored, GridState.Done, TotalTasks, Launch.Inside, Launch.SourceByte, Launch.Fits, Launch.Owner;
    var g := GridState(Start(l.programs), Upto(l.programs));
    ghost var was, stores := dst[..], seq(dst.Length, _ => 0);
    GridStarts(l, g, was, stores);
    while pid in g.live
      invariant g.OfGrid(l) && Stored(l, g, was, dst[..], stores) && OnlyMoved(g, pid)
      decreases |g.live|, TotalTasks(l) - g.next[pid]
    {
      g, stores := Act(l, dst, g, pid, was, stores);
    }
    ProgramEnds(l, g, pid, was, dst[..], stores);
  }

  lemma ProgramEnds(l: Launch, g: GridState, pid: nat, was: seq<bv8>, now: seq<bv8>, stores: seq<nat>)
    requires l.Valid() && g.OfGrid(l) && pid < l.programs && pid !in g.live && OnlyMoved(g, pid)
    requires Stored(l, g, was, now, stores)
    ensures |now| == |was|
    ensures forall j :: 0 <= j < |now| ==> now[j] == if l.Inside(j) && l.Owner(j) == pid then l.SourceByte(j)
        else was[j]
  {
    forall j | 0 <= j < |now| ensures g.Done(l, j) <==> l.Inside(j) && l.Owner(j) == pid { OwnDone(l, g, pid, j); }
  }

  /** No program but `pid` has done anything. */
  ghost predicate OnlyMoved(g: GridState, pid: nat) {
    forall p :: 0 <= p < |g.next| && p != pid ==> g.next[p] == p && p in g.live
  }

  lemma OwnDone(l: Launch, g: GridState, pid: nat, j: int)
    requires l.Valid() && g.OfGrid(l) && pid < l.programs && pid !in g.live && OnlyMoved(g, pid)
    ensures g.Done(l, j) <==> l.Inside(j) && l.Owner(j) == pid
  {
    if l.Inside(j) {
      var _ := PeerAt(l, j);
      if l.ByteOf(j) < l.Bulk() {
        TaskBelowTotal(l, j);
        if l.TaskOf(j) < l.Owner(j) { DivModOf(l.programs, 0, l.TaskOf(j)); }
      }
    }
  }

  /** All programs of the grid, their turns interleaved in any order. Each owned position
      is stored exactly once, from its source, and no other position is touched. */
  method Grid(l: Launch, dst: array<bv8>) returns (ghost stores: seq<nat>)
    requires l.Valid() && l.Fits(dst.Length)
    modifies dst
    ensures |stores| == dst.Length
    ensures forall j :: 0 <= j < dst.Length ==>
      dst[j] == if l.Inside(j) && l.Owner(j) < l.programs then l.SourceByte(j) else old(dst[j])
    ensures forall j :: 0 <= j < dst.Length ==> stores[j] == if l.Inside(j) && l.Owner(j) < l.programs then 1 else 0
  {
    hide Stored, GridState.Done, GridState.OfGrid, TotalTasks, Launch.Inside, Launch.SourceByte, Launch.Fits,
        Launch.Owner;
    var total := TotalTasks(l);
    var g := GridState(Start(l.programs), Upto(l.programs));
    ghost var was, limits := dst[..], seq(l.programs, _ => total);
    stores := seq(dst.Length, _ => 0);
    GridStarts(l, g, was, stores);
    while g.live != {}
      invariant g.OfGrid(l) && |g.next| == l.programs && Stored(l, g, was, dst[..], stores)
      decreases |g.live|, Pending(g.next, limits)
    {
      var pid: int :| pid in g.live;
      GridOn(l, g, pid, limits);
      g, stores := Act(l, dst, g, pid, was, stores);
    }
    GridEnds(l, g, was, dst[..], stores);
  }

  /** The action of a live program brings the grid nearer to its end. */
  lemma GridOn(l: Launch, g: GridState, pid: int, limits: seq<nat>)
    requires l.Valid() && g.OfGrid(l) && pid in g.live
    requires |limits| == |g.next| && forall p :: 0 <= p < |limits| ==> limits[p] == TotalTasks(l)
    ensures 0 <= pid < |g.next|
    ensures g.next[pid] < TotalTasks(l) ==>
      Pending(AfterTurn(l, g, pid).next, limits) < Pending(g.next, limits)
  {
    hide TotalTasks;
    if g.next[pid] < TotalTasks(l) { PendingLess(g.next, limits, pid, g.next[pid] + l.programs); }
  }

  lemma GridStarts(l: Launch, g: GridState, was: seq<bv8>, stores: seq<nat>)
    requires l.Valid() && g == GridState(Start(l.programs), Upto(l.programs))
    requires |stores| == |was| && forall j :: 0 <= j < |stores| ==> stores[j] == 0
    ensures g.OfGrid(l) && Stored(l, g, was, was, stores)
  {
    forall p | 0 <= p < l.programs ensures g.next[p] % l.programs == p { DivModOf(l.programs, 0, p); }
    forall j | 0 <= j < |was| ensures !g.Done(l, j) { NothingDone(l, g, j); }
  }

  lemma NothingDone(l: Launch, g: GridState, j: int)
    requires l.Valid() && g.OfGrid(l) && g == GridState(Start(l.programs), Upto(l.programs))
    ensures !g.Done(l, j)
  {
    if g.Done(l, j) && l.ByteOf(j) < l.Bulk() {
      var _ := PeerAt(l, j);
      DivModOf(l.programs, 0, l.TaskOf(j));
    }
  }

  lemma GridEnds(l: Launch, g: GridState, was: seq<bv8>, now: seq<bv8>, stores: seq<nat>)
    requires l.Valid() && g.OfGrid(l) && g.live == {} && Stored(l, g, was, now, stores)
    ensures |now| == |stores| == |was|
    ensures forall j :: 0 <= j < |now| ==>
      now[j] == if l.Inside(j) && l.Owner(j) < l.programs then l.SourceByte(j) else was[j]
    ensures forall j :: 0 <= j < |now| ==> stores[j] == if l.Inside(j) && l.Owner(j) < l.programs then 1 else 0
  {
    forall j | 0 <= j < |now| ensures g.Done(l, j) <==> l.Inside(j) && l.Owner(j) < l.programs { AllDone(l, g, j); }
  }

  lemma AllDone(l: Launch, g: GridState, j: int)
    requires l.Valid() && g.OfGrid(l) && g.live == {}
    ensures g.Done(l, j) <==> l.Inside(j) && l.Owner(j) < l.programs
  {
    if l.Inside(j) {
      var _ := PeerAt(l, j);
      if l.ByteOf(j) < l.Bulk() { TaskBelowTotal(l, j); }
    }
  }

  /** Where byte `b` of peer `i` belongs. */
  function Place(l: Launch, i: nat, b: nat): nat {
    l.at + i * l.stride + b
  }

  lemma PlaceInside(l: Launch, i: nat, b: nat)
    requires l.Valid() && i < |l.ranks| && b < l.copy
    ensures l.Inside(Place(l, i, b)) && l.PeerOf(Place(l, i, b)) == i && l.ByteOf(Place(l, i, b)) == b
  {
    DivModOf(l.stride, i, b);
    assert i * l.stride >= 0;
  }

  /** Every peer has the bytes `[from, from + copy)`. */
  ghost predicate Readable(comm: seq<seq<bv8>>, ranks: seq<nat>, from: nat, copy: nat) {
    forall i :: 0 <= i < |ranks| ==> ranks[i] < |comm| && from + copy <= |comm[ranks[i]]|
  }

  /** The plain copy: peer `i`'s bytes `[from, from + copy)` stand at `at + i * stride`, and
      nothing else is touched. */
  ghost predicate Gathered(comm: seq<seq<bv8>>, ranks: seq<nat>, from: nat, at: nat, copy: nat, stride: nat,
      was: seq<bv8>, now: seq<bv8>)
    requires stride > 0 && Readable(comm, ranks, from, copy)
  {
    && |now| == |was|
    && (forall j :: 0 <= j < |now| ==>
      now[j] == if 0 <= (j - at) / stride < |ranks| && (j - at) % stride < copy
                then comm[ranks[(j - at) / stride]][from + (j - at) % stride] else was[j])
  }

  /** Every byte has an owner exactly when there is no tail or the grid has a program for
      every peer. */
  lemma CoverageExact(l: Launch)
    requires l.Valid()
    ensures (forall j :: l.Inside(j) ==> l.Owner(j) < l.programs) <==>
      (l.copy % l.elt == 0 || l.programs >= |l.ranks|)
  {
    BulkBound(l);
    assert l.copy == l.Bulk() + l.copy % l.elt;
    if l.copy % l.elt == 0 || l.programs >= |l.ranks| {
      forall j | l.Inside(j) ensures l.Owner(j) < l.programs {
        var _ := PeerAt(l, j);
      }
    } else {
      var i := (l.programs + l.me + 1) % |l.ranks|;
      PlaceInside(l, i, l.Bulk());
      Swizzle(|l.ranks|, l.me, i, l.programs);
      assert l.Owner(Place(l, i, l.Bulk())) == l.programs;
    }
  }

  lemma QuotientSign(x: int, n: nat)
    requires n > 0
    ensures 0 <= x / n <==> 0 <= x
  {
    assert x == x / n * n + x % n;
    if x / n <= -1 { assert x / n * n + n <= 0; }
  }

  lemma GatheredWhenCovered(l: Launch, was: seq<bv8>, now: seq<bv8>)
    requires l.Valid() && |now| == |was|
    requires l.copy % l.elt == 0 || l.programs >= |l.ranks|
    requires forall j :: 0 <= j < |now| ==>
      now[j] == if l.Inside(j) && l.Owner(j) < l.programs then l.SourceByte(j) else was[j]
    ensures Gathered(l.comm, l.ranks, l.from, l.at, l.copy, l.stride, was, now)
  {
    CoverageExact(l);
    hide Launch.Owner;
    forall j | 0 <= j < |now|
      ensures l.Inside(j) <==> 0 <= (j - l.at) / l.stride < |l.ranks| && (j - l.at) % l.stride < l.copy
    {
      QuotientSign(j - l.at, l.stride);
    }
  }

  // ---------------------------------------------------------------- launchers

  const BLOCK_BYTES: nat := 65536

  /** Bytes per lane for a vector width. */
  function EltBytes(vec: int): (e: nat)
    ensures e == 1 || e == 4 || e == 8 || e == 16
  {
    if vec >= 16 then 16 else if vec >= 8 then 8 else if vec == 4 then 4 else 1
  }

  /** Programs the launchers ask for. */
  function Programs(g: nat, copy: nat, vec: int, numSms: nat): nat {
    var elt := EltBytes(vec);
    var blocks := CeilDiv(copy / elt, Max(BLOCK_BYTES / elt, 1));
    Min(numSms, Max(g * blocks, if copy % elt != 0 then g else 1))
  }

  function LaunchOf(comm: seq<seq<bv8>>, ranks: seq<nat>, from: nat, at: nat, me: nat, copy: nat, stride: nat,
      vec: int, numSms: nat): Launch {
    var elt := EltBytes(vec);
    var programs := Programs(|ranks|, copy, vec, numSms);
    Launch(comm, ranks, from, at, me, copy, stride, elt, Max(BLOCK_BYTES / elt, 1), programs)
  }

  /** The grid a launcher picks covers everything exactly when there is no tail or it was
      offered an SM for every peer. */
  lemma LauncherCovers(g: nat, copy: nat, vec: int, numSms: nat)
    requires g > 0 && numSms > 0
    ensures Programs(g, copy, vec, numSms) > 0
    ensures copy % EltBytes(vec) == 0 || Programs(g, copy, vec, numSms) >= g <==>
      copy % EltBytes(vec) == 0 || numSms >= g
  {
  }

  /** Two ranks, 17 bytes of which 16 make one element, a single SM: nobody stores the
      last byte of the peer that comes second in the rotated order. */
  lemma UncoveredTail(comm: seq<seq<bv8>>, j: int)
    requires |comm| == 2 && |comm[0]| == 17 && |comm[1]| == 17 && j == 16
    ensures var l := LaunchOf(comm, [0, 1], 0, 0, 0, 17, 17, 16, 1);
      l.Valid() && l.Inside(j) && l.programs == 1 && l.Owner(j) == 1
  {
  }

  datatype Outcome = Launched | AssertionFailed

  /** The launch that both collectives end in. */
  method RunPull(comm: seq<seq<bv8>>, ranks: seq<nat>, dst: array<bv8>, at: nat, from: nat,
                 me: nat, copy: nat, stride: nat, vec: int, numSms: nat)
    requires me < |ranks| && at + (|ranks| - 1) * stride + copy <= dst.Length
    requires forall i :: 0 <= i < |ranks| ==> ranks[i] < |comm| && from + copy <= |comm[ranks[i]]|
    requires 0 < copy <= stride && numSms > 0
    modifies dst
    ensures copy % EltBytes(vec) == 0 || numSms >= |ranks| ==>
      Gathered(comm, ranks, from, at, copy, stride, old(dst[..]), dst[..])
  {
    LauncherCovers(|ranks|, copy, vec, numSms);
    var l := LaunchOf(comm, ranks, from, at, me, copy, stride, vec, numSms);
    hide Gathered, Launch.Inside, Launch.SourceByte, Launch.Owner, Programs, EltBytes;
    ghost var _ := Grid(l, dst);
    if copy % EltBytes(vec) == 0 || numSms >= |ranks| {
      GatheredWhenCovered(l, old(dst[..]), dst[..]);
    }
  }

  /** `launch_all_gather_pull`, run to completion. */
  method LaunchAllGatherPull(comm: seq<seq<bv8>>, ranks: seq<nat>, dst: array<bv8>, at: nat, commOffset: nat,
                             me: nat, slice: nat, stride: nat, vec: int, numSms: int)
    returns (outcome: Outcome)
    requires ranks != [] ==> me < |ranks| && at + (|ranks| - 1) * stride + slice <= dst.Length
    requires forall i :: 0 <= i < |ranks| ==> ranks[i] < |comm| && commOffset + slice <= |comm[ranks[i]]|
    modifies dst
    ensures outcome == Launched <==> slice > 0 && ranks != [] && numSms > 0 && stride >= slice
    ensures outcome == AssertionFailed ==> dst[..] == old(dst[..])
    ensures outcome == Launched && (slice % EltBytes(vec) == 0 || numSms >= |ranks|) ==>
      Gathered(comm, ranks, commOffset, at, slice, stride, old(dst[..]), dst[..])
  {
    if slice <= 0 || |ranks| <= 0 || numSms <= 0 || stride < slice {
      return AssertionFailed;
    }
    hide Gathered;
    RunPull(comm, ranks, dst, at, commOffset, me, slice, stride, vec, numSms);
    return Launched;
  }

  /** `launch_all2all_pull`: the same, reading this rank's own slice of every peer. */
  method LaunchAllToAllPull(comm: seq<seq<bv8>>, ranks: seq<nat>, dst: array<bv8>, at: nat, commOffset: nat,
                            me: nat, copy: nat, srcStride: nat, stride: nat, vec: int, numSms: int)
    returns (outcome: Outcome)
    requires ranks != [] ==> me < |ranks| && at + (|ranks| - 1) * stride + copy <= dst.Length
    requires forall i :: 0 <= i < |ranks| ==>
      ranks[i] < |comm| && commOffset + me * srcStride + copy <= |comm[ranks[i]]|
    modifies dst
    ensures outcome == Launched <==>
      copy > 0 && srcStride >= copy && stride >= copy && ranks != [] && numSms > 0
    ensures outcome == AssertionFailed ==> dst[..] == old(dst[..])
    ensures outcome == Launched && (copy % EltBytes(vec) == 0 || numSms >= |ranks|) ==>
      Gathered(comm, ranks, commOffset + me * srcStride, at, copy, stride, old(dst[..]), dst[..])
  {
    if copy <= 0 || srcStride < copy || stride < copy || |ranks| <= 0 || numSms <= 0 {
      return AssertionFailed;
    }
    hide Gathered;
    RunPull(comm, ranks, dst, at, commOffset + me * srcStride, me, copy, stride, vec, numSms);
    return Launched;
  }

  /** `launch_pull_copy`: its kernel is the one-peer case, so a tail always has its program. */
  method LaunchPullCopy(src: seq<bv8>, dst: array<bv8>, nbytes: nat, vec: int, numSms: int) returns (outcome: Outcome)
    requires nbytes <= |src| && nbytes <= dst.Length
    modifies dst
    ensures outcome == Launched <==> nbytes > 0 && (vec == 1 || vec == 4 || vec == 8 || vec == 16) && numSms > 0
    ensures outcome == AssertionFailed ==> dst[..] == old(dst[..])
    ensures outcome == Launched ==> dst[..nbytes] == src[..nbytes] && dst[nbytes..] == old(dst[nbytes..])
  {
    if nbytes <= 0 || !(vec == 1 || vec == 4 || vec == 8 || vec == 16) || numSms <= 0 {
      return AssertionFailed;
    }
    LauncherCovers(1, nbytes, vec, numSms);
    var l := LaunchOf([src], [0], 0, 0, 0, nbytes, nbytes, vec, numSms);
    hide Gathered, Launch.Inside, Launch.SourceByte, Launch.Owner, Programs, EltBytes;
    ghost var _ := Grid(l, dst);
    OnePeer(l, src, old(dst[..]), dst[..]);
    return Launched;
  }

  lemma OnePeer(l: Launch, src: seq<bv8>, was: seq<bv8>, now: seq<bv8>)
    requires l.Valid() && l.Fits(|now|) && |now| == |was|
    requires l.copy <= |src| && l.copy <= |now| && l.comm == [src] && l.ranks == [0] && l.from == 0 && l.at == 0 &&
        l.copy == l.stride
    requires forall j :: 0 <= j < |now| ==>
      now[j] == if l.Inside(j) && l.Owner(j) < l.programs then l.SourceByte(j) else was[j]
    ensures now[..l.copy] == src[..l.copy] && now[l.copy..] == was[l.copy..]
  {
    GatheredWhenCovered(l, was, now);
    forall b: nat | b < l.copy ensures now[b] == src[b] { DivModOf(l.stride, 0, b); }
    forall j | l.copy <= j < |now| ensures now[j] == was[j] {
      if l.PeerOf(j) < 1 { DivBelowOne(j, l.stride); }
    }
  }

  lemma DivBelowOne(x: nat, n: nat)
    requires n > 0 && x / n < 1
    ensures x < n
  {
    assert x == x / n * n + x % n;
    assert x / n * n == 0;
  }

  /** The runtime's own launches never have a tail: the width it picks divides the size. */
  lemma RuntimeHasNoTail(ptrs: seq<nat>, size: nat)
    requires ptrs != [] && size > 0
    ensures size % EltBytes(VecWidth.VecFor(ptrs, size)) == 0
  {
    var w := VecWidth.VecFor(ptrs, size);
    VecWidth.VecForDivides(ptrs, size);
    VecWidth.DividesIsMod(w, size);
  }
}
