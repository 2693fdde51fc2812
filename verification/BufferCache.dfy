/**
 * The doubly linked list of buffers of bio.c: next/prev links over buffers 0..NBUF and the list head.
 */
module LruRing {
  const NBUF: nat := 10
  const HEAD: nat := 10

  /** The k-th node met when walking next links from the head; both ends are the head. */
  ghost function Node(order: seq<nat>, k: int): nat
  {
    if 0 < k <= |order| then order[k - 1] else HEAD
  }

  ghost predicate Distinct(order: seq<nat>)
  {
    && (forall k | 0 <= k < |order| :: order[k] < NBUF)
    && (forall j, k | 0 <= j < k < |order| :: order[j] != order[k])
  }

  /** The links form one cycle: head, order[0], order[1], ..., back to the head, in both directions. */
  ghost predicate Ring(order: seq<nat>, next: seq<nat>, prev: seq<nat>)
  {
    && |next| == |prev| == NBUF + 1
    && Distinct(order)
    && (forall k {:trigger next[Node(order, k)]} | 0 <= k <= |order| :: next[Node(order, k)] == Node(order, k + 1))
    && (forall k {:trigger prev[Node(order, k)]} | 1 <= k <= |order| + 1 :: prev[Node(order, k)] == Node(order, k - 1))
  }

  ghost function Without(order: seq<nat>, p: nat): seq<nat>
    requires p < |order|
  {
    order[..p] + order[p + 1..]
  }

  lemma RingRemove(order: seq<nat>, next: seq<nat>, prev: seq<nat>, p: nat)
    requires Ring(order, next, prev) && p < |order|
    ensures next[order[p]] <= HEAD && prev[order[p]] <= HEAD
    ensures Ring(Without(order, p), next[prev[order[p]] := next[order[p]]], prev[next[order[p]] := prev[order[p]]])
  {
    var b := order[p];
    assert Node(order, p + 1) == b;
    assert next[b] == Node(order, p + 2) && prev[b] == Node(order, p);
    var next', prev', order' := next[prev[b] := next[b]], prev[next[b] := prev[b]], Without(order, p);
    forall k | 0 <= k <= |order'|
      ensures next'[Node(order', k)] == Node(order', k + 1)
    {
      var k' := if k <= p then k else k + 1;
      assert Node(order', k) == Node(order, k');
      assert next[Node(order, k')] == Node(order, k' + 1);
    }
    forall k | 1 <= k <= |order'| + 1
      ensures prev'[Node(order', k)] == Node(order', k - 1)
    {
      var k' := if k <= p then k else k + 1;
      assert Node(order', k) == Node(order, k');
      assert prev[Node(order, k')] == Node(order, k' - 1);
    }
  }

  lemma RingPush(order: seq<nat>, next: seq<nat>, prev: seq<nat>, b: nat)
    requires Ring(order, next, prev) && b < NBUF && b !in order
    ensures next[HEAD] <= HEAD
    ensures Ring([b] + order, next[b := next[HEAD]][HEAD := b], prev[b := HEAD][next[HEAD] := b])
  {
    assert Node(order, 0) == HEAD && next[HEAD] == Node(order, 1);
    var next', prev', order' := next[b := next[HEAD]][HEAD := b], prev[b := HEAD][next[HEAD] := b], [b] + order;
    forall k | 0 <= k <= |order'|
      ensures next'[Node(order', k)] == Node(order', k + 1)
    {
      if k > 0 { assert Node(order', k + 1) == Node(order, k); }
      if k > 1 {
        assert next[Node(order, k - 1)] == Node(order, k);
        assert Node(order', k) == Node(order, k - 1);
      }
    }
    forall k | 1 <= k <= |order'| + 1
      ensures prev'[Node(order', k)] == Node(order', k - 1)
    {
      if k > 1 { assert Node(order', k) == Node(order, k - 1); }
      if k > 2 {
        assert prev[Node(order, k - 1)] == Node(order, k - 2);
        assert Node(order', k - 1) == Node(order, k - 2);
      }
    }
  }
}

/**
 * The buffer cache of bio.c above the synchronous disk of memide.c.  Every method is one stretch of
 * code that runs under bcache.lock or on a buffer its caller holds, so any interleaving of processes
 * is a sequence of calls with any process identifiers.
 */
module BufferCache {
  import opened Common
  import opened Blocks
  import opened LruRing

  const ROOTDEV: int := 1
  const NODEV: int := -1

  datatype Buf = Buf(dev: int, sector: nat, busy: bool, valid: bool, dirty: bool, data: Block)
  {
    predicate Recyclable() { !busy && !dirty }
  }

  /** The outcomes of iderw: done, or one of its panics. */
  datatype Sync = Synced | NotBusy | NothingToDo | WrongDisk | OutOfDisk

  datatype Lookup = Held(buf: nat) | Wait(buf: nat) | NoBuffers | OutOfRange

  /** One ring over all buffers, in order of release. */
  ghost predicate ListOk(order: seq<nat>, next: seq<nat>, prev: seq<nat>, released: seq<nat>, clock: nat)
  {
    && Ring(order, next, prev)
    && |order| == NBUF && |released| == NBUF
    && (forall b | 0 <= b < NBUF :: b in order)
    && (forall b | 0 <= b < NBUF :: released[b] < clock)
    && (forall j, k | 0 <= j < k < NBUF :: released[order[j]] > released[order[k]])
  }

  /** No two buffers cache the same sector, and the busy buffers are exactly the held ones. */
  ghost predicate TableOk(bufs: seq<Buf>, where: map<nat, nat>, holder: map<nat, nat>)
  {
    && |bufs| == NBUF
    && (forall b | 0 <= b < NBUF && bufs[b].dev == ROOTDEV :: bufs[b].sector in where && where[bufs[b].sector] == b)
    && (forall s | s in where :: where[s] < NBUF && bufs[where[s]].dev == ROOTDEV && bufs[where[s]].sector == s)
    && (forall b | 0 <= b < NBUF :: bufs[b].busy <==> b in holder)
    && (forall b | b in holder :: b < NBUF)
  }

  /** A buffer at rest that is not dirty agrees with the disk. */
  ghost predicate Clean(x: Buf, disk: seq<Block>)
  {
    && (x.busy || x.valid ==> x.dev == ROOTDEV)
    && (x.dirty ==> x.valid)
    && (x.valid ==> x.sector < |disk|)
    && (x.valid && !x.busy && !x.dirty ==> x.data == disk[x.sector])
  }

  ghost predicate CleanOk(bufs: seq<Buf>, disk: seq<Block>)
  {
    forall b | 0 <= b < |bufs| :: Clean(bufs[b], disk)
  }

  /** The array the cache stands for: the cached copy of a sector if there is one, else the disk's. */
  ghost function Current(bufs: seq<Buf>, where: map<nat, nat>, disk: seq<Block>, t: nat): Block
    requires t < |disk| && (t in where ==> where[t] < |bufs|)
  {
    if t in where && bufs[where[t]].valid then bufs[where[t]].data else disk[t]
  }

  /** What a step of process pid leaves alone: buffers that others hold, and the set of dirty buffers. */
  ghost predicate Kept(pid: nat, bufs: seq<Buf>, holder: map<nat, nat>, bufs': seq<Buf>, holder': map<nat, nat>)
  {
    && |bufs| == |bufs'| == NBUF
    && (forall b | b in holder && holder[b] != pid :: b in holder' && holder'[b] == holder[b])
    && (forall b | b in holder' && holder'[b] != pid :: b in holder && holder[b] == holder'[b])
    && (forall b | 0 <= b < NBUF && b in holder && holder[b] != pid :: bufs'[b] == bufs[b])
    && (forall b | 0 <= b < NBUF :: bufs[b].dirty <==> bufs'[b].dirty)
    && (forall b | 0 <= b < NBUF && bufs[b].dirty :: bufs'[b].sector == bufs[b].sector && bufs'[b].data == bufs[b].data)
  }

  /** A buffer that goes on caching the same sector may change in any way that leaves it clean. */
  lemma UpdateOk(bufs: seq<Buf>, where: map<nat, nat>, holder: map<nat, nat>, disk: seq<Block>,
                 b: nat, x: Buf, holder': map<nat, nat>)
    requires TableOk(bufs, where, holder) && CleanOk(bufs, disk)
    requires b < NBUF && bufs[b].dev == x.dev == ROOTDEV && x.sector == bufs[b].sector && Clean(x, disk)
    requires holder' - {b} == holder - {b} && (b in holder' <==> x.busy)
    ensures TableOk(bufs[b := x], where, holder') && CleanOk(bufs[b := x], disk)
    ensures where[x.sector] == b
    ensures forall t: nat | t < |disk| && t != x.sector ::
      Current(bufs[b := x], where, disk, t) == Current(bufs, where, disk, t)
  {
    forall c | c in holder'
      ensures c < NBUF
    {
      if c != b { assert c in holder' - {b}; }
    }
    forall c | 0 <= c < NBUF
      ensures bufs[b := x][c].busy <==> c in holder'
    {
      if c != b { assert c in holder' - {b} <==> c in holder - {b}; }
    }
  }

  lemma BufOk(bufs: seq<Buf>, where: map<nat, nat>, holder: map<nat, nat>, disk: seq<Block>, b: nat)
    requires TableOk(bufs, where, holder) && CleanOk(bufs, disk) && b < NBUF
    ensures |bufs| == NBUF && Clean(bufs[b], disk)
    ensures forall t | t in where :: where[t] < |bufs|
  {
  }

  /** Writing a dirty buffer out. */
  lemma WriteOk(bufs: seq<Buf>, where: map<nat, nat>, holder: map<nat, nat>, disk: seq<Block>, b: nat)
    requires TableOk(bufs, where, holder) && CleanOk(bufs, disk) && b < NBUF && bufs[b].busy && bufs[b].dirty
    ensures bufs[b].sector < |disk|
    ensures TableOk(bufs[b := bufs[b].(dirty := false)], where, holder)
    ensures CleanOk(bufs[b := bufs[b].(dirty := false)], disk[bufs[b].sector := bufs[b].data])
    ensures forall t: nat | t < |disk| ::
      Current(bufs[b := bufs[b].(dirty := false)], where, disk[bufs[b].sector := bufs[b].data], t) ==
        Current(bufs, where, disk, t)
  {
  }

  /** Reading a buffer in. */
  lemma ReadOk(bufs: seq<Buf>, where: map<nat, nat>, holder: map<nat, nat>, disk: seq<Block>, b: nat)
    requires TableOk(bufs, where, holder) && CleanOk(bufs, disk) && b < NBUF && bufs[b].busy && !bufs[b].valid
    requires bufs[b].sector < |disk|
    ensures var x := bufs[b].(data := disk[bufs[b].sector], valid := true);
      && TableOk(bufs[b := x], where, holder) && CleanOk(bufs[b := x], disk)
      && forall t: nat | t < |disk| :: Current(bufs[b := x], where, disk, t) == Current(bufs, where, disk, t)
  {
    UpdateOk(bufs, where, holder, disk, b, bufs[b].(data := disk[bufs[b].sector], valid := true), holder);
  }

  ghost function Moved(bufs: seq<Buf>, where: map<nat, nat>, b: nat, s: nat): map<nat, nat>
    requires b < |bufs|
  {
    (if bufs[b].dev == ROOTDEV then where - {bufs[b].sector} else where)[s := b]
  }

  lemma RecycleOk(bufs: seq<Buf>, where: map<nat, nat>, holder: map<nat, nat>, disk: seq<Block>, pid: nat,
      b: nat, s: nat)
    requires TableOk(bufs, where, holder) && CleanOk(bufs, disk)
    requires b < NBUF && bufs[b].Recyclable() && s !in where
    ensures var bufs' := bufs[b := Buf(ROOTDEV, s, true, false, false, bufs[b].data)];
      var where' := Moved(bufs, where, b, s);
      var holder' := holder[b := pid];
      && TableOk(bufs', where', holder') && CleanOk(bufs', disk)
      && forall t: nat | t < |disk| :: Current(bufs', where', disk, t) == Current(bufs, where, disk, t)
  {
    var bufs' := bufs[b := Buf(ROOTDEV, s, true, false, false, bufs[b].data)];
    var where' := Moved(bufs, where, b, s);
    assert TableOk(bufs', where', holder[b := pid]);
    forall t: nat | t < |disk|
      ensures Current(bufs', where', disk, t) == Current(bufs, where, disk, t)
    {
      if t in where && where[t] != b { assert t in where' && where'[t] == where[t]; }
    }
  }

  lemma RingFacts(order: seq<nat>, next: seq<nat>, prev: seq<nat>, p: nat)
    requires Ring(order, next, prev) && p < |order|
    ensures |next| == |prev| == NBUF + 1 && (forall k | 0 <= k < |order| :: order[k] < NBUF)
    ensures order[p] !in Without(order, p)
  {
  }

  lemma ListFront(order: seq<nat>, next: seq<nat>, prev: seq<nat>, released: seq<nat>, clock: nat, p: nat)
    requires ListOk(order, next, prev, released, clock) && p < NBUF
    ensures next[order[p]] <= HEAD && prev[order[p]] <= HEAD
    ensures var b := order[p];
      var next1, prev1 := next[prev[b] := next[b]], prev[next[b] := prev[b]];
      && next1[HEAD] <= HEAD
      && ListOk([b] + Without(order, p), next1[b := next1[HEAD]][HEAD := b], prev1[b := HEAD][next1[HEAD] := b],
                released[b := clock], clock + 1)
  {
    RingFacts(order, next, prev, p);
    hide Ring; hide Without;
    var b, rest := order[p], Without(order, p);
    RingRemove(order, next, prev, p);
    var next1, prev1 := next[prev[b] := next[b]], prev[next[b] := prev[b]];
    RingPush(rest, next1, prev1, b);
    FrontOrder(order, released, clock, p);
  }

  lemma FrontHas(order: seq<nat>, p: nat, c: nat)
    requires p < |order| && c in order
    ensures c in [order[p]] + Without(order, p)
  {
    FrontAt(order, p);
    var k :| 0 <= k < |order| && order[k] == c;
    assert ([order[p]] + Without(order, p))[if k < p then k + 1 else if k == p then 0 else k] == c;
  }

  /** The buffer moved to the front is the one released last; the others keep their order. */
  lemma FrontOrder(order: seq<nat>, released: seq<nat>, clock: nat, p: nat)
    requires |order| == NBUF && |released| == NBUF && p < NBUF && (forall k | 0 <= k < NBUF :: order[k] < NBUF)
    requires (forall b | 0 <= b < NBUF :: b in order) && (forall b | 0 <= b < NBUF :: released[b] < clock)
    requires forall j, k | 0 <= j < k < NBUF :: released[order[j]] > released[order[k]]
    ensures var order', released' := [order[p]] + Without(order, p), released[order[p] := clock];
      && |order'| == NBUF && (forall b | 0 <= b < NBUF :: b in order' && released'[b] < clock + 1)
      && (forall k | 0 <= k < NBUF :: order'[k] < NBUF)
      && (forall j, k | 0 <= j < k < NBUF :: released'[order'[j]] > released'[order'[k]])
  {
    FrontAt(order, p);
    var order', released' := [order[p]] + Without(order, p), released[order[p] := clock];
    forall c: nat | c < NBUF ensures c in order' { FrontHas(order, p, c); }
    forall j, k | 0 <= j < k < NBUF
      ensures released'[order'[j]] > released'[order'[k]]
    {
      assert released[order[if k <= p then k - 1 else k]] < clock;
    }
  }

  lemma FrontAt(order: seq<nat>, p: nat)
    requires p < |order|
    ensures |[order[p]] + Without(order, p)| == |order|
    ensures forall k | 0 <= k < |order| ::
      ([order[p]] + Without(order, p))[k] == if k == 0 then order[p] else if k <= p then order[k - 1] else order[k]
  {
  }

  /** Taking a buffer nobody holds disturbs no one. */
  lemma TakeKept(pid: nat, bufs: seq<Buf>, holder: map<nat, nat>, b: nat, x: Buf)
    requires |bufs| == NBUF && b < NBUF && b !in holder
    requires x.dirty == bufs[b].dirty && (x.dirty ==> x.sector == bufs[b].sector && x.data == bufs[b].data)
    ensures Kept(pid, bufs, holder, bufs[b := x], holder[b := pid])
  {
  }

  class Cache {
    var disk: seq<Block>
    var bufs: seq<Buf>
    var next: seq<nat>
    var prev: seq<nat>
    ghost var order: seq<nat>        // buffers, most recently released first
    ghost var released: seq<nat>     // when each buffer was last released
    ghost var clock: nat
    ghost var where: map<nat, nat>   // the buffer that caches each cached sector
    var holder: map<nat, nat>        // the process that holds each busy buffer
    ghost var trace: seq<seq<Block>> // every state the disk has been in, one per block write

    ghost predicate Valid()
      reads this
    {
      && ListOk(order, next, prev, released, clock)
      && TableOk(bufs, where, holder)
      && CleanOk(bufs, disk)
      && |trace| > 0 && trace[|trace| - 1] == disk
    }

    ghost function Cur(t: nat): Block
      reads this
      requires Valid() && t < |disk|
    {
      Current(bufs, where, disk, t)
    }

    /** binit: all buffers on the list, none of them caching anything. */
    constructor (d: seq<Block>)
      ensures Valid() && disk == d && trace == [d] && holder == map[] && where == map[]
    {
      disk := d;
      trace := [d];
      where := map[];
      holder := map[];
      clock := NBUF;
      released := seq(NBUF, i => i);
      bufs := seq(NBUF, i => Buf(NODEV, 0, false, false, false, ZeroBlock()));
      var nx: seq<nat> := seq(NBUF + 1, i => HEAD);
      var pv: seq<nat> := seq(NBUF + 1, i => HEAD);
      ghost var ord: seq<nat> := [];
      var b := 0;
      while b < NBUF
        invariant b <= NBUF && Ring(ord, nx, pv) && |ord| == b
        invariant forall k | 0 <= k < b :: ord[k] == b - 1 - k
      {
        RingPush(ord, nx, pv, b);
        var first := nx[HEAD];
        nx := nx[b := first];
        pv := pv[b := HEAD];
        pv := pv[first := b];
        nx := nx[HEAD := b];
        ord := [b] + ord;
        b := b + 1;
      }
      order := ord;
      next := nx;
      prev := pv;
      forall i | 0 <= i < NBUF ensures i in ord { assert ord[NBUF - 1 - i] == i; }
    }

    /** bget's first loop: the buffer that caches s, or the head when none does. */
    method FindCached(s: nat) returns (b: nat)
      requires Valid()
      ensures b == if s in where then where[s] else HEAD
    {
      ghost var k := 0;
      ghost var w := if s in where then where[s] else 0;
      assert w in order;
      assert Node(order, 0) == HEAD;
      b := next[HEAD];
      while b != HEAD
        invariant 0 <= k <= NBUF && b == Node(order, k + 1)
        invariant forall j | 0 <= j < k :: !(bufs[order[j]].dev == ROOTDEV && bufs[order[j]].sector == s)
        decreases NBUF - k
      {
        if bufs[b].dev == ROOTDEV && bufs[b].sector == s {
          return;
        }
        assert next[Node(order, k + 1)] == Node(order, k + 2);
        b := next[b];
        k := k + 1;
      }
    }

    /** bget's second loop: the least recently released buffer that is neither busy nor dirty, or the head. */
    method FindVictim() returns (b: nat)
      requires Valid()
      ensures b < NBUF ==>
        && bufs[b].Recyclable()
        && forall c | 0 <= c < NBUF && bufs[c].Recyclable() :: released[b] <= released[c]
      ensures b >= NBUF ==> b == HEAD && forall c | 0 <= c < NBUF :: !bufs[c].Recyclable()
    {
      ghost var k := NBUF;
      assert Node(order, NBUF + 1) == HEAD;
      b := prev[HEAD];
      while b != HEAD && !bufs[b].Recyclable()
        invariant 0 <= k <= NBUF && b == Node(order, k)
        invariant forall j | k <= j < NBUF :: !bufs[order[j]].Recyclable()
        decreases k
      {
        assert prev[Node(order, k)] == Node(order, k - 1);
        b := prev[b];
        k := k - 1;
      }
      forall c | 0 <= c < NBUF && bufs[c].Recyclable()
        ensures b < NBUF && released[b] <= released[c]
      {
        assert c in order;
      }
    }

    method Take(pid: nat, b: nat)
      requires Valid() && b < NBUF && !bufs[b].busy && bufs[b].dev == ROOTDEV
      modifies `bufs, `holder
      ensures Valid()
      ensures forall t: nat | t < |disk| :: Cur(t) == old(Cur(t))
      ensures bufs == old(bufs)[b := old(bufs)[b].(busy := true)]
      ensures holder == old(holder)[b := pid]
    {
      UpdateOk(bufs, where, holder, disk, b, bufs[b].(busy := true), holder[b := pid]);
      bufs := bufs[b := bufs[b].(busy := true)];
      holder := holder[b := pid];
    }

    method Recycle(pid: nat, b: nat, s: nat)
      requires Valid() && b < NBUF && bufs[b].Recyclable() && s !in where
      modifies `bufs, `where, `holder
      ensures Valid()
      ensures forall t: nat | t < |disk| :: Cur(t) == old(Cur(t))
      ensures bufs == old(bufs)[b := Buf(ROOTDEV, s, true, false, false, old(bufs)[b].data)]
      ensures s in where && where[s] == b
      ensures holder == old(holder)[b := pid]
    {
      RecycleOk(bufs, where, holder, disk, pid, b, s);
      where := Moved(bufs, where, b, s);
      bufs := bufs[b := Buf(ROOTDEV, s, true, false, false, bufs[b].data)];
      holder := holder[b := pid];
    }

    /** One pass of bget's loop.  Wait is the outcome in which the caller sleeps and starts over. */
    method Bget(pid: nat, s: nat) returns (r: Lookup)
      requires Valid()
      modifies `bufs, `where, `holder
      ensures Valid()
      ensures forall t: nat | t < |disk| :: Cur(t) == old(Cur(t))
      ensures r.Wait? <==> s in old(where) && old(bufs)[old(where)[s]].busy
      ensures r.Wait? ==> r.buf == old(where)[s]
      ensures s in old(where) && !old(bufs)[old(where)[s]].busy ==>
        r == Held(old(where)[s]) && bufs == old(bufs)[r.buf := old(bufs)[r.buf].(busy := true)]
      ensures s !in old(where) && r.Held? ==>
        && r.buf < NBUF && old(bufs)[r.buf].Recyclable()
        && (forall b | 0 <= b < NBUF && old(bufs)[b].Recyclable() :: released[r.buf] <= released[b])
        && bufs == old(bufs)[r.buf := Buf(ROOTDEV, s, true, false, false, old(bufs)[r.buf].data)]
      ensures r.NoBuffers? <==> s !in old(where) && forall b | 0 <= b < NBUF :: !old(bufs)[b].Recyclable()
      ensures r.Held? ==> s in where && where[s] == r.buf
      ensures r.Held? ==> holder == old(holder)[r.buf := pid] && r.buf !in old(holder)
      ensures !r.Held? ==> unchanged(this)
      ensures !r.OutOfRange?
    {
      var b := FindCached(s);
      if b != HEAD {
        if bufs[b].busy {
          return Wait(b);
        }
        Take(pid, b);
        return Held(b);
      }
      b := FindVictim();
      if b == HEAD {
        return NoBuffers;
      }
      Recycle(pid, b, s);
      return Held(b);
    }

    /** iderw: a dirty buffer is written to the disk, one that is not valid is read from it. */
    method Iderw(b: nat) returns (r: Sync)
      requires Valid() && b < NBUF
      modifies `bufs, (if bufs[b].dirty then {this} else {})`disk, (if bufs[b].dirty then {this} else {})`trace
      ensures Valid()
      ensures r.NotBusy? <==> !old(bufs)[b].busy
      ensures r.NothingToDo? <==> old(bufs)[b].busy && old(bufs)[b].valid && !old(bufs)[b].dirty
      ensures r.OutOfDisk? <==> old(bufs)[b].busy && !old(bufs)[b].valid && old(bufs)[b].sector >= |disk|
      ensures !r.WrongDisk? && (!r.Synced? ==> unchanged(this))
      ensures r.Synced? && !old(bufs)[b].dirty ==>
        && disk == old(disk) && trace == old(trace) && bufs[b].sector < |disk|
        && bufs == old(bufs)[b := old(bufs)[b].(data := disk[bufs[b].sector], valid := true)]
      ensures r.Synced? && old(bufs)[b].dirty ==>
        && bufs[b].sector < |old(disk)| && disk == old(disk)[bufs[b].sector := bufs[b].data]
        && trace == old(trace) + [disk] && bufs == old(bufs)[b := old(bufs)[b].(dirty := false)]
      ensures forall t: nat | t < |disk| :: |disk| == |old(disk)| && Cur(t) == old(Cur(t))
    {
      hide ListOk; hide TableOk; hide Current;
      BufOk(bufs, where, holder, disk, b);
      hide CleanOk;
      if !bufs[b].busy {
        return NotBusy;
      }
      if bufs[b].valid && !bufs[b].dirty {
        return NothingToDo;
      }
      if bufs[b].dev != 1 {
        return WrongDisk;
      }
      if bufs[b].sector >= |disk| {
        return OutOfDisk;
      }
      if bufs[b].dirty {
        WriteOk(bufs, where, holder, disk, b);
        bufs := bufs[b := bufs[b].(dirty := false)];
        disk := disk[bufs[b].sector := bufs[b].data];
        trace := trace + [disk];
      } else {
        ReadOk(bufs, where, holder, disk, b);
        bufs := bufs[b := bufs[b].(data := disk[bufs[b].sector])];
      }
      bufs := bufs[b := bufs[b].(valid := true)];
      assert bufs == old(bufs)[b := bufs[b]];
      r := Synced;
    }

    /** bread: the returned buffer holds the sector's current contents. */
    method Bread(pid: nat, s: nat) returns (r: Lookup)
      requires Valid()
      modifies `bufs, `where, `holder
      ensures !r.OutOfRange? ==> Valid() && Kept(pid, old(bufs), old(holder), bufs, holder)
      ensures !r.OutOfRange? ==> forall t: nat | t < |disk| :: Cur(t) == old(Cur(t))
      ensures r.Held? ==>
        && s < |disk| && r.buf < NBUF && r.buf !in old(holder) && holder == old(holder)[r.buf := pid]
        && bufs[r.buf].sector == s && bufs[r.buf].valid && s in where && where[s] == r.buf
        && bufs[r.buf].data == old(Cur(s))
        && bufs == old(bufs)[r.buf := bufs[r.buf]]
        && (bufs[r.buf].dirty || bufs[r.buf].data == disk[s])
      ensures s < |disk| ==> (r.Wait? <==> s in old(where) && old(bufs)[old(where)[s]].busy)
      ensures r.Wait? ==> s in old(where) && r.buf == old(where)[s]
      ensures s < |disk| ==>
        (r.NoBuffers? <==> s !in old(where) && forall b | 0 <= b < NBUF :: !old(bufs)[b].Recyclable())
      ensures r.Wait? || r.NoBuffers? ==> unchanged(this)
      ensures r.OutOfRange? ==> s >= |disk|
    {
      r := Bget(pid, s);
      if r.Held? && !bufs[r.buf].valid {
        var y := Iderw(r.buf);
        if y.OutOfDisk? {
          return OutOfRange;
        }
      }
      if r.Held? {
        TakeKept(pid, old(bufs), old(holder), r.buf, bufs[r.buf]);
        assert bufs == old(bufs)[r.buf := bufs[r.buf]];
      }
    }

    /** The holder changes the contents of its buffer. */
    method Store(pid: nat, b: nat, data: Block)
      requires Valid() && b in holder && holder[b] == pid && bufs[b].valid
      modifies `bufs
      ensures Valid()
      ensures bufs == old(bufs)[b := old(bufs)[b].(data := data)]
    {
      bufs := bufs[b := bufs[b].(data := data)];
    }

    /** The dirty mark log_write puts on a buffer to keep it from being recycled. */
    method SetDirty(pid: nat, b: nat)
      requires Valid() && b in holder && holder[b] == pid && bufs[b].valid
      modifies `bufs
      ensures Valid()
      ensures bufs == old(bufs)[b := old(bufs)[b].(dirty := true)]
    {
      bufs := bufs[b := bufs[b].(dirty := true)];
    }

    /**
     * bwrite: one block write, after which the disk has the buffer's contents and the buffer is clean;
     * the panic exactly for a buffer that nobody holds.
     */
    method Bwrite(pid: nat, b: nat) returns (panicked: bool)
      requires Valid() && b < |bufs| && (b in holder ==> holder[b] == pid && bufs[b].valid)
      modifies `bufs, `disk, `trace
      ensures Valid() && (panicked <==> b !in holder) && (panicked ==> unchanged(this))
      ensures !panicked ==>
        && bufs[b].sector < |old(disk)| && disk == old(disk)[bufs[b].sector := bufs[b].data]
        && trace == old(trace) + [disk] && bufs == old(bufs)[b := old(bufs)[b].(dirty := false)]
      ensures forall t: nat | t < |disk| :: |disk| == |old(disk)| && Cur(t) == old(Cur(t))
    {
      if !bufs[b].busy {
        return true;
      }
      bufs := bufs[b := bufs[b].(dirty := true)];
      var y := Iderw(b);
      return false;
    }

    /** The list surgery of brelse: b becomes the most recently released buffer, the others keep their order. */
    method MoveToFront(b: nat)
      requires Valid() && b < NBUF
      modifies `next, `prev, `order, `released, `clock
      ensures Valid()
      ensures order[0] == b && clock == old(clock) + 1 && released == old(released)[b := old(clock)]
    {
      hide TableOk; hide CleanOk;
      assert b in order;
      ghost var p :| 0 <= p < |order| && order[p] == b;
      ListFront(order, next, prev, released, clock, p);
      prev := prev[next[b] := prev[b]];
      next := next[prev[b] := next[b]];
      next := next[b := next[HEAD]];
      prev := prev[b := HEAD];
      prev := prev[next[HEAD] := b];
      next := next[HEAD := b];
      order := [b] + Without(order, p);
      released := released[b := clock];
      clock := clock + 1;
    }

    /**
     * brelse: the buffer moves to the front of the list.  Changes must have been written or logged.  The
     * panic comes exactly for a buffer that nobody holds.
     */
    method Brelse(pid: nat, b: nat) returns (panicked: bool)
      requires Valid() && b < |bufs| && (b in holder ==> holder[b] == pid && bufs[b].valid)
      requires b in holder ==> bufs[b].dirty || bufs[b].data == disk[bufs[b].sector]
      modifies `bufs, `next, `prev, `order, `released, `clock, `holder
      ensures Valid() && (panicked <==> b !in old(holder)) && (panicked ==> unchanged(this))
      ensures forall t: nat | t < |disk| :: Cur(t) == old(Cur(t))
      ensures Kept(pid, old(bufs), old(holder), bufs, holder)
      ensures !panicked ==>
        && bufs == old(bufs)[b := old(bufs)[b].(busy := false)] && holder == old(holder) - {b}
        && order[0] == b && clock == old(clock) + 1 && released == old(released)[b := old(clock)]
    {
      hide ListOk;
      if !bufs[b].busy {
        return true;
      }
      MoveToFront(b);
      UpdateOk(bufs, where, holder, disk, b, bufs[b].(busy := false), holder - {b});
      bufs := bufs[b := bufs[b].(busy := false)];
      holder := holder - {b};
      return false;
    }

    /** memmove into a held buffer and bwrite: one block write. */
    method Put(pid: nat, b: nat, data: Block)
      requires Valid() && b in holder && holder[b] == pid && bufs[b].valid
      modifies `bufs, `disk, `trace
      ensures Valid()
      ensures disk == old(disk)[old(bufs)[b].sector := data] && trace == old(trace) + [disk]
      ensures bufs == old(bufs)[b := old(bufs)[b].(data := data, dirty := false)]
    {
      hide ListOk; hide Kept; hide Current;
      Store(pid, b, data);
      var _ := Bwrite(pid, b);
    }

    /** memmove into a held buffer, bwrite and brelse in a row: one block write. */
    method WriteBack(pid: nat, b: nat, data: Block)
      requires Valid() && b in holder && holder[b] == pid && bufs[b].valid
      modifies `bufs, `disk, `trace, `next, `prev, `order, `released, `clock, `holder
      ensures Valid()
      ensures disk == old(disk)[old(bufs)[b].sector := data] && trace == old(trace) + [disk]
      ensures bufs == old(bufs)[b := old(bufs)[b].(data := data, dirty := false, busy := false)]
      ensures holder == old(holder) - {b}
    {
      hide ListOk; hide Kept; hide Current;
      Put(pid, b, data);
      var _ := Brelse(pid, b);
    }

    /** Copies one held buffer's contents to another's sector and gives both back: one block write. */
    method Transfer(pid: nat, src: nat, dst: nat)
      requires Valid() && src < |bufs| && dst < |bufs| && src != dst && src in holder && dst in holder
      requires holder[src] == holder[dst] == pid
      requires bufs[src].valid && bufs[dst].valid && bufs[src].sector != bufs[dst].sector
      requires bufs[src].sector < |disk| && bufs[dst].sector < |disk| && bufs[src].data == disk[bufs[src].sector]
      modifies `bufs, `disk, `trace, `next, `prev, `order, `released, `clock, `holder
      ensures Valid()
      ensures disk == old(disk)[old(bufs)[dst].sector := old(bufs)[src].data] && trace == old(trace) + [disk]
      ensures bufs == old(bufs)[dst := old(bufs)[dst].(data := old(bufs)[src].data, dirty := false, busy := false)]
                               [src := old(bufs)[src].(busy := false)]
      ensures holder == old(holder) - {src} - {dst}
    {
      hide ListOk; hide TableOk; hide CleanOk; hide Kept; hide Current;
      Put(pid, dst, bufs[src].data);
      var _ := Brelse(pid, src);
      var _ := Brelse(pid, dst);
    }
  }
}
