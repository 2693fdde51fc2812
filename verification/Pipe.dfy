/**
 * A pipe: a ring of 512 bytes with 32-bit counters that wrap round. Whatever a process does
 * between taking the pipe's lock and giving it back or sleeping on it is one method here; other
 * processes' turns come in between, in any order and number.
 */
module Pipe {
  import opened Common

  const PIPESIZE := 512

  /** Why a turn ended: all was done, the process sleeps, or the call fails. */
  datatype Turn = Done | Sleep | Fail

  /** A turn of another process. */
  datatype Other = Write(addr: seq<byte>, killed: bool) | Read(n: nat, killed: bool) | CloseRead | CloseWrite

  /** What a turn finds: all bytes ever stored, all ever read, and which ends are open. */
  datatype View = View(stored: seq<byte>, taken: seq<byte>, readopen: bool, writeopen: bool)

  predicate Sound(v: View) { v.taken <= v.stored && |v.stored| - |v.taken| <= PIPESIZE }

  function Waiting(v: View): nat
    requires Sound(v)
  {
    |v.stored| - |v.taken|
  }

  function Min(a: nat, b: nat): nat { if a < b then a else b }

  /** How many of left bytes there is room for. */
  function Fits(v: View, left: nat): nat
    requires Sound(v)
  {
    Min(left, PIPESIZE - Waiting(v))
  }

  /** As much of addr as there is room for goes into the stream. */
  function Stored(v: View, addr: seq<byte>): (v': View)
    requires Sound(v)
    ensures Sound(v') && v.stored <= v'.stored && v'.taken == v.taken
  {
    v.(stored := v.stored + addr[..Fits(v, |addr|)])
  }

  /** The next n bytes, or as many as wait, are read. */
  function Taken(v: View, n: nat): (v': View)
    requires Sound(v)
    ensures Sound(v') && v.taken <= v'.taken && v'.stored == v.stored
  {
    v.(taken := v.stored[..|v.taken| + Min(n, Waiting(v))])
  }

  function AfterOther(v: View, o: Other): (v': View)
    requires Sound(v)
    ensures Sound(v') && v.stored <= v'.stored && v.taken <= v'.taken
  {
    match o
    case Write(addr, _) => Stored(v, addr)
    case Read(n, _) => Taken(v, n)
    case CloseRead => v.(readopen := false)
    case CloseWrite => v.(writeopen := false)
  }

  function AfterOthers(v: View, others: seq<Other>): (v': View)
    requires Sound(v)
    ensures Sound(v') && v.stored <= v'.stored && v.taken <= v'.taken
  {
    if others == [] then v else AfterOther(AfterOthers(v, others[..|others| - 1]), others[|others| - 1])
  }

  /** What a reader finds after k sleeps. */
  function Found(v: View, sleeps: seq<seq<Other>>, k: nat): (v': View)
    requires Sound(v) && k <= |sleeps|
    ensures Sound(v')
  {
    if k == 0 then v else AfterOthers(Found(v, sleeps, k - 1), sleeps[k - 1])
  }

  /** How a reader's turn ends that finds v. */
  function ReadEnd(v: View, killed: bool): Turn
    requires Sound(v)
  {
    if Waiting(v) > 0 || !v.writeopen then Done else if killed then Fail else Sleep
  }

  lemma FoundLater(v: View, sleeps: seq<seq<Other>>, k: nat)
    requires Sound(v) && k <= |sleeps|
    ensures Found(v, sleeps, 0) == v
    ensures k < |sleeps| ==> Found(v, sleeps, k + 1) == AfterOthers(Found(v, sleeps, k), sleeps[k])
  {
  }

  /** The reader's turn after k sleeps makes it sleep again. */
  predicate WaitsOn(v: View, sleeps: seq<seq<Other>>, killed: seq<bool>, k: nat)
    requires Sound(v) && k <= |sleeps| < |killed|
  {
    ReadEnd(Found(v, sleeps, k), killed[k]).Sleep?
  }

  /** What a writer finds, and how much of addr it has stored, after k sleeps. */
  function FoundBy(v: View, addr: seq<byte>, sleeps: seq<seq<Other>>, k: nat): (r: (View, nat))
    requires Sound(v) && k <= |sleeps|
    ensures Sound(r.0) && r.1 <= |addr|
  {
    if k == 0 then (v, 0)
    else
      var (w, i) := FoundBy(v, addr, sleeps, k - 1);
      (AfterOthers(Stored(w, addr[i..]), sleeps[k - 1]), i + Fits(w, |addr| - i))
  }

  /** How a writer's turn ends that finds v and has left bytes to store. */
  function WriteEnd(v: View, left: nat, killed: bool): Turn
    requires Sound(v)
  {
    if Fits(v, left) == left then Done else if !v.readopen || killed then Fail else Sleep
  }

  lemma FoundStart(v: View, addr: seq<byte>, sleeps: seq<seq<Other>>)
    requires Sound(v)
    ensures FoundBy(v, addr, sleeps, 0) == (v, 0)
  {
  }

  lemma FoundNext(v: View, addr: seq<byte>, sleeps: seq<seq<Other>>, k: nat, w: View, i: nat)
    requires Sound(v) && k < |sleeps| && FoundBy(v, addr, sleeps, k) == (w, i)
    ensures FoundBy(v, addr, sleeps, k + 1) ==
      (AfterOthers(Stored(w, addr[i..]), sleeps[k]), i + Fits(w, |addr| - i))
  {
  }

  /** The writer's turn after k sleeps makes it sleep again. */
  predicate SleepsOn(v: View, addr: seq<byte>, sleeps: seq<seq<Other>>, killed: seq<bool>, k: nat)
    requires Sound(v) && k <= |sleeps| < |killed|
  {
    var (w, i) := FoundBy(v, addr, sleeps, k);
    WriteEnd(w, |addr| - i, killed[k]).Sleep?
  }

  /** The place of the k-th byte of the stream in the ring. */
  function Slot(k: nat): nat { k % PIPESIZE }

  lemma SlotsApart(j: nat, k: nat)
    requires j < k < j + PIPESIZE
    ensures Slot(j) != Slot(k)
  {
  }

  /** The counters' difference, modulo 2^32, tells how many bytes wait. */
  lemma Counters(stored: nat, taken: nat)
    requires taken <= stored <= taken + PIPESIZE
    ensures stored % UINT == (taken % UINT + PIPESIZE) % UINT <==> stored - taken == PIPESIZE
    ensures taken % UINT == stored % UINT <==> stored == taken
    ensures (stored % UINT - taken % UINT) % UINT == stored - taken
  {
  }

  /** The ring survives the counters' wrapping round, because 512 divides 2^32. */
  lemma Wraps(k: nat)
    ensures (k % UINT + 1) % UINT == (k + 1) % UINT && k % UINT % PIPESIZE == Slot(k)
  {
    var q, m := k / UINT, k % UINT;
    assert k + 1 == UINT * q + (m + 1);
    Remainder(UINT / PIPESIZE * q, m);
    assert k == PIPESIZE * (UINT / PIPESIZE * q) + m;
  }

  lemma Remainder(q: nat, m: nat)
    ensures (PIPESIZE * q + m) % PIPESIZE == m % PIPESIZE
  {
  }

  ghost function Positions(n: nat, count: nat): seq<nat> { seq(count, k => n + k) }

  /** The first bytes of addr are in the stream from place n on, in order, at the places in at. */
  ghost predicate InOrder(stored: seq<byte>, n: nat, addr: seq<byte>, at: seq<nat>) {
    && |at| <= |addr|
    && (forall k :: 0 <= k < |at| ==> n <= at[k] < |stored| && stored[at[k]] == addr[k])
    && forall j, k :: 0 <= j < k < |at| ==> at[j] < at[k]
  }

  lemma OrderKept(stored: seq<byte>, stored': seq<byte>, n: nat, addr: seq<byte>, at: seq<nat>)
    requires InOrder(stored, n, addr, at) && stored <= stored'
    ensures InOrder(stored', n, addr, at)
  {
  }

  /** The next bytes of addr go behind all others. */
  lemma OrderGrows(stored: seq<byte>, n: nat, addr: seq<byte>, at: seq<nat>, i: nat)
    requires InOrder(stored, n, addr, at) && n <= |stored| && |at| <= i <= |addr|
    ensures InOrder(stored + addr[|at|..i], n, addr, at + Positions(|stored|, i - |at|))
    ensures |at + Positions(|stored|, i - |at|)| == i
  {
  }

  ghost predicate NoReads(others: seq<Other>) {
    forall k :: 0 <= k < |others| ==> !others[k].Read?
  }

  ghost predicate NoneReads(sleeps: seq<seq<Other>>) {
    forall k :: 0 <= k < |sleeps| ==> NoReads(sleeps[k])
  }

  /** What a read got is the stretch of the stream that ends where taken does now. */
  ghost predicate NextStretch(stored: seq<byte>, taken0: seq<byte>, taken: seq<byte>, got: seq<byte>) {
    && |got| <= |taken| <= |stored| && taken0 <= taken[..|taken| - |got|]
    && got == stored[|taken| - |got|..|taken|]
  }

  lemma Stretch(stored: seq<byte>, taken0: seq<byte>, taken1: seq<byte>, taken: seq<byte>, got: seq<byte>)
    requires taken0 <= taken1 && taken == taken1 + got && taken <= stored
    ensures NextStretch(stored, taken0, taken, got)
  {
    assert taken[..|taken| - |got|] == taken1;
    assert taken[|taken1|..] == got && taken[|taken1|..] == stored[|taken1|..|taken|];
  }

  /** What the turn gets that ends a read which found v. */
  lemma ReadGets(v: View, n: nat, t: Turn, killed: bool, w: View, got: seq<byte>)
    requires Sound(v) && t == ReadEnd(v, killed) && w == (if t.Done? then Taken(v, n) else v)
    requires w.taken == v.taken + got
    ensures t.Done? ==> |got| <= n && (|got| < n ==> |w.taken| == |w.stored|)
    ensures t.Done? && got == [] && n > 0 ==> !w.writeopen
    ensures !t.Done? ==> got == [] && |w.taken| == |w.stored| && w.writeopen
    ensures w.stored == v.stored && w.taken <= w.stored
  {
    if !t.Done? {
      assert |got| == 0;
    }
  }

  ghost predicate NoneWrites(sleeps: seq<seq<Other>>) {
    forall k :: 0 <= k < |sleeps| ==> NoWrites(sleeps[k])
  }

  ghost predicate NoWrites(others: seq<Other>) {
    forall k :: 0 <= k < |others| ==> !others[k].Write?
  }

  /** Others' turns leave what none of them does. */
  lemma {:induction false} OthersLeave(v: View, others: seq<Other>)
    requires Sound(v)
    ensures NoWrites(others) ==> AfterOthers(v, others).stored == v.stored
    ensures NoReads(others) ==> AfterOthers(v, others).taken == v.taken
  {
    if others != [] {
      OthersLeave(v, others[..|others| - 1]);
    }
  }

  /** While a reader sleeps the streams grow, and none but readers take. */
  lemma {:induction false} FoundGrows(v: View, sleeps: seq<seq<Other>>, k: nat)
    requires Sound(v) && k <= |sleeps|
    ensures
      var w := Found(v, sleeps, k);
      v.stored <= w.stored && v.taken <= w.taken && (NoneReads(sleeps) ==> w.taken == v.taken)
  {
    if k > 0 {
      FoundGrows(v, sleeps, k - 1);
      OthersLeave(Found(v, sleeps, k - 1), sleeps[k - 1]);
    }
  }

  /** Where in the stream a writer's first k turns have put its bytes. */
  ghost function Places(v: View, addr: seq<byte>, sleeps: seq<seq<Other>>, k: nat): seq<nat>
    requires Sound(v) && k <= |sleeps|
  {
    if k == 0 then []
    else
      var (w, i) := FoundBy(v, addr, sleeps, k - 1);
      Places(v, addr, sleeps, k - 1) + Positions(|w.stored|, Fits(w, |addr| - i))
  }

  /** A writer that found v has put the first bytes of addr at those places of w, next to each other if it is alone. */
  ghost predicate HasPut(v: View, addr: seq<byte>, w: View, at: seq<nat>, alone: bool) {
    && |at| <= |addr| && InOrder(w.stored, |v.stored|, addr, at) && v.stored <= w.stored && v.taken <= w.taken
    && (alone ==> w.stored == v.stored + addr[..|at|])
  }

  lemma NonePut(v: View, addr: seq<byte>, alone: bool)
    ensures HasPut(v, addr, v, [], alone)
  {
  }

  /** What one more turn stores. */
  lemma StoredNext(w: View, addr: seq<byte>, j: nat)
    requires Sound(w) && j <= |addr|
    ensures
      var i := j + Fits(w, |addr| - j);
      i <= |addr| && Stored(w, addr[j..]) == w.(stored := w.stored + addr[j..i])
  {
    var i := j + Fits(w, |addr| - j);
    assert addr[j..][..i - j] == addr[j..i];
  }

  lemma Joined(a: seq<byte>, addr: seq<byte>, j: nat, i: nat)
    requires j <= i <= |addr|
    ensures (a + addr[..j]) + addr[j..i] == a + addr[..i]
  {
  }

  lemma PutMore(v: View, addr: seq<byte>, w: View, at: seq<nat>, alone: bool)
    requires Sound(w) && HasPut(v, addr, w, at, alone)
    ensures
      var i := |at| + Fits(w, |addr| - |at|);
      var at' := at + Positions(|w.stored|, i - |at|);
      |at'| == i && HasPut(v, addr, Stored(w, addr[|at|..]), at', alone)
  {
    hide InOrder;
    hide Positions;
    hide Stored;
    hide Fits;
    StoredNext(w, addr, |at|);
    var i := |at| + Fits(w, |addr| - |at|);
    OrderGrows(w.stored, |v.stored|, addr, at, i);
    Joined(v.stored, addr, |at|, i);
  }

  lemma PutStays(v: View, addr: seq<byte>, w: View, at: seq<nat>, alone: bool, others: seq<Other>)
    requires Sound(w) && HasPut(v, addr, w, at, alone) && (alone ==> NoWrites(others))
    ensures HasPut(v, addr, AfterOthers(w, others), at, alone)
  {
    hide InOrder;
    hide NoReads;
    OthersLeave(w, others);
    OrderKept(w.stored, AfterOthers(w, others).stored, |v.stored|, addr, at);
  }

  /** They are in order there, and next to each other if no one else writes. */
  lemma {:induction false} PlacesInOrder(v: View, addr: seq<byte>, sleeps: seq<seq<Other>>, k: nat)
    requires Sound(v) && k <= |sleeps|
    ensures
      var (w, i) := FoundBy(v, addr, sleeps, k);
      |Places(v, addr, sleeps, k)| == i && HasPut(v, addr, w, Places(v, addr, sleeps, k), NoneWrites(sleeps))
  {
    hide Stored;
    hide AfterOthers;
    hide NoWrites;
    hide FoundBy;
    hide Positions;
    hide Fits;
    hide HasPut;
    if k == 0 {
      FoundStart(v, addr, sleeps);
      NonePut(v, addr, NoneWrites(sleeps));
    } else {
      PlacesInOrder(v, addr, sleeps, k - 1);
      var (w, i) := FoundBy(v, addr, sleeps, k - 1);
      FoundNext(v, addr, sleeps, k - 1, w, i);
      PutMore(v, addr, w, Places(v, addr, sleeps, k - 1), NoneWrites(sleeps));
      PutStays(v, addr, Stored(w, addr[i..]), Places(v, addr, sleeps, k), NoneWrites(sleeps), sleeps[k - 1]);
    }
  }

  class Pipe {
    const data: array<byte>
    var nread: int
    var nwrite: int
    var readopen: bool
    var writeopen: bool
    /** All bytes ever stored, and all ever read. */
    ghost var stored: seq<byte>
    ghost var taken: seq<byte>

    ghost function Now(): View
      reads this
    {
      View(stored, taken, readopen, writeopen)
    }

    ghost predicate Valid()
      reads this, data
      ensures Valid() ==> Sound(Now())
    {
      && data.Length == PIPESIZE
      && taken <= stored && |stored| - |taken| <= PIPESIZE
      && nread == |taken| % UINT && nwrite == |stored| % UINT
      && forall k :: |taken| <= k < |stored| ==> data[Slot(k)] == stored[k]
    }

    constructor ()
      ensures Valid() && stored == taken == [] && readopen && writeopen && fresh(data)
    {
      data := new byte[PIPESIZE];
      nread, nwrite, readopen, writeopen := 0, 0, true, true;
      stored, taken := [], [];
    }

    /** One byte into the ring. */
    method Store(b: byte)
      requires Valid() && |stored| - |taken| < PIPESIZE
      modifies this, data
      ensures Valid() && stored == old(stored) + [b] && taken == old(taken)
      ensures readopen == old(readopen) && writeopen == old(writeopen)
    {
      Wraps(|stored|);
      forall k | |taken| <= k < |stored| ensures Slot(k) != Slot(|stored|) {
        SlotsApart(k, |stored|);
      }
      hide Slot;
      data[nwrite % PIPESIZE] := b;
      nwrite := (nwrite + 1) % UINT;
      stored := stored + [b];
    }

    /** One byte out of the ring. */
    method Fetch() returns (b: byte)
      requires Valid() && |taken| < |stored|
      modifies this
      ensures Valid() && stored == old(stored) && taken == old(taken) + [b]
      ensures readopen == old(readopen) && writeopen == old(writeopen)
    {
      Wraps(|taken|);
      b := data[nread % PIPESIZE];
      nread := (nread + 1) % UINT;
      taken := taken + [b];
    }

    /** A turn of pipewrite that has stored addr[..i] in earlier turns. */
    method WriteTurn(addr: seq<byte>, i: nat, killed: bool) returns (j: nat, t: Turn)
      requires Valid() && i <= |addr|
      modifies this, data
      ensures Valid() && i <= j <= |addr| && stored == old(stored) + addr[i..j] && taken == old(taken)
      ensures readopen == old(readopen) && writeopen == old(writeopen)
      ensures Now() == Stored(old(Now()), addr[i..]) && j == i + Fits(old(Now()), |addr| - i)
      ensures t == WriteEnd(old(Now()), |addr| - i, killed)
      ensures t.Done? <==> j == |addr|
      ensures !t.Done? ==> |stored| - |taken| == PIPESIZE && (t.Fail? <==> !readopen || killed)
    {
      j := i;
      while j < |addr|
        invariant Valid() && i <= j <= |addr| && stored == old(stored) + addr[i..j] && taken == old(taken)
        invariant readopen == old(readopen) && writeopen == old(writeopen)
      {
        Counters(|stored|, |taken|);
        if nwrite == (nread + PIPESIZE) % UINT {
          return j, if !readopen || killed then Fail else Sleep;
        }
        Wraps(|stored|);
        Store(addr[j]);
        assert addr[i..j + 1] == addr[i..j] + [addr[j]];
        j := j + 1;
      }
      t := Done;
    }

    /** The turn of piperead that copies, or sleeps or fails on an empty pipe. */
    method ReadTurn(n: nat, killed: bool) returns (got: seq<byte>, t: Turn)
      requires Valid()
      modifies this
      ensures Valid() && stored == old(stored) && taken == old(taken) + got
      ensures readopen == old(readopen) && writeopen == old(writeopen)
      ensures t == ReadEnd(old(Now()), killed) && Now() == if t.Done? then Taken(old(Now()), n) else old(Now())
      ensures t.Done? ==> |got| == (if n < |stored| - old(|taken|) then n else |stored| - old(|taken|))
      ensures !t.Done? ==> got == [] && |stored| == |taken| && writeopen && (t.Fail? <==> killed)
      ensures t.Done? && got == [] && n > 0 ==> !writeopen
    {
      Counters(|stored|, |taken|);
      got := [];
      if nread == nwrite && writeopen {
        return [], if killed then Fail else Sleep;
      }
      while |got| < n
        invariant Valid() && stored == old(stored) && taken == old(taken) + got && |got| <= n
        invariant readopen == old(readopen) && writeopen == old(writeopen)
      {
        Counters(|stored|, |taken|);
        if nread == nwrite {
          break;
        }
        var b := Fetch();
        got := got + [b];
      }
      t := Done;
    }

    /** Closes one end; the pipe goes when both are closed. */
    method Close(writable: bool) returns (freed: bool)
      requires Valid()
      modifies this
      ensures freed <==> !readopen && !writeopen
      ensures Valid() && stored == old(stored) && taken == old(taken)
      ensures if writable then !writeopen && readopen == old(readopen) else !readopen && writeopen == old(writeopen)
    {
      if writable {
        writeopen := false;
      } else {
        readopen := false;
      }
      freed := !readopen && !writeopen;
    }

    /** Turns of other processes: the streams only grow. */
    method Others(others: seq<Other>)
      requires Valid()
      modifies this, data
      ensures Valid() && Now() == AfterOthers(old(Now()), others)
      ensures old(stored) <= stored && old(taken) <= taken
      ensures NoWrites(others) ==> stored == old(stored)
      ensures NoReads(others) ==> taken == old(taken)
    {
      for k := 0 to |others|
        invariant Valid() && Now() == AfterOthers(old(Now()), others[..k])
      {
        assert others[..k + 1][..k] == others[..k];
        match others[k]
        case Write(addr, killed) =>
          var _, _ := WriteTurn(addr, 0, killed);
          assert addr[0..] == addr;
        case Read(n, killed) =>
          var _, _ := ReadTurn(n, killed);
        case CloseRead =>
          var _ := Close(false);
        case CloseWrite =>
          var _ := Close(true);
      }
      assert others[..|others|] == others;
      OthersLeave(old(Now()), others);
    }

    /**
     * The whole of pipewrite. Each sleep is followed by other processes' turns. It sleeps as long as
     * it finds too little room, the reading end open and itself alive, and the turn that finds
     * otherwise ends it. On success all of addr is in the stream, in order; on failure, or if it
     * still sleeps, a part of it is. If no one else writes meanwhile nothing lies between.
     */
    method PipeWrite(addr: seq<byte>, sleeps: seq<seq<Other>>, killed: seq<bool>)
      returns (t: Turn, ghost at: seq<nat>, ghost slept: nat)
      requires Valid() && |killed| == |sleeps| + 1
      modifies this, data
      ensures Valid() && old(stored) <= stored && old(taken) <= taken
      ensures InOrder(stored, |old(stored)|, addr, at)
      ensures t.Done? <==> |at| == |addr|
      ensures NoneWrites(sleeps) ==> stored == old(stored) + addr[..|at|]
      ensures slept <= |sleeps| && (t.Sleep? ==> slept == |sleeps|)
      ensures forall k :: 0 <= k < slept ==> SleepsOn(old(Now()), addr, sleeps, killed, k)
      ensures
        var (v, i) := FoundBy(old(Now()), addr, sleeps, slept);
        && t == WriteEnd(v, |addr| - i, killed[slept])
        && Now() == Stored(v, addr[i..]) && |at| == i + Fits(v, |addr| - i)
    {
      hide Valid;
      hide InOrder;
      hide NoWrites;
      hide Places;
      hide AfterOthers;
      hide Stored;
      hide Fits;
      hide WriteEnd;
      hide FoundBy;
      ghost var v0, i0 := Now(), 0;
      FoundStart(v0, addr, sleeps);
      var i;
      i, t := WriteTurn(addr, 0, killed[0]);
      slept := 0;
      var k := 0;
      while t.Sleep? && k < |sleeps|
        invariant 0 <= k == slept <= |sleeps| && Valid() && Sound(v0) && i0 <= i <= |addr|
        invariant FoundBy(old(Now()), addr, sleeps, k) == (v0, i0) && i == i0 + Fits(v0, |addr| - i0)
        invariant t == WriteEnd(v0, |addr| - i0, killed[k]) && Now() == Stored(v0, addr[i0..])
        invariant t.Done? <==> i == |addr|
        invariant forall j :: 0 <= j < k ==> SleepsOn(old(Now()), addr, sleeps, killed, j)
      {
        Others(sleeps[k]);
        FoundNext(old(Now()), addr, sleeps, k, v0, i0);
        k := k + 1;
        slept, v0, i0 := k, Now(), i;
        i, t := WriteTurn(addr, i, killed[k]);
      }
      PlacesInOrder(old(Now()), addr, sleeps, slept);
      at := Places(old(Now()), addr, sleeps, slept);
      PutMore(old(Now()), addr, v0, at, NoneWrites(sleeps));
      at := at + Positions(|v0.stored|, i - i0);
    }

    /**
     * The whole of piperead. Each sleep on an empty pipe is followed by other processes' turns. It
     * sleeps as long as it finds the pipe empty, the writing end open and itself alive, and the turn
     * that finds otherwise ends it. What it returns is the stretch of the stream that comes next
     * after those turns, as much as was asked for or is there; nothing only at the end of the
     * stream, with the writing end closed.
     */
    method PipeRead(n: nat, sleeps: seq<seq<Other>>, killed: seq<bool>)
      returns (got: seq<byte>, t: Turn, ghost slept: nat)
      requires Valid() && |killed| == |sleeps| + 1
      modifies this, data
      ensures Valid() && old(stored) <= stored && NextStretch(stored, old(taken), taken, got)
      ensures t.Done? ==> |got| <= n && (|got| < n ==> |taken| == |stored|)
      ensures t.Done? && got == [] && n > 0 ==> !writeopen
      ensures !t.Done? ==> got == [] && |taken| == |stored| && writeopen
      ensures NoneReads(sleeps) ==> taken == old(taken) + got
      ensures slept <= |sleeps| && (t.Sleep? ==> slept == |sleeps|)
      ensures forall k :: 0 <= k < slept ==> WaitsOn(old(Now()), sleeps, killed, k)
      ensures
        var v := Found(old(Now()), sleeps, slept);
        && t == ReadEnd(v, killed[slept]) && Now() == (if t.Done? then Taken(v, n) else v)
        && taken == v.taken + got
    {
      hide NextStretch;
      hide AfterOthers;
      hide Found;
      hide NoReads;
      hide Taken;
      hide ReadEnd;
      ghost var v0 := Now();
      FoundLater(v0, sleeps, 0);
      got, t := ReadTurn(n, killed[0]);
      slept := 0;
      var k := 0;
      while t.Sleep? && k < |sleeps|
        invariant 0 <= k == slept <= |sleeps| && Valid() && Sound(v0)
        invariant Found(old(Now()), sleeps, k) == v0 && taken == v0.taken + got
        invariant t == ReadEnd(v0, killed[k]) && Now() == if t.Done? then Taken(v0, n) else v0
        invariant forall j :: 0 <= j < k ==> WaitsOn(old(Now()), sleeps, killed, j)
      {
        Others(sleeps[k]);
        FoundLater(old(Now()), sleeps, k);
        k := k + 1;
        slept, v0 := k, Now();
        got, t := ReadTurn(n, killed[k]);
      }
      FoundGrows(old(Now()), sleeps, slept);
      ReadGets(v0, n, t, killed[slept], Now(), got);
      Stretch(stored, old(taken), v0.taken, taken, got);
    }
  }
}
