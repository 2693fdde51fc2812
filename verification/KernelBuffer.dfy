/**
 * The bounded buffer on the kernel's own semaphores: the mutex is semaphore 0, empty is made of 1 and 2
 * and full of 3 and 4. A thread goes through every step of the buffer, of the counting semaphores and of
 * the kernel's down and up. Every run of it is a run of the buffer on counting semaphores made of
 * atomic binary ones.
 */
module KernelBuffer {
  import opened Semaphores
  import B = BinarySemaphore
  import C = CountingSemaphore
  import Q = BoundedBuffer
  import T = SemaphoreStack
  import S = BufferStack

  /** Where each thread stands in the kernel, and where in the buffer's and the semaphores' code. */
  datatype State = State(bin: B.State, top: S.State)

  /** Where a thread stands in the buffer's code, and in that of the two counting semaphores. */
  datatype Place = Place(r: Q.Pc, e: C.Pc, f: C.Pc)

  function At(top: S.State, t: nat): Place
    requires t < |top.ring.pcs| == |top.empty.pcs| == |top.full.pcs|
  {
    Place(top.ring.pcs[t], top.empty.pcs[t], top.full.pcs[t])
  }

  function Put(top: S.State, t: nat, p: Place): S.State
    requires t < |top.ring.pcs| == |top.empty.pcs| == |top.full.pcs|
  {
    S.State(top.ring.(pcs := top.ring.pcs[t := p.r]), top.empty.(pcs := top.empty.pcs[t := p.e]),
            top.full.(pcs := top.full.pcs[t := p.f]))
  }

  /** The binary operation that comes next, if one does. */
  datatype Op = None | Op(id: nat, down: bool)

  function Pending(p: Place): (o: Op)
    ensures o.Op? ==> o.id < 5
  {
    if p.r.PutMutex? || p.r.PopMutex? then Op(0, true)
    else if p.r.PutRelease? || p.r.PopRelease? then Op(0, false)
    else if S.CallsEmpty(p.r) && T.Calls(p.e) then Op(1 + T.Which(p.e), T.IsDown(p.e))
    else if S.CallsFull(p.r) && T.Calls(p.f) then Op(3 + T.Which(p.f), T.IsDown(p.f))
    else None
  }

  /** Where the thread stands when the operation is done. */
  function Done(p: Place): Place {
    match p.r
    case PutMutex(x) => p.(r := Q.PutWrite(x))
    case PopMutex => p.(r := Q.PopRead)
    case PutRelease => p.(r := Q.PutFull)
    case PopRelease(x) => p.(r := Q.PopEmpty(x))
    case _ =>
      if S.CallsEmpty(p.r) then Place(if T.After(p.e).Idle? then S.After(p.r) else p.r, T.After(p.e), p.f)
      else Place(if T.After(p.f).Idle? then S.After(p.r) else p.r, p.e, T.After(p.f))
  }

  function Value(top: S.State, id: nat): int
    requires id < 5
  {
    match id
    case 0 => top.ring.mutex
    case 1 => top.empty.s1
    case 2 => top.empty.s2
    case 3 => top.full.s1
    case 4 => top.full.s2
  }

  function SetValue(top: S.State, id: nat, v: int): S.State
    requires id < 5
  {
    match id
    case 0 => top.(ring := top.ring.(mutex := v))
    case 1 => top.(empty := top.empty.(s1 := v))
    case 2 => top.(empty := top.empty.(s2 := v))
    case 3 => top.(full := top.full.(s1 := v))
    case 4 => top.(full := top.full.(s2 := v))
  }

  ghost predicate Shape(s: State) {
    && B.Shape(s.bin) && |s.bin.sems| == 5 && S.Shape(s.top) && |s.bin.procs| == |s.top.ring.pcs|
    && forall id :: 0 <= id < 5 ==> Value(s.top, id) == s.bin.sems[id].value
  }

  ghost predicate Created(s: State) {
    && Shape(s) && B.Init(s.bin) && S.Created(s.top)
    && forall id :: 0 <= id < 5 ==> s.bin.sems[id].created
  }

  /** The thread enters the kernel. */
  ghost predicate Begin(s: State, s': State, t: nat)
    requires Shape(s) && t < |s.bin.procs|
  {
    var o := Pending(At(s.top, t));
    && o.Op? && s.bin.procs[t].pc.Idle?
    && s' == s.(bin := B.Move(s.bin, t, if o.down then B.DownAcquire(o.id) else B.UpAcquire(o.id)))
  }

  /** A step inside the kernel; the last one returns. */
  ghost predicate Inside(s: State, s': State, t: nat)
    requires Shape(s) && t < |s.bin.procs|
  {
    && (B.DownStep(s.bin, s'.bin, t) || B.SleepStep(s.bin, s'.bin, t) || B.UpStep(s.bin, s'.bin, t))
    && |s'.bin.procs| == |s.bin.procs| && |s'.bin.sems| == 5
    && s'.top == Copied(if s'.bin.procs[t].pc.Idle? then Put(s.top, t, Done(At(s.top, t))) else s.top, s'.bin)
  }

  /** The values that the upper layers see are the kernel's. */
  function Copied(top: S.State, b: B.State): S.State
    requires |b.sems| == 5
  {
    SetValue(SetValue(SetValue(SetValue(SetValue(top, 0, b.sems[0].value), 1, b.sems[1].value), 2, b.sems[2].value),
                      3, b.sems[3].value), 4, b.sems[4].value)
  }

  ghost predicate Killed(s: State, s': State, t: nat)
    requires Shape(s) && t < |s.bin.procs|
  {
    B.Kill(s.bin, s'.bin, t) && s' == s.(bin := s'.bin)
  }

  /** A step of the upper layers that is no binary operation. */
  ghost predicate Own(s: State, s': State, t: nat)
    requires Shape(s) && t < |s.bin.procs|
  {
    s.bin.procs[t].pc.Idle? && Pending(At(s.top, t)).None? && S.Step(s.top, s'.top, t) && s' == s.(top := s'.top)
  }

  ghost predicate Step(s: State, s': State, t: nat) {
    && Shape(s) && t < |s.bin.procs|
    && (Begin(s, s', t) || Inside(s, s', t) || Killed(s, s', t) || Own(s, s', t))
  }

  ghost predicate Next(s: State, s': State) {
    exists t: nat :: Step(s, s', t)
  }

  ghost predicate Run(run: seq<State>) {
    && |run| > 0 && Created(run[0])
    && forall i :: 0 <= i < |run| - 1 ==> Next(run[i], run[i + 1])
  }

  function Shown(p: Place, inner: B.Pc): Place { if T.Over(inner) then Done(p) else p }

  function ShownAt(s: State, t: nat): Place
    requires t < |s.bin.procs| == |s.top.ring.pcs| == |s.top.empty.pcs| == |s.top.full.pcs|
  {
    Shown(At(s.top, t), s.bin.procs[t].pc)
  }

  /** The same state with atomic binary semaphores. */
  function Abstract(s: State): S.State
    requires |s.bin.procs| == |s.top.ring.pcs| == |s.top.empty.pcs| == |s.top.full.pcs|
  {
    var n := |s.bin.procs|;
    S.State(s.top.ring.(pcs := seq(n, t requires 0 <= t < n => ShownAt(s, t).r)),
            s.top.empty.(pcs := seq(n, t requires 0 <= t < n => ShownAt(s, t).e)),
            s.top.full.(pcs := seq(n, t requires 0 <= t < n => ShownAt(s, t).f)))
  }

  /** The thread is in the kernel for the operation that comes next, and has not been refused. */
  ghost predicate Matches(p: Place, inner: B.Pc) {
    inner.Idle? || (
      && Pending(p) == Op(inner.id, T.InDown(inner))
      && (inner.DownRelease? || inner.UpRelease? ==> inner.ok))
  }

  ghost predicate Inv(s: State, v0: seq<int>) {
    && B.Inv(s.bin, v0) && Shape(s)
    && (forall id :: 0 <= id < 5 ==> s.bin.sems[id].created)
    && forall t :: 0 <= t < |s.bin.procs| ==> Matches(At(s.top, t), s.bin.procs[t].pc)
  }

  lemma CreatedOk(s: State)
    requires Created(s)
    ensures Inv(s, B.Values(s.bin)) && S.Created(Abstract(s))
  {
    B.InitOk(s.bin);
    assert Abstract(s) == s.top;
  }

  /** A pending binary operation, done at once, is a step of the upper layers. */
  lemma OpStep(a: S.State, t: nat, v: int)
    requires S.Shape(a) && t < |a.ring.pcs| && Pending(At(a, t)).Op?
    requires
      var o := Pending(At(a, t));
      if o.down then BinaryDown(Value(a, o.id), v) else BinaryUp(Value(a, o.id), v)
    ensures
      var o := Pending(At(a, t));
      S.Step(a, SetValue(Put(a, t, Done(At(a, t))), o.id, v), t)
  {
    var o := Pending(At(a, t));
    if o.id == 0 {
      MutexStep(a, t, v);
    } else if o.id < 3 {
      EmptyOp(a, t, v);
    } else {
      FullOp(a, t, v);
    }
  }

  lemma MutexStep(a: S.State, t: nat, v: int)
    requires S.Shape(a) && t < |a.ring.pcs| && Pending(At(a, t)).Op? && Pending(At(a, t)).id == 0
    requires if Pending(At(a, t)).down then BinaryDown(a.ring.mutex, v) else BinaryUp(a.ring.mutex, v)
    ensures S.Step(a, SetValue(Put(a, t, Done(At(a, t))), 0, v), t)
  {
    var a' := SetValue(Put(a, t, Done(At(a, t))), 0, v);
    assert a'.empty.pcs == a.empty.pcs && a'.full.pcs == a.full.pcs;
    assert Q.Step(a.ring, a'.ring, t);
    assert S.Local(a, a', t);
  }

  /** The same for a counting semaphore's own binary ones. */
  lemma SemStep(c: C.State, t: nat, v: int)
    requires t < |c.pcs| && T.Calls(c.pcs[t])
    requires
      var w := if T.Which(c.pcs[t]) == 0 then c.s1 else c.s2;
      if T.IsDown(c.pcs[t]) then BinaryDown(w, v) else BinaryUp(w, v)
    ensures
      var c1 := C.Move(c, t, T.After(c.pcs[t]));
      C.Step(c, if T.Which(c.pcs[t]) == 0 then c1.(s1 := v) else c1.(s2 := v), t)
  {
  }

  lemma EmptyOp(a: S.State, t: nat, v: int)
    requires S.Shape(a) && t < |a.ring.pcs| && Pending(At(a, t)).Op? && 1 <= Pending(At(a, t)).id < 3
    requires
      var o := Pending(At(a, t));
      if o.down then BinaryDown(Value(a, o.id), v) else BinaryUp(Value(a, o.id), v)
    ensures S.Step(a, SetValue(Put(a, t, Done(At(a, t))), Pending(At(a, t)).id, v), t)
  {
    var a' := SetValue(Put(a, t, Done(At(a, t))), Pending(At(a, t)).id, v);
    SemStep(a.empty, t, v);
    assert a'.full.pcs == a.full.pcs;
    assert a'.ring == S.Resumed(a.ring, a.empty, a'.empty, t).(empty := a'.empty.value) by {
      assert a.ring.pcs[t := a.ring.pcs[t]] == a.ring.pcs;
    }
    hide C.Step;
    assert S.EmptyStep(a, a', t);
  }

  lemma FullOp(a: S.State, t: nat, v: int)
    requires S.Shape(a) && t < |a.ring.pcs| && Pending(At(a, t)).Op? && 3 <= Pending(At(a, t)).id
    requires
      var o := Pending(At(a, t));
      if o.down then BinaryDown(Value(a, o.id), v) else BinaryUp(Value(a, o.id), v)
    ensures S.Step(a, SetValue(Put(a, t, Done(At(a, t))), Pending(At(a, t)).id, v), t)
  {
    var a' := SetValue(Put(a, t, Done(At(a, t))), Pending(At(a, t)).id, v);
    SemStep(a.full, t, v);
    assert a'.empty.pcs == a.empty.pcs;
    assert a'.ring == S.Resumed(a.ring, a.full, a'.full, t).(full := a'.full.value) by {
      assert a.ring.pcs[t := a.ring.pcs[t]] == a.ring.pcs;
    }
    hide C.Step;
    assert S.FullStep(a, a', t);
  }

  /** Where the other threads stand makes no difference to a step of a counting semaphore. */
  lemma SemElsewhere(c: C.State, c': C.State, pcs: seq<C.Pc>, t: nat)
    requires C.Step(c, c', t) && |pcs| == |c.pcs| && pcs[t] == c.pcs[t]
    ensures c'.pcs == c.pcs[t := c'.pcs[t]] && |c'.pcs| == |c.pcs|
    ensures C.Step(c.(pcs := pcs), c'.(pcs := pcs[t := c'.pcs[t]]), t)
  {
  }

  /** top with its threads standing at other places. */
  function Moved(top: S.State, rp: seq<Q.Pc>, ep: seq<C.Pc>, fp: seq<C.Pc>): S.State {
    S.State(top.ring.(pcs := rp), top.empty.(pcs := ep), top.full.(pcs := fp))
  }

  /** Where the other threads stand makes no difference to a step of the upper layers. */
  lemma Elsewhere(top: S.State, top': S.State, rp: seq<Q.Pc>, ep: seq<C.Pc>, fp: seq<C.Pc>, t: nat)
    requires S.Step(top, top', t) && |rp| == |ep| == |fp| == |top.ring.pcs|
    requires Place(rp[t], ep[t], fp[t]) == At(top, t) && |top'.ring.pcs| == |top'.empty.pcs| == |top'.full.pcs| == |rp|
    ensures
      var p := At(top', t);
      S.Step(Moved(top, rp, ep, fp), Moved(top', rp[t := p.r], ep[t := p.e], fp[t := p.f]), t)
  {
    var p := At(top', t);
    var a, a' := Moved(top, rp, ep, fp), Moved(top', rp[t := p.r], ep[t := p.e], fp[t := p.f]);
    if S.Local(top, top', t) {
      S.LocalShown(top.ring, top'.ring, rp, t);
      assert a'.empty.pcs == a.empty.pcs && a'.full.pcs == a.full.pcs;
      hide Q.Step;
      assert S.Local(a, a', t);
    } else if S.EmptyStep(top, top', t) {
      CallElsewhere(top.ring.pcs[t], top.empty, top'.empty, ep, t);
      assert a'.full.pcs == a.full.pcs && a.ring.pcs[t := a.ring.pcs[t]] == a.ring.pcs;
      assert S.EmptyStep(a, a', t);
    } else {
      CallElsewhere(top.ring.pcs[t], top.full, top'.full, fp, t);
      assert a'.empty.pcs == a.empty.pcs && a.ring.pcs[t := a.ring.pcs[t]] == a.ring.pcs;
      assert S.FullStep(a, a', t);
    }
  }

  lemma CallElsewhere(pc: Q.Pc, c: C.State, c': C.State, pcs: seq<C.Pc>, t: nat)
    requires t < |c.pcs| == |pcs| && pcs[t] == c.pcs[t] && |c'.pcs| == |c.pcs|
    requires S.Begin(pc, c, c', t) || S.Inside(c, c', t)
    ensures
      var d, d' := c.(pcs := pcs), c'.(pcs := pcs[t := c'.pcs[t]]);
      S.Begin(pc, d, d', t) || S.Inside(d, d', t)
  {
    if S.Inside(c, c', t) {
      SemElsewhere(c, c', pcs, t);
    }
  }

  /** A step that is no binary operation moves one thread and changes no binary semaphore. */
  lemma OwnKeeps(top: S.State, top': S.State, t: nat)
    requires S.Step(top, top', t) && Pending(At(top, t)).None?
    ensures S.Shape(top') && |top'.ring.pcs| == |top.ring.pcs|
    ensures forall id :: 0 <= id < 5 ==> Value(top', id) == Value(top, id)
    ensures forall u :: 0 <= u < |top.ring.pcs| && u != t ==> At(top', u) == At(top, u)
  {
    if S.Local(top, top', t) {
      MutexKept(top.ring, top'.ring, t);
    } else if S.EmptyStep(top, top', t) {
      BinaryKept(top.ring.pcs[t], top.empty, top'.empty, t);
    } else {
      BinaryKept(top.ring.pcs[t], top.full, top'.full, t);
    }
  }

  lemma MutexKept(r: Q.State, r': Q.State, t: nat)
    requires Q.Step(r, r', t) && !S.CallsEmpty(r.pcs[t]) && !S.CallsFull(r.pcs[t])
    requires !r.pcs[t].PutMutex? && !r.pcs[t].PopMutex? && !r.pcs[t].PutRelease? && !r.pcs[t].PopRelease?
    ensures r'.mutex == r.mutex && r'.empty == r.empty && r'.full == r.full
    ensures |r'.pcs| == |r.pcs| && forall u :: 0 <= u < |r.pcs| && u != t ==> r'.pcs[u] == r.pcs[u]
  {
  }

  lemma BinaryKept(pc: Q.Pc, c: C.State, c': C.State, t: nat)
    requires t < |c.pcs| && !T.Calls(c.pcs[t]) && (S.Begin(pc, c, c', t) || S.Inside(c, c', t))
    ensures c'.s1 == c.s1 && c'.s2 == c.s2
    ensures |c'.pcs| == |c.pcs| && forall u :: 0 <= u < |c.pcs| && u != t ==> c'.pcs[u] == c.pcs[u]
  {
  }

  lemma OwnRefines(s: State, s': State, v0: seq<int>, t: nat)
    requires Inv(s, v0) && t < |s.bin.procs| && Own(s, s', t)
    ensures Inv(s', v0) && S.Step(Abstract(s), Abstract(s'), t)
  {
    hide B.Inv;
    hide S.Step;
    OwnKeeps(s.top, s'.top, t);
    var a, a' := Abstract(s), Abstract(s');
    Elsewhere(s.top, s'.top, a.ring.pcs, a.empty.pcs, a.full.pcs, t);
    var p := At(s'.top, t);
    assert a'.ring.pcs == a.ring.pcs[t := p.r] && a'.empty.pcs == a.empty.pcs[t := p.e];
    assert a'.full.pcs == a.full.pcs[t := p.f];
    assert a == Moved(s.top, a.ring.pcs, a.empty.pcs, a.full.pcs);
    assert a' == Moved(s'.top, a.ring.pcs[t := p.r], a.empty.pcs[t := p.e], a.full.pcs[t := p.f]);
  }

  /** The step at which down or up stores the value. */
  predicate Works(pc: B.Pc) { pc.DownTake? || pc.UpSet? }

  /** What a step inside the kernel leaves as it was, and when it does what it was called for. */
  lemma KernelStep(s: State, s': State, v0: seq<int>, t: nat)
    requires Inv(s, v0) && t < |s.bin.procs| && Inside(s, s', t)
    ensures
      var b, b' := s.bin, s'.bin;
      var pc, pc' := b.procs[t].pc, b'.procs[t].pc;
      && !pc.Idle? && (forall u :: 0 <= u < |b.procs| && u != t ==> b'.procs[u].pc == b.procs[u].pc)
      && (forall id :: 0 <= id < 5 ==> b'.sems[id].created)
      && (pc'.Idle? || (pc'.id == pc.id && T.InDown(pc') == T.InDown(pc)))
      && (pc'.DownRelease? || pc'.UpRelease? ==> pc'.ok)
      && (Works(pc) ==> T.Over(pc') && !pc'.Idle? && !T.Over(pc))
      && (Works(pc) ==> if T.InDown(pc) then BinaryDown(b.sems[pc.id].value, b'.sems[pc.id].value)
                        else BinaryUp(b.sems[pc.id].value, b'.sems[pc.id].value))
      && (!Works(pc) ==> (T.Over(pc) <==> T.Over(pc') || pc'.Idle?))
      && forall id :: 0 <= id < 5 && (id != pc.id || !Works(pc)) ==> b'.sems[id].value == b.sems[id].value
  {
    var b, b' := s.bin, s'.bin;
    assert Matches(At(s.top, t), b.procs[t].pc);
    if B.UpStep(b, b', t) {
      T.UpApart(b, b', t);
      T.UpGoesOn(b, b', t);
    } else {
      assert B.ProcOk(b, t);
      T.DownApart(b, b', t);
      T.DownGoesOn(b, b', t);
    }
  }

  lemma InsideInv(s: State, s': State, v0: seq<int>, t: nat)
    requires Inv(s, v0) && t < |s.bin.procs| && Inside(s, s', t) && B.Inv(s'.bin, v0) && B.Shape(s'.bin)
    ensures Inv(s', v0) && forall u :: 0 <= u < |s.bin.procs| && u != t ==> At(s'.top, u) == At(s.top, u)
  {
    hide B.Inv;
    hide B.DownStep;
    hide B.SleepStep;
    hide B.UpStep;
    hide Done;
    hide Pending;
    KernelStep(s, s', v0, t);
    assert Matches(At(s.top, t), s.bin.procs[t].pc);
  }

  /** A step at which the kernel stores the value is the operation itself. */
  lemma WorkRefines(s: State, s': State, v0: seq<int>, t: nat)
    requires Inv(s, v0) && Inv(s', v0) && t < |s.bin.procs| && Inside(s, s', t) && Works(s.bin.procs[t].pc)
    requires forall u :: 0 <= u < |s.bin.procs| && u != t ==> At(s'.top, u) == At(s.top, u)
    ensures S.Step(Abstract(s), Abstract(s'), t)
  {
    hide B.Inv;
    hide B.DownStep;
    hide B.SleepStep;
    hide B.UpStep;
    hide Done;
    hide Pending;
    hide S.Step;
    KernelStep(s, s', v0, t);
    var pc := s.bin.procs[t].pc;
    assert Matches(At(s.top, t), pc);
    var a, a', v := Abstract(s), Abstract(s'), s'.bin.sems[pc.id].value;
    assert At(a, t) == At(s.top, t);
    OpStep(a, t, v);
    var b := SetValue(Put(a, t, Done(At(a, t))), pc.id, v);
    assert a'.ring.pcs == b.ring.pcs && a'.empty.pcs == b.empty.pcs && a'.full.pcs == b.full.pcs;
    assert a' == b;
  }

  /** Any other step in the kernel is none of the upper layers'. */
  lemma RestRefines(s: State, s': State, v0: seq<int>, t: nat)
    requires Inv(s, v0) && Inv(s', v0) && t < |s.bin.procs| && Inside(s, s', t) && !Works(s.bin.procs[t].pc)
    requires forall u :: 0 <= u < |s.bin.procs| && u != t ==> At(s'.top, u) == At(s.top, u)
    ensures Abstract(s') == Abstract(s)
  {
    hide B.Inv;
    hide B.DownStep;
    hide B.SleepStep;
    hide B.UpStep;
    hide Done;
    hide Pending;
    KernelStep(s, s', v0, t);
    var a, a' := Abstract(s), Abstract(s');
    assert a'.ring.pcs == a.ring.pcs && a'.empty.pcs == a.empty.pcs && a'.full.pcs == a.full.pcs;
    assert a' == a;
  }

  lemma StepRefines(s: State, s': State, v0: seq<int>, t: nat)
    requires Inv(s, v0) && Step(s, s', t)
    ensures Inv(s', v0)
    ensures Abstract(s') == Abstract(s) || S.Step(Abstract(s), Abstract(s'), t)
  {
    hide B.Inv;
    if Own(s, s', t) {
      OwnRefines(s, s', v0, t);
    } else {
      BinStep(s, s', t);
      B.StepSafe(s.bin, s'.bin, v0, t);
      T.BinShape(s'.bin, v0);
      if Inside(s, s', t) {
        InsideInv(s, s', v0, t);
        if Works(s.bin.procs[t].pc) {
          WorkRefines(s, s', v0, t);
        } else {
          RestRefines(s, s', v0, t);
        }
      } else {
        assert Abstract(s').ring.pcs == Abstract(s).ring.pcs;
        assert Abstract(s').empty.pcs == Abstract(s).empty.pcs && Abstract(s').full.pcs == Abstract(s).full.pcs;
      }
    }
  }

  lemma BinStep(s: State, s': State, t: nat)
    requires Step(s, s', t) && !Own(s, s', t)
    ensures B.Step(s.bin, s'.bin, t)
  {
  }

  lemma InvShape(s: State, v0: seq<int>)
    requires Inv(s, v0)
    ensures Shape(s)
  {
  }

  /** Some run of the buffer on atomic binary semaphores ends in a. */
  ghost predicate Reached(a: S.State) {
    exists run :: S.Run(run) && run[|run| - 1] == a
  }

  lemma ReachedNext(a: S.State, a': S.State, t: nat)
    requires Reached(a) && (a' == a || S.Step(a, a', t))
    ensures Reached(a')
  {
    hide S.Step;
    hide S.Created;
    if a' != a {
      var run :| S.Run(run) && run[|run| - 1] == a;
      var run' := run + [a'];
      forall i | 0 <= i < |run'| - 1
        ensures S.Next(run'[i], run'[i + 1])
      {
        if i < |run| - 1 { assert S.Next(run[i], run[i + 1]); }
      }
      assert S.Run(run') && run'[|run'| - 1] == a';
    }
  }

  lemma ReachedCreated(a: S.State)
    requires S.Created(a)
    ensures Reached(a)
  {
    assert S.Run([a]);
  }

  /** For any capacity and any number of threads: what the whole stack reaches, the one above reaches. */
  lemma {:induction false} RunRefines(run: seq<State>, i: nat)
    requires Run(run) && i < |run|
    ensures Inv(run[i], B.Values(run[0].bin)) && Reached(Abstract(run[i]))
  {
    hide Step;
    hide Inv;
    hide Created;
    hide Reached;
    hide S.Step;
    hide S.Created;
    if i == 0 {
      CreatedOk(run[0]);
      InvShape(run[0], B.Values(run[0].bin));
      ReachedCreated(Abstract(run[0]));
    } else {
      var s, s', v0 := run[i - 1], run[i], B.Values(run[0].bin);
      RunRefines(run, i - 1);
      assert Next(s, s');
      var t: nat :| Step(s, s', t);
      StepRefines(s, s', v0, t);
      InvShape(s, v0);
      InvShape(s', v0);
      ReachedNext(Abstract(s), Abstract(s'), t);
    }
  }

  /**
   * The buffer on the kernel's semaphores: items come out in the order they went in, no more wait than
   * there are slots, and each waits in its slot, in every interleaving and whatever is killed.
   */
  lemma KernelCorrect(run: seq<State>, i: nat)
    requires Run(run) && i < |run|
    ensures
      var r := run[i].top.ring;
      && r.pops <= r.puts && |r.puts| - |r.pops| <= r.size
      && forall k: nat :: |r.pops| <= k < |r.puts| ==>
        r.size > 0 && Q.Slot(k, r.size) < |r.elements| && r.elements[Q.Slot(k, r.size)] == r.puts[k]
  {
    hide S.Created;
    hide S.Next;
    RunRefines(run, i);
    var abs :| S.Run(abs) && abs[|abs| - 1] == Abstract(run[i]);
    S.StackCorrect(abs, |abs| - 1);
  }

  lemma StepMoves(s: State, s': State, t: nat)
    requires Step(s, s', t)
    ensures |s'.top.ring.pcs| == |s.top.ring.pcs|
  {
    if Own(s, s', t) {
      hide S.Step;
      S.StepMoves(s.top, s'.top, t);
    }
  }

  lemma StepCarries(s: State, s': State, t: nat, u: nat)
    requires Step(s, s', t) && u < |s.top.ring.pcs| == |s'.top.ring.pcs|
    ensures Q.Carries(s.top.ring.pcs[u], s'.top.ring.pcs[u], u == t)
  {
    if Own(s, s', t) {
      hide S.Step;
      S.StepCarries(s.top, s'.top, t, u);
    }
  }

  ghost predicate Stores(r: Q.State, r': Q.State, x: int) {
    |r.pops| <= |r.puts| && |r'.pops| <= |r'.puts| && Q.Put(Q.Queue(r), Q.Queue(r'), r.size, x)
  }

  /** A thread moves on from a load or a store by a step of its own. */
  lemma MovesOn(s: State, s': State, v0: seq<int>, t: nat, u: nat)
    requires Inv(s, v0) && Step(s, s', u) && t < |s.top.ring.pcs| == |s'.top.ring.pcs|
    requires s.top.ring.pcs[t] != s'.top.ring.pcs[t] && (s.top.ring.pcs[t].PopRead? || s.top.ring.pcs[t].PutWrite?)
    ensures u == t && Own(s, s', t)
  {
    hide B.Inv;
    assert Matches(At(s.top, t), s.bin.procs[t].pc);
    if Own(s, s', u) {
      hide S.Step;
      OwnKeeps(s.top, s'.top, u);
    }
  }

  lemma Takes(s: State, s': State, v0: seq<int>, t: nat)
    requires Inv(s, v0) && Reached(Abstract(s)) && t < |s.bin.procs| && Own(s, s', t)
    requires |s'.top.ring.pcs| == |s.top.ring.pcs| && (s.top.ring.pcs[t].PopRead? || s.top.ring.pcs[t].PutWrite?)
    ensures |s.top.ring.pops| <= |s.top.ring.puts| && |s'.top.ring.pops| <= |s'.top.ring.puts|
    ensures s.top.ring.pcs[t].PopRead? ==>
      s'.top.ring.pcs[t].PopClear? && Q.Pop(Q.Queue(s.top.ring), Q.Queue(s'.top.ring), s'.top.ring.pcs[t].x)
    ensures s.top.ring.pcs[t].PutWrite? ==>
      Q.Put(Q.Queue(s.top.ring), Q.Queue(s'.top.ring), s.top.ring.size, s.top.ring.pcs[t].x)
  {
    hide S.Step;
    hide B.Inv;
    hide S.Inv;
    hide S.Reached;
    hide S.Created;
    hide S.Next;
    OwnRefines(s, s', v0, t);
    var abs :| S.Run(abs) && abs[|abs| - 1] == Abstract(s);
    S.RunRefines(abs, |abs| - 1);
    hide Inv;
    hide Reached;
    S.InvShape(Abstract(s));
    S.Takes(Abstract(s), Abstract(s'), t);
  }

  /** What a pop returns is what its own load took off the queue. */
  lemma {:induction false} Returned(run: seq<State>, t: nat, j: nat) returns (i: nat)
    requires Run(run) && j < |run| && t < |run[j].top.ring.pcs| && Q.Loaded(run[j].top.ring.pcs[t])
    ensures i < j && Step(run[i], run[i + 1], t) && run[i].top.ring.pcs[t].PopRead?
    ensures |run[i].top.ring.pops| <= |run[i].top.ring.puts|
    ensures |run[i + 1].top.ring.pops| <= |run[i + 1].top.ring.puts|
    ensures Q.Pop(Q.Queue(run[i].top.ring), Q.Queue(run[i + 1].top.ring), run[j].top.ring.pcs[t].x)
    ensures forall k | i < k <= j :: t < |run[k].top.ring.pcs| && Q.Loaded(run[k].top.ring.pcs[t])
  {
    hide Step;
    hide Q.Queue;
    hide Inv;
    hide Reached;
    assert j > 0;
    var s, s' := run[j - 1], run[j];
    assert Next(s, s');
    var u: nat :| Step(s, s', u);
    StepMoves(s, s', u);
    StepCarries(s, s', u, t);
    if Q.Loaded(s.top.ring.pcs[t]) {
      i := Returned(run, t, j - 1);
    } else {
      i := j - 1;
      RunRefines(run, i);
      InvShape(s, B.Values(run[0].bin));
      MovesOn(s, s', B.Values(run[0].bin), t, u);
      Takes(s, s', B.Values(run[0].bin), t);
    }
  }

  /** What a put stores is what its caller passed. */
  lemma {:induction false} Offered(run: seq<State>, t: nat, j: nat) returns (i: nat)
    requires Run(run) && j < |run| && t < |run[j].top.ring.pcs| && Q.Offering(run[j].top.ring.pcs[t])
    ensures i < j && t < |run[i].top.ring.pcs| == |run[i + 1].top.ring.pcs| && run[i].top.ring.pcs[t].Idle?
    ensures run[i + 1].top.ring.pcs[t] == Q.PutEmpty(run[j].top.ring.pcs[t].x)
    ensures forall k | i < k <= j :: t < |run[k].top.ring.pcs| && Q.Offering(run[k].top.ring.pcs[t])
    ensures run[j].top.ring.pcs[t].PutWrite? && j + 1 < |run| && t < |run[j + 1].top.ring.pcs| ==>
      || run[j + 1].top.ring.pcs[t] == run[j].top.ring.pcs[t]
      || Stores(run[j].top.ring, run[j + 1].top.ring, run[j].top.ring.pcs[t].x)
  {
    hide Step;
    hide Q.Queue;
    hide Inv;
    hide Reached;
    assert j > 0;
    var s, s' := run[j - 1], run[j];
    assert Next(s, s');
    var u: nat :| Step(s, s', u);
    StepMoves(s, s', u);
    StepCarries(s, s', u, t);
    if Q.Offering(s.top.ring.pcs[t]) {
      i := Offered(run, t, j - 1);
    } else {
      i := j - 1;
    }
    if run[j].top.ring.pcs[t].PutWrite? && j + 1 < |run| && t < |run[j + 1].top.ring.pcs| {
      if run[j + 1].top.ring.pcs[t] != run[j].top.ring.pcs[t] {
        assert Next(run[j], run[j + 1]);
        var v: nat :| Step(run[j], run[j + 1], v);
        RunRefines(run, j);
        InvShape(s', B.Values(run[0].bin));
        StepMoves(run[j], run[j + 1], v);
        MovesOn(run[j], run[j + 1], B.Values(run[0].bin), t, v);
        Takes(run[j], run[j + 1], B.Values(run[0].bin), t);
      }
    }
  }
}
