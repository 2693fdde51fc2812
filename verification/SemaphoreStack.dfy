/**
 * The counting semaphore run on the kernel's own binary ones: s1 is semaphore 0 and s2 semaphore 1,
 * and a thread that calls down or up on them goes through all the steps of the kernel's, queue,
 * sleep and kill included. Every run of it is a run of the construction on atomic semaphores.
 */
module SemaphoreStack {
  import opened Semaphores
  import B = BinarySemaphore
  import C = CountingSemaphore

  /** pcs says where each thread stands in semaphore_down or semaphore_up, bin where it stands in the kernel. */
  datatype State = State(bin: B.State, value: int, incs: nat, decs: nat, pcs: seq<C.Pc>)

  /** The thread's next action is a binary down or up. */
  predicate Calls(pc: C.Pc) {
    IsDown(pc) || pc.DownOpen? || pc.DownRelease? || pc.UpOpen? || pc.UpRelease?
  }

  predicate IsDown(pc: C.Pc) { pc.DownGate? || pc.DownMutex? || pc.UpMutex? }

  /** On s1 or on s2. */
  function Which(pc: C.Pc): nat { if pc.DownGate? || pc.DownOpen? || pc.UpOpen? then 1 else 0 }

  function After(pc: C.Pc): C.Pc {
    match pc
    case DownGate => C.DownMutex
    case DownMutex => C.DownLoad
    case DownOpen => C.DownRelease
    case DownRelease => C.Idle
    case UpMutex => C.UpLoad
    case UpOpen => C.UpRelease
    case UpRelease => C.Idle
    case _ => pc
  }

  ghost predicate Created(s: State, initial: int) {
    && B.Init(s.bin) && |s.bin.sems| == 2 && |s.bin.procs| == |s.pcs|
    && s.bin.sems[0] == B.Sem(1, true, 0) && s.bin.sems[1] == B.Sem(if initial < 1 then initial else 1, true, 0)
    && s.value == initial && s.incs == 0 && s.decs == 0
    && forall t :: 0 <= t < |s.pcs| ==> s.pcs[t] == C.Idle
  }

  ghost predicate Shape(s: State) {
    B.Shape(s.bin) && |s.bin.sems| == 2 && |s.bin.procs| == |s.pcs|
  }

  function Put(s: State, t: nat, pc: C.Pc): State
    requires t < |s.pcs|
  {
    s.(pcs := s.pcs[t := pc])
  }

  /** The thread enters the kernel. */
  ghost predicate Begin(s: State, s': State, t: nat)
    requires Shape(s) && t < |s.pcs|
  {
    var pc := s.pcs[t];
    && Calls(pc) && s.bin.procs[t].pc.Idle?
    && s' == s.(bin := B.Move(s.bin, t, if IsDown(pc) then B.DownAcquire(Which(pc)) else B.UpAcquire(Which(pc))))
  }

  /** A step inside the kernel; the last one returns. */
  ghost predicate Inside(s: State, s': State, t: nat)
    requires Shape(s) && t < |s.pcs|
  {
    && (B.DownStep(s.bin, s'.bin, t) || B.SleepStep(s.bin, s'.bin, t) || B.UpStep(s.bin, s'.bin, t))
    && |s'.bin.procs| == |s.bin.procs|
    && s' == (if s'.bin.procs[t].pc.Idle? then Put(s, t, After(s.pcs[t])) else s).(bin := s'.bin)
  }

  ghost predicate Killed(s: State, s': State, t: nat)
    requires Shape(s) && t < |s.pcs|
  {
    B.Kill(s.bin, s'.bin, t) && s' == s.(bin := s'.bin)
  }

  /** A step of the thread's own. */
  ghost predicate Local(s: State, s': State, t: nat)
    requires Shape(s) && t < |s.pcs|
  {
    && s.bin.procs[t].pc.Idle?
    && match s.pcs[t]
       case Idle => s' == Put(s, t, C.DownGate) || s' == Put(s, t, C.UpMutex)
       case DownLoad => s' == Put(s, t, C.DownStore(s.value))
       case DownStore(r) => s' == Put(s, t, C.DownTest).(value := r - 1, decs := s.decs + 1)
       case DownTest => s' == Put(s, t, if s.value > 0 then C.DownOpen else C.DownRelease)
       case UpLoad => s' == Put(s, t, C.UpStore(s.value))
       case UpStore(r) => s' == Put(s, t, C.UpTest).(value := r + 1, incs := s.incs + 1)
       case UpTest => s' == Put(s, t, if s.value == 1 then C.UpOpen else C.UpRelease)
       case _ => false
  }

  ghost predicate Step(s: State, s': State, t: nat) {
    && Shape(s) && t < |s.pcs|
    && (Begin(s, s', t) || Inside(s, s', t) || Killed(s, s', t) || Local(s, s', t))
  }

  ghost predicate Next(s: State, s': State) {
    exists t: nat :: Step(s, s', t)
  }

  ghost predicate Run(run: seq<State>, initial: int) {
    && |run| > 0 && Created(run[0], initial)
    && forall i :: 0 <= i < |run| - 1 ==> Next(run[i], run[i + 1])
  }

  /** The kernel has done what it was called for; what is left is to return. */
  predicate Over(pc: B.Pc) {
    (pc.DownRelease? && pc.ok) || pc.UpWake? || (pc.UpRelease? && pc.ok)
  }

  function Shown(pc: C.Pc, inner: B.Pc): C.Pc { if Over(inner) then After(pc) else pc }

  /** The same state with atomic binary semaphores. */
  function Abstract(s: State): C.State
    requires |s.bin.sems| == 2 && |s.bin.procs| == |s.pcs|
  {
    C.State(s.value, s.bin.sems[0].value, s.bin.sems[1].value, s.incs, s.decs,
            seq(|s.pcs|, t requires 0 <= t < |s.pcs| => Shown(s.pcs[t], s.bin.procs[t].pc)))
  }

  predicate InDown(pc: B.Pc) {
    pc.DownAcquire? || pc.DownQueue? || pc.DownTest? || pc.DownTake? || pc.DownSleep? || pc.DownUnlock? ||
    pc.DownPark? || pc.Parked? || pc.DownReacquire? || pc.DownRelease?
  }

  /** The thread is in the kernel for what its next action asks, and has not been refused. */
  ghost predicate Matches(pc: C.Pc, inner: B.Pc) {
    inner.Idle? || (
      && Calls(pc) && inner.id == Which(pc) && (InDown(inner) <==> IsDown(pc))
      && (inner.DownRelease? || inner.UpRelease? ==> inner.ok))
  }

  ghost predicate Inv(s: State, v0: seq<int>) {
    && B.Inv(s.bin, v0) && Shape(s) && s.bin.sems[0].created && s.bin.sems[1].created
    && forall t :: 0 <= t < |s.pcs| ==> Matches(s.pcs[t], s.bin.procs[t].pc)
  }

  lemma CreatedOk(s: State, initial: int)
    requires Created(s, initial)
    ensures Inv(s, B.Values(s.bin)) && C.Created(Abstract(s), initial)
  {
    B.InitOk(s.bin);
  }

  /** Thread t's step keeps the others where they are. */
  ghost predicate Apart(s: State, s': State, t: nat) {
    && Shape(s) && Shape(s') && |s'.pcs| == |s.pcs| && t < |s.pcs|
    && (forall u :: 0 <= u < |s.pcs| && u != t ==>
      s'.pcs[u] == s.pcs[u] && s'.bin.procs[u].pc == s.bin.procs[u].pc)
    && s'.bin.sems[0].created == s.bin.sems[0].created && s'.bin.sems[1].created == s.bin.sems[1].created
  }

  lemma DownApart(b: B.State, b': B.State, t: nat)
    requires B.Shape(b) && t < |b.procs| && (B.DownStep(b, b', t) || B.SleepStep(b, b', t))
    ensures |b'.procs| == |b.procs| && |b'.sems| == |b.sems|
    ensures forall u :: 0 <= u < |b.procs| && u != t ==> b'.procs[u].pc == b.procs[u].pc
    ensures forall id :: 0 <= id < |b.sems| ==> b'.sems[id].created == b.sems[id].created
  {
  }

  lemma UpApart(b: B.State, b': B.State, t: nat)
    requires B.Shape(b) && t < |b.procs| && B.UpStep(b, b', t)
    ensures |b'.procs| == |b.procs| && |b'.sems| == |b.sems|
    ensures forall u :: 0 <= u < |b.procs| && u != t ==> b'.procs[u].pc == b.procs[u].pc
    ensures forall id :: 0 <= id < |b.sems| ==> b'.sems[id].created == b.sems[id].created
  {
  }

  /** How a step inside the kernel goes on, and when it does what it was called for. */
  lemma DownGoesOn(b: B.State, b': B.State, t: nat)
    requires B.Shape(b) && t < |b.procs| && (B.DownStep(b, b', t) || B.SleepStep(b, b', t)) && B.ProcOk(b, t)
    requires |b'.procs| == |b.procs| && |b'.sems| == |b.sems| && b.sems[b.procs[t].pc.id].created
    requires b.procs[t].pc.DownRelease? ==> b.procs[t].pc.ok
    ensures
      var pc, pc' := b.procs[t].pc, b'.procs[t].pc;
      && InDown(pc) && (pc'.Idle? || (InDown(pc') && pc'.id == pc.id && (pc'.DownRelease? ==> pc'.ok)))
      && (forall id :: 0 <= id < |b.sems| && (id != pc.id || !pc.DownTake?) ==> b'.sems[id].value == b.sems[id].value)
      && (if pc.DownTake? then pc'.DownRelease? && BinaryDown(b.sems[pc.id].value, b'.sems[pc.id].value)
          else Over(pc) <==> Over(pc') || pc'.Idle?)
  {
    hide B.Placed;
  }

  lemma UpGoesOn(b: B.State, b': B.State, t: nat)
    requires B.Shape(b) && t < |b.procs| && B.UpStep(b, b', t)
    requires |b'.procs| == |b.procs| && |b'.sems| == |b.sems| && b.sems[b.procs[t].pc.id].created
    requires b.procs[t].pc.UpRelease? ==> b.procs[t].pc.ok
    ensures
      var pc, pc' := b.procs[t].pc, b'.procs[t].pc;
      && !InDown(pc) && !pc.Idle?
      && (pc'.Idle? || (!InDown(pc') && pc'.id == pc.id && (pc'.UpRelease? ==> pc'.ok)))
      && (forall id :: 0 <= id < |b.sems| && (id != pc.id || !pc.UpSet?) ==> b'.sems[id].value == b.sems[id].value)
      && (if pc.UpSet? then pc'.UpWake? && BinaryUp(b.sems[pc.id].value, b'.sems[pc.id].value)
          else Over(pc) <==> Over(pc') || pc'.Idle?)
  {
  }

  /** A step in the kernel is a step of the abstract machine when it does the work, and none otherwise. */
  lemma InsideRefines(s: State, s': State, v0: seq<int>, t: nat)
    requires Inv(s, v0) && t < |s.pcs| && Inside(s, s', t) && B.Shape(s'.bin)
    ensures Apart(s, s', t) && Matches(s'.pcs[t], s'.bin.procs[t].pc)
    ensures Abstract(s') == Abstract(s) || C.Step(Abstract(s), Abstract(s'), t)
  {
    var b, b', pc := s.bin, s'.bin, s.pcs[t];
    assert Matches(pc, b.procs[t].pc);
    if B.UpStep(b, b', t) {
      UpApart(b, b', t);
      UpGoesOn(b, b', t);
    } else {
      assert B.ProcOk(b, t);
      DownApart(b, b', t);
      DownGoesOn(b, b', t);
    }
    Resumes(s, s', t);
  }

  lemma Resumes(s: State, s': State, t: nat)
    requires Apart(s, s', t) && Matches(s.pcs[t], s.bin.procs[t].pc) && !s.bin.procs[t].pc.Idle?
    requires s' == (if s'.bin.procs[t].pc.Idle? then Put(s, t, After(s.pcs[t])) else s).(bin := s'.bin)
    requires
      var pc, pc' := s.bin.procs[t].pc, s'.bin.procs[t].pc;
      var id, works := pc.id, pc.DownTake? || pc.UpSet?;
      && (works ==> Over(pc') && !pc'.Idle?)
      && (works ==> if InDown(pc) then BinaryDown(s.bin.sems[id].value, s'.bin.sems[id].value)
                    else BinaryUp(s.bin.sems[id].value, s'.bin.sems[id].value))
      && (!works ==> (Over(pc) <==> Over(pc') || pc'.Idle?))
      && (forall i :: 0 <= i < 2 && (i != id || !works) ==> s'.bin.sems[i].value == s.bin.sems[i].value)
    ensures Abstract(s') == Abstract(s) || C.Step(Abstract(s), Abstract(s'), t)
  {
    var a, a' := Abstract(s), Abstract(s');
    var pc := s.bin.procs[t].pc;
    if pc.DownTake? || pc.UpSet? {
      assert a'.pcs == a.pcs[t := After(s.pcs[t])];
      assert C.Step(a, a', t);
    } else {
      assert a'.pcs == a.pcs;
    }
  }

  lemma LocalRefines(s: State, s': State, t: nat)
    requires Shape(s) && t < |s.pcs| && Local(s, s', t)
    ensures C.Step(Abstract(s), Abstract(s'), t)
  {
    assert Abstract(s').pcs == Abstract(s).pcs[t := s'.pcs[t]];
  }

  /** Every step of the stack keeps the invariant, and is a step of the abstract machine or none. */
  lemma StepRefines(s: State, s': State, v0: seq<int>, t: nat)
    requires Inv(s, v0) && Step(s, s', t)
    ensures Inv(s', v0)
    ensures Abstract(s') == Abstract(s) || C.Step(Abstract(s), Abstract(s'), t)
  {
    hide B.Inv;
    if Local(s, s', t) {
      LocalRefines(s, s', t);
    } else {
      BinStep(s, s', t);
      B.StepSafe(s.bin, s'.bin, v0, t);
      BinShape(s'.bin, v0);
      if Inside(s, s', t) {
        InsideRefines(s, s', v0, t);
      } else {
        assert Abstract(s').pcs == Abstract(s).pcs;
      }
    }
  }

  lemma BinStep(s: State, s': State, t: nat)
    requires Step(s, s', t) && !Local(s, s', t)
    ensures B.Step(s.bin, s'.bin, t)
  {
  }

  lemma BinShape(b: B.State, v0: seq<int>)
    requires B.Inv(b, v0)
    ensures B.Shape(b)
  {
  }

  /** Some run of the construction on atomic semaphores ends in a. */
  ghost predicate Reached(a: C.State, initial: int) {
    exists run :: C.Run(run, initial) && run[|run| - 1] == a
  }

  lemma ReachedNext(a: C.State, a': C.State, initial: int, t: nat)
    requires Reached(a, initial) && (a' == a || C.Step(a, a', t))
    ensures Reached(a', initial)
  {
    hide C.Step;
    hide C.Created;
    if a' != a {
      var run :| C.Run(run, initial) && run[|run| - 1] == a;
      var run' := run + [a'];
      forall i | 0 <= i < |run'| - 1
        ensures C.Next(run'[i], run'[i + 1])
      {
        if i < |run| - 1 { assert C.Next(run[i], run[i + 1]); }
      }
      assert C.Run(run', initial) && run'[|run'| - 1] == a';
    }
  }

  lemma ReachedCreated(a: C.State, initial: int)
    requires C.Created(a, initial)
    ensures Reached(a, initial)
  {
    assert C.Run([a], initial);
  }

  lemma InvShape(s: State, v0: seq<int>)
    requires Inv(s, v0)
    ensures Shape(s)
  {
  }

  /**
   * For any number of threads, every state of every run of the stack is one that the construction on
   * atomic semaphores reaches too, so all that is proved of those holds of it: the value is the
   * ledger's and never negative, one thread holds s1, and no up on s2 is lost.
   */
  lemma {:induction false} RunRefines(run: seq<State>, initial: int, i: nat)
    requires Run(run, initial) && i < |run|
    ensures Inv(run[i], B.Values(run[0].bin)) && Reached(Abstract(run[i]), initial)
  {
    hide Step;
    hide Inv;
    hide Created;
    hide Reached;
    hide C.Step;
    if i == 0 {
      CreatedOk(run[0], initial);
      InvShape(run[0], B.Values(run[0].bin));
      ReachedCreated(Abstract(run[0]), initial);
    } else {
      var s, s', v0 := run[i - 1], run[i], B.Values(run[0].bin);
      RunRefines(run, initial, i - 1);
      assert Next(s, s');
      var t: nat :| Step(s, s', t);
      StepRefines(s, s', v0, t);
      InvShape(s, v0);
      InvShape(s', v0);
      ReachedNext(Abstract(s), Abstract(s'), initial, t);
    }
  }

  /** The ledger and the exclusion, for the semaphore as it really runs. */
  lemma StackSafe(run: seq<State>, initial: int, i: nat)
    requires Run(run, initial) && initial >= 0 && i < |run|
    ensures run[i].value == initial + run[i].incs - run[i].decs >= 0
    ensures |run[i].bin.sems| == 2 && |run[i].bin.procs| == |run[i].pcs| && C.Safe(Abstract(run[i]), initial)
  {
    hide C.Created;
    hide C.Next;
    RunRefines(run, initial, i);
    var abs :| C.Run(abs, initial) && abs[|abs| - 1] == Abstract(run[i]);
    C.RunSafe(abs, initial, |abs| - 1);
    C.Accounted(Abstract(run[i]), initial);
  }
}
