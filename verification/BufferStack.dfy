/**
 * The bounded buffer run on counting semaphores as they are made: a thread that calls down or up on
 * empty or full goes through all the steps of the construction. Every run of it is a run of the
 * buffer on atomic counting semaphores.
 */
module BufferStack {
  import opened Semaphores
  import C = CountingSemaphore
  import Q = BoundedBuffer

  /** The ring, whose empty and full are the values of the two semaphores, and the semaphores themselves. */
  datatype State = State(ring: Q.State, empty: C.State, full: C.State)

  /** The thread's next action is a down or an up on empty; or one on full. */
  predicate CallsEmpty(pc: Q.Pc) { pc.PutEmpty? || pc.PopEmpty? }

  predicate CallsFull(pc: Q.Pc) { pc.PutFull? || pc.PopFull? }

  predicate IsDown(pc: Q.Pc) { pc.PutEmpty? || pc.PopFull? }

  function After(pc: Q.Pc): Q.Pc {
    match pc
    case PutEmpty(x) => Q.PutMutex(x)
    case PutFull => Q.Idle
    case PopFull => Q.PopMutex
    case PopEmpty(x) => Q.Idle
    case _ => pc
  }

  ghost predicate Shape(s: State) {
    && |s.empty.pcs| == |s.full.pcs| == |s.ring.pcs|
    && s.ring.empty == s.empty.value && s.ring.full == s.full.value
  }

  ghost predicate Created(s: State) {
    Shape(s) && Q.Init(s.ring) && C.Created(s.empty, s.ring.size) && C.Created(s.full, 0)
  }

  function Entry(pc: Q.Pc): C.Pc { if IsDown(pc) then C.DownGate else C.UpMutex }

  /** The thread calls down or up on a semaphore, c before and c' after. */
  ghost predicate Begin(pc: Q.Pc, c: C.State, c': C.State, t: nat)
    requires t < |c.pcs|
  {
    c.pcs[t].Idle? && c' == C.Move(c, t, Entry(pc))
  }

  /** A step inside the call. */
  ghost predicate Inside(c: C.State, c': C.State, t: nat)
    requires t < |c.pcs|
  {
    !c.pcs[t].Idle? && C.Step(c, c', t)
  }

  /** The ring's state when thread t, calling, takes c to c': its last step returns. */
  function Resumed(r: Q.State, c: C.State, c': C.State, t: nat): Q.State
    requires t < |r.pcs| && t < |c.pcs| && t < |c'.pcs|
  {
    if !c.pcs[t].Idle? && c'.pcs[t].Idle? then Q.Move(r, t, After(r.pcs[t])) else r
  }

  ghost predicate EmptyStep(s: State, s': State, t: nat)
    requires Shape(s) && t < |s.ring.pcs|
  {
    && CallsEmpty(s.ring.pcs[t]) && |s'.empty.pcs| == |s.empty.pcs|
    && (Begin(s.ring.pcs[t], s.empty, s'.empty, t) || Inside(s.empty, s'.empty, t))
    && s' == s.(empty := s'.empty, ring := Resumed(s.ring, s.empty, s'.empty, t).(empty := s'.empty.value))
  }

  ghost predicate FullStep(s: State, s': State, t: nat)
    requires Shape(s) && t < |s.ring.pcs|
  {
    && CallsFull(s.ring.pcs[t]) && |s'.full.pcs| == |s.full.pcs|
    && (Begin(s.ring.pcs[t], s.full, s'.full, t) || Inside(s.full, s'.full, t))
    && s' == s.(full := s'.full, ring := Resumed(s.ring, s.full, s'.full, t).(full := s'.full.value))
  }

  /** A step of the thread's own, or on the mutex. */
  ghost predicate Local(s: State, s': State, t: nat)
    requires Shape(s) && t < |s.ring.pcs|
  {
    && !CallsEmpty(s.ring.pcs[t]) && !CallsFull(s.ring.pcs[t])
    && Q.Step(s.ring, s'.ring, t) && s' == s.(ring := s'.ring)
  }

  ghost predicate Step(s: State, s': State, t: nat) {
    Shape(s) && t < |s.ring.pcs| && (EmptyStep(s, s', t) || FullStep(s, s', t) || Local(s, s', t))
  }

  ghost predicate Next(s: State, s': State) {
    exists t: nat :: Step(s, s', t)
  }

  ghost predicate Run(run: seq<State>) {
    && |run| > 0 && Created(run[0])
    && forall i :: 0 <= i < |run| - 1 ==> Next(run[i], run[i + 1])
  }

  predicate InDown(pc: C.Pc) {
    pc.DownGate? || pc.DownMutex? || pc.DownLoad? || pc.DownStore? || pc.DownTest? || pc.DownOpen? || pc.DownRelease?
  }

  /** The value has been changed; what is left is to open the gate, leave the mutex and return. */
  predicate Over(pc: C.Pc) {
    pc.DownTest? || pc.DownOpen? || pc.DownRelease? || pc.UpTest? || pc.UpOpen? || pc.UpRelease?
  }

  function Shown(pc: Q.Pc, e: C.Pc, f: C.Pc): Q.Pc { if Over(e) || Over(f) then After(pc) else pc }

  /** The same state with atomic counting semaphores. */
  function Abstract(s: State): Q.State
    requires |s.empty.pcs| == |s.full.pcs| == |s.ring.pcs|
  {
    s.ring.(pcs := seq(|s.ring.pcs|, t requires 0 <= t < |s.ring.pcs| =>
      Shown(s.ring.pcs[t], s.empty.pcs[t], s.full.pcs[t])))
  }

  /** The thread is inside the semaphore that its next action asks for, and no other. */
  ghost predicate Matches(pc: Q.Pc, e: C.Pc, f: C.Pc) {
    && (!e.Idle? ==> CallsEmpty(pc) && (InDown(e) <==> IsDown(pc)))
    && (!f.Idle? ==> CallsFull(pc) && (InDown(f) <==> IsDown(pc)))
  }

  ghost predicate Inv(s: State) {
    && Shape(s) && C.Safe(s.empty, s.ring.size) && C.Safe(s.full, 0)
    && forall t :: 0 <= t < |s.ring.pcs| ==> Matches(s.ring.pcs[t], s.empty.pcs[t], s.full.pcs[t])
  }

  lemma CreatedOk(s: State)
    requires Created(s)
    ensures Inv(s) && Q.Init(Abstract(s))
  {
    C.CreateSafe(s.empty, s.ring.size);
    C.CreateSafe(s.full, 0);
    assert Abstract(s) == s.ring;
  }

  lemma SemSafe(c: C.State, c': C.State, initial: int, t: nat)
    requires C.Safe(c, initial) && C.Step(c, c', t)
    ensures C.Safe(c', initial)
  {
    var m, g :| C.Inv(c, initial, m, g);
    if C.DownStep(c, c', t) {
      C.DownSafe(c, c', initial, m, g, t);
    } else {
      C.UpSafe(c, c', initial, m, g, t);
    }
  }

  /** What a step of a call does: where it goes on, and that only its store changes the value. */
  lemma CallStep(pc: Q.Pc, c: C.State, c': C.State, initial: int, t: nat)
    requires C.Safe(c, initial) && t < |c.pcs| && (Begin(pc, c, c', t) || Inside(c, c', t))
    requires !c.pcs[t].Idle? ==> (InDown(c.pcs[t]) <==> IsDown(pc))
    ensures C.Safe(c', initial) && c'.pcs == c.pcs[t := c'.pcs[t]] && |c'.pcs| == |c.pcs|
    ensures !c'.pcs[t].Idle? ==> (InDown(c'.pcs[t]) <==> IsDown(pc))
    ensures
      var works := c.pcs[t].DownStore? || c.pcs[t].UpStore?;
      && (works ==> Over(c'.pcs[t]) && !Over(c.pcs[t]))
      && (works ==> if IsDown(pc) then Down(c.value, c'.value) else Up(c.value, c'.value))
      && (!works ==> c'.value == c.value)
      && (!works ==> (Over(c.pcs[t]) <==> Over(c'.pcs[t]) || (!c.pcs[t].Idle? && c'.pcs[t].Idle?)))
  {
    assert C.Step(c, c', t);
    SemSafe(c, c', initial, t);
    C.Refines(c, c', initial, t);
  }

  lemma EmptyRefines(s: State, s': State, t: nat)
    requires Inv(s) && t < |s.ring.pcs| && EmptyStep(s, s', t)
    ensures Inv(s') && (Abstract(s') == Abstract(s) || Q.Step(Abstract(s), Abstract(s'), t))
  {
    var pc, c, c' := s.ring.pcs[t], s.empty, s'.empty;
    assert Matches(pc, c.pcs[t], s.full.pcs[t]);
    CallStep(pc, c, c', s.ring.size, t);
    hide C.Safe;
    hide C.DownStep;
    hide C.UpStep;
    if c.pcs[t].DownStore? || c.pcs[t].UpStore? {
      assert Abstract(s').pcs == Abstract(s).pcs[t := After(pc)];
      assert Q.Step(Abstract(s), Abstract(s'), t);
    } else {
      assert Abstract(s').pcs == Abstract(s).pcs;
    }
  }

  lemma FullRefines(s: State, s': State, t: nat)
    requires Inv(s) && t < |s.ring.pcs| && FullStep(s, s', t)
    ensures Inv(s') && (Abstract(s') == Abstract(s) || Q.Step(Abstract(s), Abstract(s'), t))
  {
    var pc, c, c' := s.ring.pcs[t], s.full, s'.full;
    assert Matches(pc, s.empty.pcs[t], c.pcs[t]);
    CallStep(pc, c, c', 0, t);
    hide C.Safe;
    if c.pcs[t].DownStore? || c.pcs[t].UpStore? {
      assert Abstract(s').pcs == Abstract(s).pcs[t := After(pc)];
      assert Q.Step(Abstract(s), Abstract(s'), t);
    } else {
      assert Abstract(s').pcs == Abstract(s).pcs;
    }
  }

  lemma LocalRefines(s: State, s': State, t: nat)
    requires Inv(s) && t < |s.ring.pcs| && Local(s, s', t)
    ensures Inv(s') && Q.Step(Abstract(s), Abstract(s'), t)
  {
    assert Matches(s.ring.pcs[t], s.empty.pcs[t], s.full.pcs[t]);
    LocalKeeps(s.ring, s'.ring, t);
    assert Abstract(s').pcs == Abstract(s).pcs[t := s'.ring.pcs[t]];
    LocalShown(s.ring, s'.ring, Abstract(s).pcs, t);
  }

  lemma LocalKeeps(r: Q.State, r': Q.State, t: nat)
    requires Q.Step(r, r', t) && !CallsEmpty(r.pcs[t]) && !CallsFull(r.pcs[t])
    ensures r'.empty == r.empty && r'.full == r.full && r'.size == r.size && r'.pcs == r.pcs[t := r'.pcs[t]]
    ensures |r'.pcs| == |r.pcs|
  {
  }

  /** Where the other threads stand makes no difference. */
  lemma LocalShown(r: Q.State, r': Q.State, pcs: seq<Q.Pc>, t: nat)
    requires Q.Step(r, r', t) && |pcs| == |r.pcs| == |r'.pcs| && pcs[t] == r.pcs[t]
    ensures Q.Step(r.(pcs := pcs), r'.(pcs := pcs[t := r'.pcs[t]]), t)
  {
    var q, q' := r.(pcs := pcs), r'.(pcs := pcs[t := r'.pcs[t]]);
    if Q.PutStep(r, r', t) {
      if r.pcs[t].Idle? {
        assert q' == Q.Move(q, t, Q.PutEmpty(r'.pcs[t].x));
      }
      assert Q.PutStep(q, q', t);
    } else {
      assert Q.PopStep(q, q', t);
    }
  }

  lemma StepRefines(s: State, s': State, t: nat)
    requires Inv(s) && Step(s, s', t)
    ensures Inv(s') && (Abstract(s') == Abstract(s) || Q.Step(Abstract(s), Abstract(s'), t))
  {
    hide Inv;
    if Local(s, s', t) {
      LocalRefines(s, s', t);
    } else if EmptyStep(s, s', t) {
      EmptyRefines(s, s', t);
    } else {
      FullRefines(s, s', t);
    }
  }

  /** Some run of the buffer on atomic semaphores ends in a. */
  ghost predicate Reached(a: Q.State) {
    exists run :: Q.Run(run) && run[|run| - 1] == a
  }

  lemma ReachedNext(a: Q.State, a': Q.State, t: nat)
    requires Reached(a) && (a' == a || Q.Step(a, a', t))
    ensures Reached(a')
  {
    hide Q.Step;
    hide Q.Init;
    if a' != a {
      var run :| Q.Run(run) && run[|run| - 1] == a;
      var run' := run + [a'];
      forall i | 0 <= i < |run'| - 1
        ensures Q.Next(run'[i], run'[i + 1])
      {
        if i < |run| - 1 { assert Q.Next(run[i], run[i + 1]); }
      }
      assert Q.Run(run') && run'[|run'| - 1] == a';
    }
  }

  lemma ReachedInit(a: Q.State)
    requires Q.Init(a)
    ensures Reached(a)
  {
    assert Q.Run([a]);
  }

  lemma InvShape(s: State)
    requires Inv(s)
    ensures Shape(s)
  {
  }

  /** For any capacity and any number of threads: what the stack reaches, the buffer on atomic semaphores reaches. */
  lemma {:induction false} RunRefines(run: seq<State>, i: nat)
    requires Run(run) && i < |run|
    ensures Inv(run[i]) && Reached(Abstract(run[i]))
  {
    hide Step;
    hide Inv;
    hide Created;
    hide Q.Init;
    hide Q.Step;
    hide Reached;
    if i == 0 {
      CreatedOk(run[0]);
      InvShape(run[0]);
      ReachedInit(Abstract(run[0]));
    } else {
      var s, s' := run[i - 1], run[i];
      RunRefines(run, i - 1);
      assert Next(s, s');
      var t: nat :| Step(s, s', t);
      StepRefines(s, s', t);
      InvShape(s);
      InvShape(s');
      ReachedNext(Abstract(s), Abstract(s'), t);
    }
  }

  /** Items come out in the order they went in, no more wait than there are slots, and each waits in its slot. */
  lemma StackCorrect(run: seq<State>, i: nat)
    requires Run(run) && i < |run|
    ensures
      var r := run[i].ring;
      && r.pops <= r.puts && |r.puts| - |r.pops| <= r.size
      && forall k: nat :: |r.pops| <= k < |r.puts| ==>
        r.size > 0 && Q.Slot(k, r.size) < |r.elements| && r.elements[Q.Slot(k, r.size)] == r.puts[k]
  {
    hide Q.Init;
    hide Q.Next;
    RunRefines(run, i);
    var abs :| Q.Run(abs) && abs[|abs| - 1] == Abstract(run[i]);
    Q.RunSafe(abs, |abs| - 1);
    hide Q.Safe;
    Q.Correct(Abstract(run[i]), 0);
  }

  lemma StepCarries(s: State, s': State, t: nat, u: nat)
    requires Step(s, s', t) && u < |s.ring.pcs|
    ensures |s'.ring.pcs| == |s.ring.pcs| && Q.Carries(s.ring.pcs[u], s'.ring.pcs[u], u == t)
  {
    if Local(s, s', t) {
      hide Q.Step;
      Q.StepCarries(s.ring, s'.ring, t, u);
    }
  }

  lemma StepMoves(s: State, s': State, t: nat)
    requires Step(s, s', t)
    ensures |s'.ring.pcs| == |s.ring.pcs|
  {
    if Local(s, s', t) {
      hide Q.Step;
      Q.StepMoves(s.ring, s'.ring, t);
    }
  }

  /** A load takes the oldest item off the queue, and a store puts its item at the end. */
  lemma Takes(s: State, s': State, t: nat)
    requires Inv(s) && Reached(Abstract(s)) && Step(s, s', t) && |s'.ring.pcs| == |s.ring.pcs|
    requires s.ring.pcs[t].PopRead? || s.ring.pcs[t].PutWrite?
    ensures |s.ring.pops| <= |s.ring.puts| && |s'.ring.pops| <= |s'.ring.puts|
    ensures s.ring.pcs[t].PopRead? ==>
      s'.ring.pcs[t].PopClear? && Q.Pop(Q.Queue(s.ring), Q.Queue(s'.ring), s'.ring.pcs[t].x)
    ensures s.ring.pcs[t].PutWrite? ==>
      Q.Put(Q.Queue(s.ring), Q.Queue(s'.ring), s.ring.size, s.ring.pcs[t].x)
  {
    hide Q.Safe;
    hide Q.Step;
    LocalRefines(s, s', t);
    var abs :| Q.Run(abs) && abs[|abs| - 1] == Abstract(s);
    Q.RunSafe(abs, |abs| - 1);
    hide Q.Run;
    assert Matches(s.ring.pcs[t], s.empty.pcs[t], s.full.pcs[t]);
    Q.Refines(Abstract(s), Abstract(s'), t);
  }

  /** What a pop returns is what its own load took off the queue. */
  lemma {:induction false} Returned(run: seq<State>, t: nat, j: nat) returns (i: nat)
    requires Run(run) && j < |run| && t < |run[j].ring.pcs| && Q.Loaded(run[j].ring.pcs[t])
    ensures i < j && Step(run[i], run[i + 1], t) && run[i].ring.pcs[t].PopRead?
    ensures |run[i].ring.pops| <= |run[i].ring.puts| && |run[i + 1].ring.pops| <= |run[i + 1].ring.puts|
    ensures Q.Pop(Q.Queue(run[i].ring), Q.Queue(run[i + 1].ring), run[j].ring.pcs[t].x)
    ensures forall k | i < k <= j :: t < |run[k].ring.pcs| && Q.Loaded(run[k].ring.pcs[t])
  {
    hide Step;
    hide Q.Queue;
    hide Inv;
    hide Reached;
    assert j > 0;
    var s, s' := run[j - 1], run[j];
    assert Next(s, s');
    var u: nat :| Step(s, s', u);
    StepMoves(s, s', u);
    StepCarries(s, s', u, t);
    if Q.Loaded(s.ring.pcs[t]) {
      i := Returned(run, t, j - 1);
    } else {
      i := j - 1;
      RunRefines(run, i);
      InvShape(s);
      Takes(s, s', t);
    }
  }

  /** What a put stores is what its caller passed. */
  lemma {:induction false} Offered(run: seq<State>, t: nat, j: nat) returns (i: nat)
    requires Run(run) && j < |run| && t < |run[j].ring.pcs| && Q.Offering(run[j].ring.pcs[t])
    ensures i < j && t < |run[i].ring.pcs| == |run[i + 1].ring.pcs| && run[i].ring.pcs[t].Idle?
    ensures run[i + 1].ring.pcs[t] == Q.PutEmpty(run[j].ring.pcs[t].x)
    ensures forall k | i < k <= j :: t < |run[k].ring.pcs| && Q.Offering(run[k].ring.pcs[t])
    ensures run[j].ring.pcs[t].PutWrite? && j + 1 < |run| && Step(run[j], run[j + 1], t) ==>
      && |run[j].ring.pops| <= |run[j].ring.puts| && |run[j + 1].ring.pops| <= |run[j + 1].ring.puts|
      && Q.Put(Q.Queue(run[j].ring), Q.Queue(run[j + 1].ring), run[j].ring.size, run[j].ring.pcs[t].x)
  {
    hide Step;
    hide Q.Queue;
    hide Inv;
    hide Reached;
    assert j > 0;
    var s, s' := run[j - 1], run[j];
    assert Next(s, s');
    var u: nat :| Step(s, s', u);
    StepMoves(s, s', u);
    StepCarries(s, s', u, t);
    if Q.Offering(s.ring.pcs[t]) {
      i := Offered(run, t, j - 1);
    } else {
      i := j - 1;
    }
    if run[j].ring.pcs[t].PutWrite? && j + 1 < |run| && Step(run[j], run[j + 1], t) {
      RunRefines(run, j);
      InvShape(s');
      StepMoves(run[j], run[j + 1], t);
      Takes(run[j], run[j + 1], t);
    }
  }
}
