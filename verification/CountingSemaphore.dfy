/**
 * The counting semaphore made of two binary ones: s1 guards value, s2 is a gate that is open
 * only while value is positive. Any number of threads run down and up; every binary operation,
 * every load and every store is a step of its own, in any interleaving.
 */
module CountingSemaphore {
  import opened Common
  import opened Semaphores
  import opened Counting
  import BinarySemaphore

  /** Where a thread stands: the name is the action it does next. */
  datatype Pc =
    | Idle
    | DownGate | DownMutex | DownLoad | DownStore(r: int) | DownTest | DownOpen | DownRelease
    | UpMutex | UpLoad | UpStore(r: int) | UpTest | UpOpen | UpRelease

  /** incs and decs count the stores made by up and by down. */
  datatype State = State(value: int, s1: int, s2: int, incs: nat, decs: nat, pcs: seq<Pc>)

  /** What semaphore_create leaves, with any number of threads about to use it. */
  ghost predicate Created(s: State, initial: int) {
    && s.value == initial && s.s1 == 1
    && s.s2 == (if initial < 1 then initial else 1)
    && s.incs == 0 && s.decs == 0
    && forall t :: 0 <= t < |s.pcs| ==> s.pcs[t] == Idle
  }

  /** Thread t moves to pc, and nothing else happens. */
  function Move(s: State, t: nat, pc: Pc): State
    requires t < |s.pcs|
  {
    s.(pcs := s.pcs[t := pc])
  }

  ghost predicate DownStep(s: State, s': State, t: nat)
    requires t < |s.pcs|
  {
    match s.pcs[t]
    case Idle => s' == Move(s, t, DownGate)
    case DownGate => BinaryDown(s.s2, s'.s2) && s' == Move(s, t, DownMutex).(s2 := s'.s2)
    case DownMutex => BinaryDown(s.s1, s'.s1) && s' == Move(s, t, DownLoad).(s1 := s'.s1)
    case DownLoad => s' == Move(s, t, DownStore(s.value))
    case DownStore(r) => s' == Move(s, t, DownTest).(value := r - 1, decs := s.decs + 1)
    case DownTest => s' == Move(s, t, if s.value > 0 then DownOpen else DownRelease)
    case DownOpen => BinaryUp(s.s2, s'.s2) && s' == Move(s, t, DownRelease).(s2 := s'.s2)
    case DownRelease => BinaryUp(s.s1, s'.s1) && s' == Move(s, t, Idle).(s1 := s'.s1)
    case _ => false
  }

  ghost predicate UpStep(s: State, s': State, t: nat)
    requires t < |s.pcs|
  {
    match s.pcs[t]
    case Idle => s' == Move(s, t, UpMutex)
    case UpMutex => BinaryDown(s.s1, s'.s1) && s' == Move(s, t, UpLoad).(s1 := s'.s1)
    case UpLoad => s' == Move(s, t, UpStore(s.value))
    case UpStore(r) => s' == Move(s, t, UpTest).(value := r + 1, incs := s.incs + 1)
    case UpTest => s' == Move(s, t, if s.value == 1 then UpOpen else UpRelease)
    case UpOpen => BinaryUp(s.s2, s'.s2) && s' == Move(s, t, UpRelease).(s2 := s'.s2)
    case UpRelease => BinaryUp(s.s1, s'.s1) && s' == Move(s, t, Idle).(s1 := s'.s1)
    case _ => false
  }

  ghost predicate Step(s: State, s': State, t: nat) {
    t < |s.pcs| && (DownStep(s, s', t) || UpStep(s, s', t))
  }

  ghost predicate Next(s: State, s': State) {
    exists t: nat :: Step(s, s', t)
  }

  /** A run of a semaphore created with the given initial value. */
  ghost predicate Run(run: seq<State>, initial: int) {
    && |run| > 0 && Created(run[0], initial)
    && forall i :: 0 <= i < |run| - 1 ==> Next(run[i], run[i + 1])
  }

  /** The thread holds s1. */
  predicate InMutex(pc: Pc) {
    pc.DownLoad? || pc.DownStore? || pc.DownTest? || pc.DownOpen? || pc.DownRelease? ||
    pc.UpLoad? || pc.UpStore? || pc.UpTest? || pc.UpOpen? || pc.UpRelease?
  }

  /** The thread is past the gate and has not yet taken its unit off value. */
  predicate InGate(pc: Pc) {
    pc.DownMutex? || pc.DownLoad? || pc.DownStore?
  }

  /** The thread holds s1 and is going to open the gate. */
  predicate Opening(pc: Pc, value: int) {
    (pc.DownTest? && value > 0) || pc.DownOpen? || (pc.UpTest? && value == 1) || pc.UpOpen?
  }

  /** Thread m, or nobody if m is -1, holds s1; thread g, or nobody, is past the gate. */
  ghost predicate Owners(s: State, m: int, g: int) {
    && -1 <= m < |s.pcs| && -1 <= g < |s.pcs|
    && (forall t :: 0 <= t < |s.pcs| ==> (InMutex(s.pcs[t]) <==> t == m))
    && (forall t :: 0 <= t < |s.pcs| ==> (InGate(s.pcs[t]) <==> t == g))
  }

  /** What a thread inside s1 has loaded or tested is still so. */
  ghost predicate Fresh(pc: Pc, value: int) {
    && (pc.DownStore? || pc.UpStore? ==> pc.r == value)
    && (pc.DownOpen? || pc.UpTest? ==> value > 0)
    && (pc.UpOpen? ==> value == 1)
  }

  /**
   * The ledger is exact, and a positive value is matched by exactly one token: the open gate,
   * a thread past it, or a thread holding s1 that will open it.
   */
  ghost predicate Inv(s: State, initial: int, m: int, g: int) {
    && Owners(s, m, g)
    && s.s1 == Bit(m < 0) && 0 <= s.s2 <= 1
    && s.value == initial + s.incs - s.decs && s.value >= 0
    && s.s2 + Bit(g >= 0) + Bit(m >= 0 && Opening(s.pcs[m], s.value)) == Bit(s.value > 0)
    && (m >= 0 ==> Fresh(s.pcs[m], s.value))
  }

  ghost predicate Safe(s: State, initial: int) {
    exists m, g :: Inv(s, initial, m, g)
  }

  lemma CreateSafe(s: State, initial: int)
    requires Created(s, initial)
    ensures Safe(s, initial) <==> initial >= 0
  {
    if initial >= 0 {
      assert Inv(s, initial, -1, -1);
    }
  }

  lemma OwnersStep(s: State, s': State, m: int, g: int, t: nat)
    requires Owners(s, m, g) && t < |s.pcs| && |s'.pcs| == |s.pcs| && s'.pcs == s.pcs[t := s'.pcs[t]]
    requires InMutex(s'.pcs[t]) ==> m < 0 || m == t
    requires InGate(s'.pcs[t]) ==> g < 0 || g == t
    ensures Owners(s', Owner(m, t, InMutex(s'.pcs[t])), Owner(g, t, InGate(s'.pcs[t])))
  {
  }

  lemma DownSafe(s: State, s': State, initial: int, m: int, g: int, t: nat)
    requires Inv(s, initial, m, g) && t < |s.pcs| && DownStep(s, s', t)
    ensures Safe(s', initial)
  {
    OwnersStep(s, s', m, g, t);
    assert Inv(s', initial, Owner(m, t, InMutex(s'.pcs[t])), Owner(g, t, InGate(s'.pcs[t])));
  }

  lemma UpSafe(s: State, s': State, initial: int, m: int, g: int, t: nat)
    requires Inv(s, initial, m, g) && t < |s.pcs| && UpStep(s, s', t)
    ensures Safe(s', initial)
  {
    OwnersStep(s, s', m, g, t);
    assert Inv(s', initial, Owner(m, t, InMutex(s'.pcs[t])), Owner(g, t, InGate(s'.pcs[t])));
  }

  /** In every state of every run, for any number of threads. */
  lemma {:induction false} RunSafe(run: seq<State>, initial: int, i: nat)
    requires Run(run, initial) && initial >= 0 && i < |run|
    ensures Safe(run[i], initial)
  {
    if i == 0 {
      CreateSafe(run[0], initial);
    } else {
      RunSafe(run, initial, i - 1);
      var m, g :| Inv(run[i - 1], initial, m, g);
      assert Next(run[i - 1], run[i]);
      var t: nat :| Step(run[i - 1], run[i], t);
      if DownStep(run[i - 1], run[i], t) {
        DownSafe(run[i - 1], run[i], initial, m, g, t);
      } else {
        UpSafe(run[i - 1], run[i], initial, m, g, t);
      }
    }
  }

  /** The thread is the only one past the gate that has not yet taken its unit. */
  ghost predicate OnlyInGate(s: State, t: int) {
    0 <= t < |s.pcs| && forall u :: 0 <= u < |s.pcs| ==> (InGate(s.pcs[u]) <==> u == t)
  }

  ghost predicate NobodyInGate(s: State) {
    forall u :: 0 <= u < |s.pcs| ==> !InGate(s.pcs[u])
  }

  /**
   * What a run promises: the ledger, no negative value, one holder of s1, and, whenever s1 is
   * free, a positive value exactly when the gate is open or just one thread is past it, never
   * both. So no up on the gate is lost and none is doubled.
   */
  lemma Accounted(s: State, initial: int)
    requires Safe(s, initial)
    ensures s.value == initial + s.incs - s.decs >= 0
    ensures forall t, u :: 0 <= t < |s.pcs| && 0 <= u < |s.pcs| && InMutex(s.pcs[t]) && InMutex(s.pcs[u]) ==> t == u
    ensures s.s1 == 0 <==> exists t :: 0 <= t < |s.pcs| && InMutex(s.pcs[t])
    ensures s.s1 == 1 && s.value > 0 ==> (s.s2 == 1 && NobodyInGate(s)) || (s.s2 == 0 && exists t :: OnlyInGate(s, t))
    ensures s.s1 == 1 && s.value == 0 ==> s.s2 == 0 && NobodyInGate(s)
  {
    var m, g :| Inv(s, initial, m, g);
    if g >= 0 {
      assert OnlyInGate(s, g);
    }
    if m >= 0 {
      assert InMutex(s.pcs[m]);
    }
  }

  /**
   * The construction is a counting semaphore: value moves only when a thread's down takes one
   * from a positive value or a thread's up adds one, atomically.
   */
  lemma Refines(s: State, s': State, initial: int, t: nat)
    requires Safe(s, initial) && Step(s, s', t)
    ensures
      if s.pcs[t].DownStore? then Down(s.value, s'.value)
      else if s.pcs[t].UpStore? then Up(s.value, s'.value)
      else s'.value == s.value
  {
    var m, g :| Inv(s, initial, m, g);
    assert InMutex(s.pcs[t]) ==> t == m;
    assert InGate(s.pcs[t]) ==> t == g;
  }

  ghost predicate CanStep(s: State, t: nat) { exists s' :: Step(s, s', t) }

  /** A thread that can not go on waits for the gate or for s1. */
  lemma Steps(s: State, t: nat)
    requires t < |s.pcs| && !CanStep(s, t)
    ensures (s.pcs[t].DownGate? && s.s2 == 0) || ((s.pcs[t].DownMutex? || s.pcs[t].UpMutex?) && s.s1 == 0)
  {
    var s' := match s.pcs[t]
      case Idle => Move(s, t, DownGate)
      case DownGate => Move(s, t, DownMutex).(s2 := 0)
      case DownMutex => Move(s, t, DownLoad).(s1 := 0)
      case DownLoad => Move(s, t, DownStore(s.value))
      case DownStore(r) => Move(s, t, DownTest).(value := r - 1, decs := s.decs + 1)
      case DownTest => Move(s, t, if s.value > 0 then DownOpen else DownRelease)
      case DownOpen => Move(s, t, DownRelease).(s2 := 1)
      case DownRelease => Move(s, t, Idle).(s1 := 1)
      case UpMutex => Move(s, t, UpLoad).(s1 := 0)
      case UpLoad => Move(s, t, UpStore(s.value))
      case UpStore(r) => Move(s, t, UpTest).(value := r + 1, incs := s.incs + 1)
      case UpTest => Move(s, t, if s.value == 1 then UpOpen else UpRelease)
      case UpOpen => Move(s, t, UpRelease).(s2 := 1)
      case UpRelease => Move(s, t, Idle).(s1 := 1);
    assert !Step(s, s', t);
  }

  /** No deadlock: if nobody can go on, everybody is at the beginning of a down and the value is 0. */
  lemma NoDeadlock(s: State, initial: int)
    requires Safe(s, initial) && |s.pcs| > 0 && forall t :: 0 <= t < |s.pcs| ==> !CanStep(s, t)
    ensures s.value == 0 && forall t :: 0 <= t < |s.pcs| ==> s.pcs[t].DownGate?
  {
    hide CanStep;
    var m, g :| Inv(s, initial, m, g);
    assert g >= 0 ==> InGate(s.pcs[g]);
    forall t | 0 <= t < |s.pcs|
      ensures (s.pcs[t].DownGate? && s.s2 == 0) || ((s.pcs[t].DownMutex? || s.pcs[t].UpMutex?) && s.s1 == 0)
    {
      Steps(s, t);
    }
    assert m < 0;
    assert s.pcs[0].DownGate?;
  }

  /**
   * A negative initial value breaks it for good: the gate is created open, so a thread gets
   * past it and takes a unit that is not there.
   */
  lemma NegativeStart(initial: int) returns (run: seq<State>)
    requires initial < 0
    ensures Run(run, initial) && |run| == 6 && run[5].decs == 1 && run[5].value == initial - 1
  {
    var s0 := State(initial, 1, initial, 0, 0, [Idle]);
    var s1 := s0.(pcs := [DownGate]);
    var s2 := s1.(pcs := [DownMutex], s2 := 0);
    var s3 := s2.(pcs := [DownLoad], s1 := 0);
    var s4 := s3.(pcs := [DownStore(initial)]);
    var s5 := s4.(pcs := [DownTest], value := initial - 1, decs := 1);
    run := [s0, s1, s2, s3, s4, s5];
    assert Step(s0, s1, 0) && Step(s1, s2, 0) && Step(s2, s3, 0) && Step(s3, s4, 0) && Step(s4, s5, 0);
    assert Next(s0, s1) && Next(s1, s2) && Next(s2, s3) && Next(s3, s4) && Next(s4, s5);
  }

  /** The identifiers of a semaphore's two binary ones, and its value. */
  datatype Semaphore = Semaphore(s1: int, s2: int, value: int)

  /** The count of free entries of the table of binary semaphores. */
  ghost function Free(sems: seq<BinarySemaphore.Sem>): nat {
    |set id | 0 <= id < |sems| && !sems[id].created|
  }

  lemma FreeStep(sems: seq<BinarySemaphore.Sem>, id: nat, v: int)
    requires id < |sems| && !sems[id].created
    ensures Free(sems[id := sems[id].(created := true, value := v)]) == Free(sems) - 1
  {
    var sems' := sems[id := sems[id].(created := true, value := v)];
    assert (set k | 0 <= k < |sems'| && !sems'[k].created) == (set k | 0 <= k < |sems| && !sems[k].created) - {id};
  }

  lemma FreeNone(sems: seq<BinarySemaphore.Sem>)
    ensures Free(sems) == 0 <==> forall id :: 0 <= id < |sems| ==> sems[id].created
  {
    var free := set id | 0 <= id < |sems| && !sems[id].created;
    if free == {} {
      forall id | 0 <= id < |sems| ensures sems[id].created {
        assert id !in free;
      }
    } else {
      var id :| id in free;
    }
  }

  /**
   * Succeeds exactly when two entries are free, and then leaves a mutex at 1 and a gate that is
   * open for a positive initial value. When only one is free it is spent for nothing.
   */
  method Create(table: BinarySemaphore.SemTable, initial: int) returns (r: Option<Semaphore>)
    requires |table.sems| == BinarySemaphore.SEMAPHORES
    modifies table
    ensures |table.sems| == BinarySemaphore.SEMAPHORES
    ensures r.Some? <==> Free(old(table.sems)) >= 2
    ensures r.Some? ==>
      && r.value.value == initial
      && 0 <= r.value.s1 < |table.sems| && 0 <= r.value.s2 < |table.sems| && r.value.s1 != r.value.s2
      && !old(table.sems)[r.value.s1].created && !old(table.sems)[r.value.s2].created
      && table.sems[r.value.s1].created && table.sems[r.value.s2].created
      && table.sems[r.value.s1].value == 1 && table.sems[r.value.s2].value == (if initial < 1 then initial else 1)
      && forall k :: 0 <= k < |table.sems| && k != r.value.s1 && k != r.value.s2 ==> table.sems[k] == old(table.sems)[k]
    ensures r.None? ==> Free(table.sems) == 0
  {
    var min := 1;
    FreeNone(table.sems);
    var s1 := table.Create(1);
    if s1 != -1 {
      FreeStep(old(table.sems), s1, 1);
      FreeNone(table.sems);
      if initial < 1 {
        min := initial;
      }
      var s2 := table.Create(min);
      if s2 != -1 {
        return Some(Semaphore(s1, s2, initial));
      }
    }
    return None;
  }
}
