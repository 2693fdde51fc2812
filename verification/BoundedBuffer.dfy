/**
 * The bounded buffer: a ring of slots, a mutex, and two counting semaphores, empty and full.
 * Any number of threads put and pop; every semaphore operation and every access to the shared
 * fields is a step of its own, in any interleaving. A slot's 0 is the null pointer.
 */
module BoundedBuffer {
  import opened Semaphores
  import opened Counting

  /** Where a thread stands: the name is the action it does next; x is the item in its hands. */
  datatype Pc =
    | Idle
    | PutEmpty(x: int) | PutMutex(x: int) | PutWrite(x: int) | PutAdvance | PutWrap | PutRelease | PutFull
    | PopFull | PopMutex | PopRead | PopClear(x: int) | PopAdvance(x: int) | PopWrap(x: int)
    | PopRelease(x: int) | PopEmpty(x: int)

  /** puts and pops record the items in the order of the stores into and the loads from the ring. */
  datatype State = State(
    size: nat, elements: seq<int>, start: int, end: int, mutex: int, empty: int, full: int,
    pcs: seq<Pc>, puts: seq<int>, pops: seq<int>)

  /** What BB_create leaves, with any number of threads about to use it. */
  ghost predicate Init(s: State) {
    && |s.elements| == s.size && (forall i :: 0 <= i < s.size ==> s.elements[i] == 0)
    && s.start == s.end == 0 && s.mutex == 1 && s.empty == s.size && s.full == 0
    && s.puts == s.pops == []
    && forall t :: 0 <= t < |s.pcs| ==> s.pcs[t] == Idle
  }

  function Move(s: State, t: nat, pc: Pc): State
    requires t < |s.pcs|
  {
    s.(pcs := s.pcs[t := pc])
  }

  /** The access is inside the array, and the remainder is defined. */
  ghost predicate Faultless(s: State, t: nat)
    requires t < |s.pcs|
  {
    match s.pcs[t]
    case PutWrite(_) => 0 <= s.end < |s.elements|
    case PopRead => 0 <= s.start < |s.elements|
    case PopClear(_) => 0 <= s.start < |s.elements|
    case PutWrap => s.size != 0
    case PopWrap(_) => s.size != 0
    case _ => true
  }

  ghost predicate PutStep(s: State, s': State, t: nat)
    requires t < |s.pcs| && Faultless(s, t)
  {
    match s.pcs[t]
    case Idle => exists x :: s' == Move(s, t, PutEmpty(x))
    case PutEmpty(x) => Down(s.empty, s'.empty) && s' == Move(s, t, PutMutex(x)).(empty := s'.empty)
    case PutMutex(x) => BinaryDown(s.mutex, s'.mutex) && s' == Move(s, t, PutWrite(x)).(mutex := s'.mutex)
    case PutWrite(x) =>
      s' == Move(s, t, PutAdvance).(elements := s.elements[s.end := x], puts := s.puts + [x])
    case PutAdvance => s' == Move(s, t, PutWrap).(end := s.end + 1)
    case PutWrap => s' == Move(s, t, PutRelease).(end := s.end % s.size)
    case PutRelease => BinaryUp(s.mutex, s'.mutex) && s' == Move(s, t, PutFull).(mutex := s'.mutex)
    case PutFull => Up(s.full, s'.full) && s' == Move(s, t, Idle).(full := s'.full)
    case _ => false
  }

  ghost predicate PopStep(s: State, s': State, t: nat)
    requires t < |s.pcs| && Faultless(s, t)
  {
    match s.pcs[t]
    case Idle => s' == Move(s, t, PopFull)
    case PopFull => Down(s.full, s'.full) && s' == Move(s, t, PopMutex).(full := s'.full)
    case PopMutex => BinaryDown(s.mutex, s'.mutex) && s' == Move(s, t, PopRead).(mutex := s'.mutex)
    case PopRead =>
      s' == Move(s, t, PopClear(s.elements[s.start])).(pops := s.pops + [s.elements[s.start]])
    case PopClear(x) => s' == Move(s, t, PopAdvance(x)).(elements := s.elements[s.start := 0])
    case PopAdvance(x) => s' == Move(s, t, PopWrap(x)).(start := s.start + 1)
    case PopWrap(x) => s' == Move(s, t, PopRelease(x)).(start := s.start % s.size)
    case PopRelease(x) => BinaryUp(s.mutex, s'.mutex) && s' == Move(s, t, PopEmpty(x)).(mutex := s'.mutex)
    case PopEmpty(x) => Up(s.empty, s'.empty) && s' == Move(s, t, Idle).(empty := s'.empty)
    case _ => false
  }

  ghost predicate Step(s: State, s': State, t: nat) {
    t < |s.pcs| && Faultless(s, t) && (PutStep(s, s', t) || PopStep(s, s', t))
  }

  ghost predicate Next(s: State, s': State) {
    exists t: nat :: Step(s, s', t)
  }

  ghost predicate Run(run: seq<State>) {
    && |run| > 0 && Init(run[0])
    && forall i :: 0 <= i < |run| - 1 ==> Next(run[i], run[i + 1])
  }

  predicate InMutex(pc: Pc) {
    pc.PutWrite? || pc.PutAdvance? || pc.PutWrap? || pc.PutRelease? ||
    pc.PopRead? || pc.PopClear? || pc.PopAdvance? || pc.PopWrap? || pc.PopRelease?
  }

  /** A put that has its free slot promised, and has not stored yet. */
  predicate Putting(pc: Pc) { pc.PutMutex? || pc.PutWrite? }

  /** A put that has stored, and has not announced it yet. */
  predicate Stored(pc: Pc) { pc.PutAdvance? || pc.PutWrap? || pc.PutRelease? || pc.PutFull? }

  /** A pop that has its item promised, and has not loaded yet. */
  predicate Popping(pc: Pc) { pc.PopMutex? || pc.PopRead? }

  /** A pop that has loaded, and has not announced the free slot yet. */
  predicate Loaded(pc: Pc) { pc.PopClear? || pc.PopAdvance? || pc.PopWrap? || pc.PopRelease? || pc.PopEmpty? }

  function Items(s: State): int { |s.puts| - |s.pops| }

  /** Every item and every free slot is counted by a semaphore or promised to a thread. */
  ghost predicate Counted(s: State) {
    && s.full >= 0 && s.empty >= 0
    && Items(s) == s.full + Count(s.pcs, Stored) + Count(s.pcs, Popping)
    && s.size - Items(s) == s.empty + Count(s.pcs, Putting) + Count(s.pcs, Loaded)
  }

  /** Thread m, or nobody if m is -1, holds the mutex. */
  ghost predicate Owned(s: State, m: int) {
    && -1 <= m < |s.pcs| && s.mutex == Bit(m < 0)
    && forall t :: 0 <= t < |s.pcs| ==> (InMutex(s.pcs[t]) <==> t == m)
  }

  /** The slot of the k-th item ever put: k, counted round the ring. */
  function Slot(k: nat, size: nat): (r: nat)
    requires size > 0
    ensures r < size
  {
    if k < size then k else Slot(k - size, size)
  }

  /** The pc of the holder of the mutex. */
  function Inside(s: State, m: int): Pc
    requires -1 <= m < |s.pcs|
  {
    if m < 0 then Idle else s.pcs[m]
  }

  /** end is the slot of the next item to be put, as far as the put inside the mutex has come. */
  ghost predicate EndOk(s: State, pc: Pc)
    requires s.size > 0
  {
    match pc
    case PutAdvance => |s.puts| > 0 && s.end == Slot(|s.puts| - 1, s.size)
    case PutWrap => |s.puts| > 0 && s.end == Slot(|s.puts| - 1, s.size) + 1
    case _ => s.end == Slot(|s.puts|, s.size)
  }

  /** start is the slot of the next item to be popped, as far as the pop inside the mutex has come. */
  ghost predicate StartOk(s: State, pc: Pc)
    requires s.size > 0
  {
    match pc
    case PopClear(_) => |s.pops| > 0 && s.start == Slot(|s.pops| - 1, s.size)
    case PopAdvance(_) => |s.pops| > 0 && s.start == Slot(|s.pops| - 1, s.size)
    case PopWrap(_) => |s.pops| > 0 && s.start == Slot(|s.pops| - 1, s.size) + 1
    case _ => s.start == Slot(|s.pops|, s.size)
  }

  /** What the slot of the k-th item holds: the item while it waits, and null otherwise. */
  ghost predicate SlotOk(s: State, pc: Pc, k: nat)
    requires s.size > 0 && |s.elements| == s.size
  {
    s.elements[Slot(k, s.size)] ==
      if k < |s.puts| then s.puts[k]
      else if pc.PopClear? && k == |s.pops| - 1 + s.size then pc.x
      else 0
  }

  /** The ring: the size slots from the next item to be popped on. */
  ghost predicate RingOk(s: State, pc: Pc) {
    && |s.elements| == s.size && 0 <= Items(s) <= s.size
    && (s.size > 0 ==>
      && StartOk(s, pc) && EndOk(s, pc)
      && forall k: nat :: |s.pops| <= k < |s.pops| + s.size ==> SlotOk(s, pc, k))
  }

  ghost predicate Inv(s: State, m: int) {
    Counted(s) && Owned(s, m) && RingOk(s, Inside(s, m)) && s.pops <= s.puts
  }

  ghost predicate Safe(s: State) {
    exists m :: Inv(s, m)
  }

  /** Adding one and taking the remainder goes to the next slot. */
  lemma {:induction false} SlotNext(k: nat, size: nat)
    requires size > 0
    ensures Slot(k + 1, size) == (Slot(k, size) + 1) % size
    decreases k
  {
    if k < size {
      Remainder(k + 1, size);
    } else {
      SlotNext(k - size, size);
    }
  }

  lemma Remainder(x: nat, size: nat)
    requires 0 < size && x <= size
    ensures x % size == if x == size then 0 else x
  {
    if x < size {
      assert x / size == 0;
    }
  }

  lemma SlotAround(k: nat, size: nat)
    requires size > 0
    ensures Slot(k + size, size) == Slot(k, size)
  {
  }

  lemma {:induction false} SlotApart(j: nat, k: nat, size: nat)
    requires size > 0 && j < k < j + size
    ensures Slot(j, size) != Slot(k, size)
    decreases j
  {
    if size <= j {
      SlotApart(j - size, k - size, size);
    }
  }

  lemma CountsStep(s: State, t: nat, pc: Pc)
    requires t < |s.pcs|
    ensures Count(s.pcs[t := pc], Stored) + Bit(Stored(s.pcs[t])) == Count(s.pcs, Stored) + Bit(Stored(pc))
    ensures Count(s.pcs[t := pc], Popping) + Bit(Popping(s.pcs[t])) == Count(s.pcs, Popping) + Bit(Popping(pc))
    ensures Count(s.pcs[t := pc], Putting) + Bit(Putting(s.pcs[t])) == Count(s.pcs, Putting) + Bit(Putting(pc))
    ensures Count(s.pcs[t := pc], Loaded) + Bit(Loaded(s.pcs[t])) == Count(s.pcs, Loaded) + Bit(Loaded(pc))
  {
    CountUpdate(s.pcs, Stored, t, pc);
    CountUpdate(s.pcs, Popping, t, pc);
    CountUpdate(s.pcs, Putting, t, pc);
    CountUpdate(s.pcs, Loaded, t, pc);
  }

  lemma CountedPut(s: State, s': State, t: nat)
    requires Counted(s) && t < |s.pcs| && Faultless(s, t) && PutStep(s, s', t)
    ensures Counted(s')
  {
    CountsStep(s, t, s'.pcs[t]);
  }

  lemma CountedPop(s: State, s': State, t: nat)
    requires Counted(s) && t < |s.pcs| && Faultless(s, t) && PopStep(s, s', t)
    ensures Counted(s')
  {
    CountsStep(s, t, s'.pcs[t]);
  }

  lemma OwnedStep(s: State, s': State, m: int, t: nat)
    requires Owned(s, m) && Step(s, s', t)
    ensures Owned(s', Owner(m, t, InMutex(s'.pcs[t])))
  {
  }

  /** A store goes to a slot no waiting item is in, and is the next item. */
  lemma WriteOk(s: State, s': State, t: nat)
    requires Counted(s) && t < |s.pcs| && RingOk(s, s.pcs[t]) && s.pcs[t].PutWrite?
    requires Faultless(s, t) && PutStep(s, s', t)
    ensures RingOk(s', s'.pcs[t]) && Items(s) < s.size && s.elements[s.end] == 0
  {
    CountMember(s.pcs, Putting, t);
    var n := |s.puts|;
    assert SlotOk(s, s.pcs[t], n);
    forall k: nat | |s'.pops| <= k < |s'.pops| + s'.size ensures SlotOk(s', s'.pcs[t], k) {
      assert SlotOk(s, s.pcs[t], k);
      if k < n {
        SlotApart(k, n, s.size);
      } else if n < k {
        SlotApart(n, k, s.size);
      }
    }
  }

  /** A load finds the oldest waiting item. */
  lemma ReadOk(s: State, s': State, t: nat)
    requires Counted(s) && t < |s.pcs| && RingOk(s, s.pcs[t]) && s.pcs[t].PopRead?
    requires Faultless(s, t) && PopStep(s, s', t)
    ensures RingOk(s', s'.pcs[t]) && Items(s) > 0 && s.elements[s.start] == s.puts[|s.pops|]
  {
    CountMember(s.pcs, Popping, t);
    assert SlotOk(s, s.pcs[t], |s.pops|);
    SlotAround(|s.pops|, s.size);
    forall k: nat | |s'.pops| <= k < |s'.pops| + s'.size ensures SlotOk(s', s'.pcs[t], k) {
      if k < |s.pops| + s.size {
        assert SlotOk(s, s.pcs[t], k);
      }
    }
  }

  lemma ClearOk(s: State, s': State, t: nat)
    requires Counted(s) && t < |s.pcs| && RingOk(s, s.pcs[t]) && s.pcs[t].PopClear?
    requires Faultless(s, t) && PopStep(s, s', t)
    ensures RingOk(s', s'.pcs[t])
  {
    CountMember(s.pcs, Loaded, t);
    var n := |s.pops| - 1;
    SlotAround(n, s.size);
    forall k: nat | |s'.pops| <= k < |s'.pops| + s'.size ensures SlotOk(s', s'.pcs[t], k) {
      assert SlotOk(s, s.pcs[t], k);
      if k < n + s.size {
        SlotApart(n, k, s.size);
      }
    }
  }

  /** The ring's slots are as they were. */
  lemma SlotsKept(s: State, s': State, pc: Pc, pc': Pc)
    requires RingOk(s, pc) && pc'.PopClear? == pc.PopClear? && (pc.PopClear? ==> pc'.x == pc.x)
    requires s'.size == s.size && s'.elements == s.elements && s'.puts == s.puts && s'.pops == s.pops
    requires s.size > 0 ==> StartOk(s', pc') && EndOk(s', pc')
    ensures RingOk(s', pc')
  {
    forall k: nat | s.size > 0 && |s'.pops| <= k < |s'.pops| + s'.size ensures SlotOk(s', pc', k) {
      assert SlotOk(s, pc, k);
    }
  }

  /** Moving end on, and wrapping it, leaves it at the next item's slot. */
  lemma EndMoves(s: State, s': State, t: nat)
    requires t < |s.pcs| && RingOk(s, s.pcs[t]) && (s.pcs[t].PutAdvance? || s.pcs[t].PutWrap?)
    requires Faultless(s, t) && PutStep(s, s', t)
    ensures RingOk(s', s'.pcs[t])
  {
    if s.size > 0 {
      SlotNext(|s.puts| - 1, s.size);
    }
    hide Slot;
    SlotsKept(s, s', s.pcs[t], s'.pcs[t]);
  }

  lemma StartMoves(s: State, s': State, t: nat)
    requires t < |s.pcs| && RingOk(s, s.pcs[t]) && (s.pcs[t].PopAdvance? || s.pcs[t].PopWrap?)
    requires Faultless(s, t) && PopStep(s, s', t)
    ensures RingOk(s', s'.pcs[t])
  {
    if s.size > 0 {
      SlotNext(|s.pops| - 1, s.size);
    }
    hide Slot;
    SlotsKept(s, s', s.pcs[t], s'.pcs[t]);
  }

  /** The step is one of those that touch the ring. */
  predicate Touches(pc: Pc) {
    pc.PutWrite? || pc.PutAdvance? || pc.PutWrap? || pc.PopRead? || pc.PopClear? || pc.PopAdvance? || pc.PopWrap?
  }

  lemma TouchStep(s: State, s': State, t: nat)
    requires Counted(s) && Step(s, s', t) && RingOk(s, s.pcs[t]) && Touches(s.pcs[t]) && s.pops <= s.puts
    ensures RingOk(s', s'.pcs[t]) && s'.pops <= s'.puts
  {
    hide RingOk;
    hide Counted;
    match s.pcs[t]
    case PutWrite(_) => WriteOk(s, s', t);
    case PopRead => ReadOk(s, s', t);
    case PopClear(_) => ClearOk(s, s', t);
    case PutAdvance => EndMoves(s, s', t);
    case PutWrap => EndMoves(s, s', t);
    case PopAdvance(_) => StartMoves(s, s', t);
    case PopWrap(_) => StartMoves(s, s', t);
  }

  /** The other steps leave the ring alone. */
  lemma ElseStep(s: State, s': State, t: nat)
    requires Step(s, s', t) && !Touches(s.pcs[t])
    ensures s'.size == s.size && s'.elements == s.elements && s'.puts == s.puts && s'.pops == s.pops
    ensures s'.start == s.start && s'.end == s.end
    ensures !s'.pcs[t].PutAdvance? && !s'.pcs[t].PutWrap? && !s'.pcs[t].PopClear? && !s'.pcs[t].PopAdvance?
    ensures !s'.pcs[t].PopWrap?
  {
  }

  lemma StepMoves(s: State, s': State, t: nat)
    requires Step(s, s', t)
    ensures |s'.pcs| == |s.pcs| && s'.pcs == s.pcs[t := s'.pcs[t]]
  {
  }

  /** A thread that touches the ring stays inside the mutex. */
  lemma TouchInside(s: State, s': State, t: nat)
    requires Step(s, s', t) && Touches(s.pcs[t]) && |s'.pcs| == |s.pcs|
    ensures InMutex(s'.pcs[t])
  {
  }

  lemma ElseRing(s: State, s': State, m: int, t: nat)
    requires Owned(s, m) && RingOk(s, Inside(s, m)) && s.pops <= s.puts && Step(s, s', t) && !Touches(s.pcs[t])
    requires t < |s'.pcs| == |s.pcs| && Owned(s', Owner(m, t, InMutex(s'.pcs[t])))
    ensures RingOk(s', Inside(s', Owner(m, t, InMutex(s'.pcs[t])))) && s'.pops <= s'.puts
  {
    hide Step;
    StepMoves(s, s', t);
    ElseStep(s, s', t);
    assert m >= 0 ==> InMutex(s.pcs[m]) && (m != t ==> s'.pcs[m] == s.pcs[m]);
    SlotsKept(s, s', Inside(s, m), Inside(s', Owner(m, t, InMutex(s'.pcs[t]))));
  }

  lemma RingStep(s: State, s': State, m: int, t: nat)
    requires Inv(s, m) && Step(s, s', t)
    ensures |s'.pcs| == |s.pcs|
    ensures Owned(s', Owner(m, t, InMutex(s'.pcs[t])))
    ensures RingOk(s', Inside(s', Owner(m, t, InMutex(s'.pcs[t])))) && s'.pops <= s'.puts
  {
    hide Counted;
    hide RingOk;
    StepMoves(s, s', t);
    OwnedStep(s, s', m, t);
    hide Step;
    if Touches(s.pcs[t]) {
      assert m == t && InMutex(s.pcs[t]);
      TouchStep(s, s', t);
      TouchInside(s, s', t);
    } else {
      ElseRing(s, s', m, t);
    }
  }

  lemma InitSafe(s: State)
    requires Init(s)
    ensures Safe(s)
  {
    CountNone(s.pcs, Stored);
    CountNone(s.pcs, Popping);
    CountNone(s.pcs, Putting);
    CountNone(s.pcs, Loaded);
    assert Inv(s, -1);
  }

  lemma StepSafe(s: State, s': State, t: nat)
    requires Safe(s) && Step(s, s', t)
    ensures Safe(s')
  {
    hide RingOk;
    hide Owned;
    hide Counted;
    hide PutStep;
    hide PopStep;
    var m :| Inv(s, m);
    if PutStep(s, s', t) {
      CountedPut(s, s', t);
    } else {
      CountedPop(s, s', t);
    }
    RingStep(s, s', m, t);
    assert Inv(s', Owner(m, t, InMutex(s'.pcs[t])));
  }

  /** In every state of every run, for any capacity and any number of threads. */
  lemma {:induction false} RunSafe(run: seq<State>, i: nat)
    requires Run(run) && i < |run|
    ensures Safe(run[i])
  {
    hide Safe;
    hide Init;
    hide Step;
    if i == 0 {
      InitSafe(run[0]);
    } else {
      RunSafe(run, i - 1);
      assert Next(run[i - 1], run[i]);
      var t: nat :| Step(run[i - 1], run[i], t);
      StepSafe(run[i - 1], run[i], t);
    }
  }

  /** The items waiting, oldest first. */
  function Queue(s: State): seq<int>
    requires |s.pops| <= |s.puts|
  {
    s.puts[|s.pops|..]
  }

  /**
   * No step reaches outside the array or divides by a capacity of 0; items come out in the
   * order they went in; what waits never exceeds the capacity; and each waits in its slot.
   */
  lemma Correct(s: State, t: nat)
    requires Safe(s)
    ensures t < |s.pcs| ==> Faultless(s, t)
    ensures s.pops <= s.puts && |Queue(s)| <= s.size
    ensures forall k: nat :: |s.pops| <= k < |s.puts| ==> s.elements[Slot(k, s.size)] == s.puts[k]
    ensures 0 <= s.full <= |Queue(s)| && 0 <= s.empty <= s.size - |Queue(s)|
  {
    var m :| Inv(s, m);
    if t < |s.pcs| {
      if Putting(s.pcs[t]) {
        CountMember(s.pcs, Putting, t);
      } else if Popping(s.pcs[t]) {
        CountMember(s.pcs, Popping, t);
      } else if Stored(s.pcs[t]) {
        CountMember(s.pcs, Stored, t);
      } else if Loaded(s.pcs[t]) {
        CountMember(s.pcs, Loaded, t);
      }
    }
    forall k: nat | |s.pops| <= k < |s.puts| ensures s.elements[Slot(k, s.size)] == s.puts[k] {
      assert SlotOk(s, Inside(s, m), k);
    }
  }

  /** An atomic bounded queue's put and pop. */
  ghost predicate Put<T>(q: seq<T>, q': seq<T>, size: nat, x: T) { |q| < size && q' == q + [x] }

  ghost predicate Pop<T>(q: seq<T>, q': seq<T>, x: T) { q == [x] + q' }

  lemma QueueKept(s: State, s': State, t: nat)
    requires Step(s, s', t) && !s.pcs[t].PutWrite? && !s.pcs[t].PopRead?
    ensures s'.puts == s.puts && s'.pops == s.pops
  {
  }

  /**
   * The buffer is an atomic bounded queue: the waiting items change only when a put stores its
   * item behind them, with room for it, or a pop takes the oldest.
   */
  lemma Refines(s: State, s': State, t: nat)
    requires Safe(s) && Step(s, s', t)
    ensures |s.pops| <= |s.puts| && |s'.pops| <= |s'.puts|
    ensures
      if s.pcs[t].PutWrite? then Put(Queue(s), Queue(s'), s.size, s.pcs[t].x)
      else if s.pcs[t].PopRead? then s'.pcs[t].PopClear? && Pop(Queue(s), Queue(s'), s'.pcs[t].x)
      else Queue(s') == Queue(s)
  {
    hide Counted;
    hide RingOk;
    var m :| Inv(s, m);
    if s.pcs[t].PutWrite? {
      WriteOk(s, s', t);
    } else if s.pcs[t].PopRead? {
      ReadOk(s, s', t);
    } else {
      QueueKept(s, s', t);
    }
  }

  /** A put that has not stored its item yet. */
  predicate Offering(pc: Pc) { pc.PutEmpty? || pc.PutMutex? || pc.PutWrite? }

  /** What a thread has in its hands it had before, or has just taken off the ring or been given by its caller. */
  ghost predicate Carries(pc: Pc, pc': Pc, moves: bool) {
    && (Loaded(pc') ==> (Loaded(pc) && pc'.x == pc.x) || (moves && pc.PopRead? && pc'.PopClear?))
    && (Offering(pc') ==> (Offering(pc) && pc'.x == pc.x) || (moves && pc.Idle? && pc'.PutEmpty?))
  }

  lemma StepCarries(s: State, s': State, t: nat, u: nat)
    requires Step(s, s', t) && u < |s.pcs|
    ensures |s'.pcs| == |s.pcs| && Carries(s.pcs[u], s'.pcs[u], u == t)
  {
  }

  /**
   * What a pop returns: whenever thread t has x in its hands, up to its return, x is the item that its own
   * load, in this call, took off the front of the queue.
   */
  lemma {:induction false} Returned(run: seq<State>, t: nat, j: nat) returns (i: nat)
    requires Run(run) && j < |run| && t < |run[j].pcs| && Loaded(run[j].pcs[t])
    ensures i < j && Step(run[i], run[i + 1], t) && run[i].pcs[t].PopRead?
    ensures |run[i].pops| <= |run[i].puts| && |run[i + 1].pops| <= |run[i + 1].puts|
    ensures Pop(Queue(run[i]), Queue(run[i + 1]), run[j].pcs[t].x)
    ensures forall k | i < k <= j :: t < |run[k].pcs| && Loaded(run[k].pcs[t])
  {
    hide Step;
    hide Queue;
    hide Safe;
    assert j > 0;
    var s, s' := run[j - 1], run[j];
    assert Next(s, s');
    var u: nat :| Step(s, s', u);
    StepMoves(s, s', u);
    StepCarries(s, s', u, t);
    if Loaded(s.pcs[t]) {
      i := Returned(run, t, j - 1);
    } else {
      i := j - 1;
      RunSafe(run, i);
      Refines(s, s', t);
    }
  }

  /**
   * What a put stores: whenever thread t still has x to store, x is what its caller passed, and the store
   * puts it at the end of the queue.
   */
  lemma {:induction false} Offered(run: seq<State>, t: nat, j: nat) returns (i: nat)
    requires Run(run) && j < |run| && t < |run[j].pcs| && Offering(run[j].pcs[t])
    ensures i < j && t < |run[i].pcs| == |run[i + 1].pcs| && run[i].pcs[t].Idle?
    ensures run[i + 1].pcs[t] == PutEmpty(run[j].pcs[t].x)
    ensures forall k | i < k <= j :: t < |run[k].pcs| && Offering(run[k].pcs[t])
    ensures |run[j].pops| <= |run[j].puts| && run[j].pops <= run[j].puts
    ensures run[j].pcs[t].PutWrite? && j + 1 < |run| && Step(run[j], run[j + 1], t) ==>
      && |run[j + 1].pops| <= |run[j + 1].puts|
      && Put(Queue(run[j]), Queue(run[j + 1]), run[j].size, run[j].pcs[t].x)
  {
    hide Step;
    hide Queue;
    hide Safe;
    assert j > 0;
    var s, s' := run[j - 1], run[j];
    assert Next(s, s');
    var u: nat :| Step(s, s', u);
    StepMoves(s, s', u);
    StepCarries(s, s', u, t);
    if Offering(s.pcs[t]) {
      i := Offered(run, t, j - 1);
    } else {
      i := j - 1;
    }
    RunSafe(run, j);
    Correct(s', t);
    if j + 1 < |run| && Step(run[j], run[j + 1], t) {
      Refines(run[j], run[j + 1], t);
    }
  }

  ghost predicate CanStep(s: State, t: nat) { exists s' :: Step(s, s', t) }

  /** A thread that cannot go on waits for a free slot, for an item, or for the mutex. */
  predicate Waits(s: State, pc: Pc) {
    || (pc.PutEmpty? && s.empty <= 0) || (pc.PopFull? && s.full <= 0)
    || ((pc.PutMutex? || pc.PopMutex?) && s.mutex == 0)
  }

  lemma CannotStep(s: State, t: nat)
    requires t < |s.pcs| && Faultless(s, t) && !CanStep(s, t)
    ensures Waits(s, s.pcs[t])
  {
    var s' := match s.pcs[t]
      case Idle => Move(s, t, PopFull)
      case PutEmpty(x) => Move(s, t, PutMutex(x)).(empty := s.empty - 1)
      case PutMutex(x) => Move(s, t, PutWrite(x)).(mutex := 0)
      case PutWrite(x) => Move(s, t, PutAdvance).(elements := s.elements[s.end := x], puts := s.puts + [x])
      case PutAdvance => Move(s, t, PutWrap).(end := s.end + 1)
      case PutWrap => Move(s, t, PutRelease).(end := s.end % s.size)
      case PutRelease => Move(s, t, PutFull).(mutex := 1)
      case PutFull => Move(s, t, Idle).(full := s.full + 1)
      case PopFull => Move(s, t, PopMutex).(full := s.full - 1)
      case PopMutex => Move(s, t, PopRead).(mutex := 0)
      case PopRead => Move(s, t, PopClear(s.elements[s.start])).(pops := s.pops + [s.elements[s.start]])
      case PopClear(x) => Move(s, t, PopAdvance(x)).(elements := s.elements[s.start := 0])
      case PopAdvance(x) => Move(s, t, PopWrap(x)).(start := s.start + 1)
      case PopWrap(x) => Move(s, t, PopRelease(x)).(start := s.start % s.size)
      case PopRelease(x) => Move(s, t, PopEmpty(x)).(mutex := 1)
      case PopEmpty(x) => Move(s, t, Idle).(empty := s.empty + 1);
    assert !Step(s, s', t);
  }

  /** No deadlock: if nobody can go on, everybody is putting into a full buffer or popping from an empty one. */
  lemma NoDeadlock(s: State)
    requires Safe(s) && forall t :: 0 <= t < |s.pcs| ==> !CanStep(s, t)
    ensures |s.pops| <= |s.puts|
    ensures forall t :: 0 <= t < |s.pcs| ==>
      (s.pcs[t].PutEmpty? && |Queue(s)| == s.size) || (s.pcs[t].PopFull? && Queue(s) == [])
  {
    hide CanStep;
    hide RingOk;
    forall t | 0 <= t < |s.pcs| ensures Waits(s, s.pcs[t]) {
      Correct(s, t);
      CannotStep(s, t);
    }
    var m :| Inv(s, m);
    assert m < 0;
    CountNone(s.pcs, Stored);
    CountNone(s.pcs, Popping);
    CountNone(s.pcs, Putting);
    CountNone(s.pcs, Loaded);
  }
}
