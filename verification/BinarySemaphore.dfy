/**
 * The kernel's binary semaphores. Each has a spin lock of its own; a process that cannot pass
 * takes a queue number, sleeps under the process table's lock, and is woken by the up that
 * brings its number to 0. Any number of processes run down and up on any number of semaphores;
 * kill may wake a sleeper at any time.
 */
module BinarySemaphore {
  import opened Semaphores
  import opened Counting

  /** Where a process stands: the name is the action it does next. */
  datatype Pc =
    | Idle
    | DownAcquire(id: nat) | DownQueue(id: nat) | DownTest(id: nat) | DownTake(id: nat)
    | DownSleep(id: nat) | DownUnlock(id: nat) | DownPark(id: nat) | Parked(id: nat)
    | DownReacquire(id: nat) | DownRelease(id: nat, ok: bool)
    | UpAcquire(id: nat) | UpCheck(id: nat) | UpScan(id: nat, i: nat, first: int)
    | UpSet(id: nat, first: int) | UpWake(id: nat, first: int) | UpRelease(id: nat, ok: bool)

  /** waitingFor and pos are the process's waiting_for_semaphore and sem_queue_pos. */
  datatype Proc = Proc(pc: Pc, asleep: bool, waitingFor: int, pos: int)

  datatype Sem = Sem(value: int, created: bool, waiting: int)

  /** A queue number, and how many ups the semaphore had seen when it was drawn. */
  datatype Ticket = Ticket(number: int, at: int)

  /**
   * locks and ptable name the holder of each spin lock, -1 for none. ups and takes count, for
   * each semaphore, the stores of 1 and of 0; tickets records what each process last drew.
   */
  datatype State = State(
    sems: seq<Sem>, locks: seq<int>, ptable: int, procs: seq<Proc>,
    ups: seq<int>, takes: seq<int>, tickets: seq<Ticket>)

  ghost predicate Init(s: State) {
    && |s.locks| == |s.sems| == |s.ups| == |s.takes| && |s.tickets| == |s.procs| && s.ptable == -1
    && (forall id :: 0 <= id < |s.sems| ==>
      s.locks[id] == -1 && s.ups[id] == 0 && s.takes[id] == 0 && s.sems[id].waiting == 0)
    && (forall p :: 0 <= p < |s.procs| ==> s.procs[p] == Proc(Idle, false, -1, 0))
  }

  function Move(s: State, p: nat, pc: Pc): State
    requires p < |s.procs|
  {
    s.(procs := s.procs[p := s.procs[p].(pc := pc)])
  }

  function Lock(s: State, id: nat, holder: int): State
    requires id < |s.locks|
  {
    s.(locks := s.locks[id := holder])
  }

  function SetSem(s: State, id: nat, sem: Sem): State
    requires id < |s.sems|
  {
    s.(sems := s.sems[id := sem])
  }

  /** Process p draws the next number of semaphore id. */
  function Draw(s: State, p: nat, id: nat): State
    requires p < |s.procs| && id < |s.sems| && id < |s.ups| && p < |s.tickets|
  {
    var w := s.sems[id].waiting + 1;
    SetSem(s, id, s.sems[id].(waiting := w)).(
      procs := s.procs[p := s.procs[p].(pos := w)],
      tickets := s.tickets[p := Ticket(w, s.ups[id])])
  }

  ghost predicate Shape(s: State) {
    && |s.locks| == |s.sems| == |s.ups| == |s.takes| && |s.tickets| == |s.procs|
    && forall p :: 0 <= p < |s.procs| ==> PcIn(s.procs[p].pc, |s.sems|, |s.procs|)
  }

  ghost predicate PcIn(pc: Pc, sems: nat, procs: nat) {
    && (!pc.Idle? ==> pc.id < sems)
    && (pc.UpScan? ==> pc.i <= procs)
    && (pc.UpScan? || pc.UpSet? || pc.UpWake? ==> -1 <= pc.first < procs)
  }

  ghost predicate Call(s: State, s': State, p: nat)
    requires p < |s.procs|
  {
    && s.procs[p].pc.Idle?
    && exists id: nat :: id < |s.sems| && (s' == Move(s, p, DownAcquire(id)) || s' == Move(s, p, UpAcquire(id)))
  }

  ghost predicate DownStep(s: State, s': State, p: nat)
    requires Shape(s) && p < |s.procs|
  {
    var me := s.procs[p];
    match me.pc
    case DownAcquire(id) => s.locks[id] == -1 && s' == Lock(Move(s, p, DownQueue(id)), id, p)
    case DownQueue(id) => s' == Move(if s.sems[id].waiting != 0 then Draw(s, p, id) else s, p, DownTest(id))
    case DownTest(id) =>
      if !s.sems[id].created then s' == Move(s, p, DownRelease(id, false))
      else if s.sems[id].value != 0 && me.pos == 0 then s' == Move(s, p, DownTake(id))
      else
        var t := if me.pos == 0 then Draw(s, p, id) else s;
        s' == t.(procs := t.procs[p := t.procs[p].(pc := DownSleep(id), waitingFor := id)])
    case DownTake(id) =>
      s' == SetSem(s, id, s.sems[id].(value := 0)).(
        takes := s.takes[id := s.takes[id] + 1],
        procs := s.procs[p := me.(pc := DownRelease(id, true), waitingFor := -1)])
    case DownRelease(id, _) => s' == Lock(Move(s, p, Idle), id, -1)
    case _ => false
  }

  /** The sleep in down's loop. */
  ghost predicate SleepStep(s: State, s': State, p: nat)
    requires Shape(s) && p < |s.procs|
  {
    var me := s.procs[p];
    match me.pc
    case DownSleep(id) => s.ptable == -1 && s' == Move(s, p, DownUnlock(id)).(ptable := p)
    case DownUnlock(id) => s' == Lock(Move(s, p, DownPark(id)), id, -1)
    case DownPark(id) => s' == s.(ptable := -1, procs := s.procs[p := me.(pc := Parked(id), asleep := true)])
    case Parked(id) => s.ptable == -1 && !me.asleep && s' == Move(s, p, DownReacquire(id))
    case DownReacquire(id) => s.locks[id] == -1 && s' == Lock(Move(s, p, DownTest(id)), id, p)
    case _ => false
  }

  /** One turn of up's loop over the process table. */
  function Scanned(s: State, p: nat, id: nat, i: nat, first: int): State
    requires p < |s.procs| && i < |s.procs|
  {
    var q := s.procs[i];
    if i != p && q.waitingFor == id then
      Move(s.(procs := s.procs[i := q.(pos := q.pos - 1)]), p, UpScan(id, i + 1, if q.pos == 1 then i else first))
    else
      Move(s, p, UpScan(id, i + 1, first))
  }

  ghost predicate UpStep(s: State, s': State, p: nat)
    requires Shape(s) && p < |s.procs|
  {
    match s.procs[p].pc
    case UpAcquire(id) => s.locks[id] == -1 && s' == Lock(Move(s, p, UpCheck(id)), id, p)
    case UpCheck(id) =>
      if !s.sems[id].created then s' == Move(s, p, UpRelease(id, false))
      else s.ptable == -1 && s' == Move(s, p, UpScan(id, 0, -1)).(ptable := p)
    case UpScan(id, i, first) =>
      s' == if i < |s.procs| then Scanned(s, p, id, i, first) else Move(s, p, UpSet(id, first))
    case UpSet(id, first) =>
      var w := s.sems[id].waiting;
      s' == SetSem(Move(s, p, UpWake(id, first)), id,
        s.sems[id].(value := 1, waiting := if w > 0 then w - 1 else w)).(ups := s.ups[id := s.ups[id] + 1])
    case UpWake(id, first) =>
      var t := if first >= 0 then s.(procs := s.procs[first := s.procs[first].(asleep := false)]) else s;
      s' == Move(t, p, UpRelease(id, true)).(ptable := -1)
    case UpRelease(id, _) => s' == Lock(Move(s, p, Idle), id, -1)
    case _ => false
  }

  /** kill makes a sleeping process runnable, whatever it sleeps on. */
  ghost predicate Kill(s: State, s': State, q: nat)
    requires q < |s.procs|
  {
    s.ptable == -1 && s' == s.(procs := s.procs[q := s.procs[q].(asleep := false)])
  }

  ghost predicate Step(s: State, s': State, p: nat) {
    && Shape(s) && p < |s.procs|
    && (Call(s, s', p) || DownStep(s, s', p) || SleepStep(s, s', p) || UpStep(s, s', p) || Kill(s, s', p))
  }

  ghost predicate Next(s: State, s': State) {
    exists p: nat :: Step(s, s', p)
  }

  ghost predicate Run(run: seq<State>) {
    && |run| > 0 && Init(run[0])
    && forall i :: 0 <= i < |run| - 1 ==> Next(run[i], run[i + 1])
  }

  /** A process at pc holds its semaphore's lock. */
  predicate HoldsLock(pc: Pc) {
    pc.DownQueue? || pc.DownTest? || pc.DownTake? || pc.DownSleep? || pc.DownUnlock? || pc.DownRelease? ||
    pc.UpCheck? || pc.UpScan? || pc.UpSet? || pc.UpWake? || pc.UpRelease?
  }

  /** A process at pc holds the process table's lock. */
  predicate HoldsTable(pc: Pc) {
    pc.DownUnlock? || pc.DownPark? || pc.UpScan? || pc.UpSet? || pc.UpWake?
  }

  /** A process at pc has drawn a number it has not yet used. */
  predicate Waits(pc: Pc) {
    pc.DownSleep? || pc.DownUnlock? || pc.DownPark? || pc.Parked? || pc.DownReacquire?
  }

  /** The spin locks have one holder each, the process whose pc says so. */
  ghost predicate LocksOk(s: State) {
    && Shape(s)
    && (forall p :: 0 <= p < |s.procs| && HoldsLock(s.procs[p].pc) ==> s.locks[s.procs[p].pc.id] == p)
    && (forall id :: 0 <= id < |s.sems| ==> HeldOk(s, id))
    && (forall p :: 0 <= p < |s.procs| && HoldsTable(s.procs[p].pc) ==> s.ptable == p)
    && (s.ptable != -1 ==> 0 <= s.ptable < |s.procs| && HoldsTable(s.procs[s.ptable].pc))
  }

  ghost predicate HeldOk(s: State, id: nat)
    requires id < |s.locks|
  {
    var u := s.locks[id];
    u != -1 ==> 0 <= u < |s.procs| && HoldsLock(s.procs[u].pc) && s.procs[u].pc.id == id
  }

  /** An up on semaphore id is under way that has already moved p up the queue. */
  ghost predicate Moved(s: State, id: nat, p: nat)
    requires id < |s.locks|
  {
    0 <= s.locks[id] < |s.procs| && Passed(s.procs[s.locks[id]].pc, p)
  }

  /** An up at pc has gone past p in its loop over the process table, and not yet set the value. */
  predicate Passed(pc: Pc, p: nat) {
    pc.UpSet? || (pc.UpScan? && pc.i > p)
  }

  /** p's place in the queue is the number it drew less the ups since. */
  ghost predicate Placed(s: State, p: nat, id: nat)
    requires p < |s.procs| && p < |s.tickets| && id < |s.locks| && id < |s.ups|
  {
    var k := s.tickets[p];
    k.number >= 1 && s.procs[p].pos == k.number - (s.ups[id] - k.at) - Bit(Moved(s, id, p))
  }

  ghost predicate ProcOk(s: State, p: nat)
    requires Shape(s) && p < |s.procs|
  {
    var me := s.procs[p];
    if Waits(me.pc) then
      me.waitingFor == me.pc.id && s.sems[me.pc.id].created && Placed(s, p, me.pc.id)
    else if me.pc.DownTest? then
      && (me.waitingFor == -1 || me.waitingFor == me.pc.id)
      && ((me.waitingFor == -1 && me.pos == 0) || (s.sems[me.pc.id].created && Placed(s, p, me.pc.id)))
    else if me.pc.DownTake? then
      (me.waitingFor == -1 || me.waitingFor == me.pc.id) && me.pos == 0 && s.sems[me.pc.id].value != 0
    else
      me.waitingFor == -1 && me.pos == 0
  }

  ghost predicate SemOk(s: State, v0: seq<int>, id: nat)
    requires id < |s.sems| && id < |s.ups| && id < |s.takes| && id < |v0|
  {
    && s.sems[id].waiting >= 0 && (!s.sems[id].created ==> s.sems[id].waiting == 0)
    && s.takes[id] + Bit(s.sems[id].value != 0) <= Bit(v0[id] != 0) + s.ups[id]
  }

  ghost predicate Inv(s: State, v0: seq<int>) {
    && LocksOk(s) && |v0| == |s.sems|
    && (forall p :: 0 <= p < |s.procs| ==> ProcOk(s, p))
    && (forall id :: 0 <= id < |s.sems| ==> SemOk(s, v0, id))
  }

  /** Process p alone moved, within or to or from a call on semaphore id. */
  ghost predicate Moves(s: State, s': State, p: nat, id: nat)
    requires Shape(s) && p < |s.procs|
  {
    && |s'.locks| == |s'.ups| == |s'.takes| == |s'.sems| == |s.sems| && id < |s.sems|
    && |s'.procs| == |s'.tickets| == |s.procs| && PcIn(s'.procs[p].pc, |s.sems|, |s.procs|)
    && (forall q :: 0 <= q < |s.procs| && q != p ==> s'.procs[q].pc == s.procs[q].pc)
    && (!s.procs[p].pc.Idle? ==> s.procs[p].pc.id == id)
    && (!s'.procs[p].pc.Idle? ==> s'.procs[p].pc.id == id)
  }

  /** Process p took or gave back the lock of semaphore id and the table's as its pc says. */
  ghost predicate Locks(s: State, s': State, p: nat, id: nat)
    requires p < |s.procs| && p < |s'.procs| && id < |s.locks|
  {
    var pc, pc' := s.procs[p].pc, s'.procs[p].pc;
    && (HoldsLock(pc') && !HoldsLock(pc) ==> s.locks[id] == -1)
    && s'.locks == s.locks[id := if HoldsLock(pc') then p else if HoldsLock(pc) then -1 else s.locks[id]]
    && (HoldsTable(pc') && !HoldsTable(pc) ==> s.ptable == -1)
    && s'.ptable == if HoldsTable(pc') then p else if HoldsTable(pc) then -1 else s.ptable
  }

  lemma MovesLocks(s: State, s': State, p: nat, id: nat)
    requires LocksOk(s) && p < |s.procs| && Moves(s, s', p, id) && Locks(s, s', p, id)
    ensures LocksOk(s')
  {
    assert Shape(s');
    forall k | 0 <= k < |s.sems| ensures HeldOk(s', k) {
      assert HeldOk(s, k);
    }
    assert HeldOk(s, id);
  }

  lemma DownMoves(s: State, s': State, p: nat)
    requires Shape(s) && p < |s.procs| && DownStep(s, s', p)
    ensures Moves(s, s', p, s.procs[p].pc.id)
  {
  }

  lemma DownLocks(s: State, s': State, p: nat)
    requires Shape(s) && p < |s.procs| && DownStep(s, s', p) && |s'.procs| == |s.procs|
    requires HoldsLock(s.procs[p].pc) ==> s.locks[s.procs[p].pc.id] == p
    ensures Locks(s, s', p, s.procs[p].pc.id)
  {
  }

  lemma SleepMoves(s: State, s': State, p: nat)
    requires Shape(s) && p < |s.procs| && SleepStep(s, s', p)
    requires HoldsLock(s.procs[p].pc) ==> s.locks[s.procs[p].pc.id] == p
    requires HoldsTable(s.procs[p].pc) ==> s.ptable == p
    ensures Moves(s, s', p, s.procs[p].pc.id) && Locks(s, s', p, s.procs[p].pc.id)
  {
  }

  lemma UpOthers(s: State, s': State, p: nat)
    requires Shape(s) && p < |s.procs| && UpStep(s, s', p)
    ensures |s'.locks| == |s'.ups| == |s'.takes| == |s'.sems| == |s.sems| && |s'.procs| == |s'.tickets| == |s.procs|
    ensures forall q :: 0 <= q < |s.procs| && q != p ==> s'.procs[q].pc == s.procs[q].pc
  {
  }

  lemma UpMoves(s: State, s': State, p: nat)
    requires Shape(s) && p < |s.procs| && UpStep(s, s', p)
    ensures Moves(s, s', p, s.procs[p].pc.id)
  {
    UpOthers(s, s', p);
  }

  lemma UpLocks(s: State, s': State, p: nat)
    requires Shape(s) && p < |s.procs| && UpStep(s, s', p) && |s'.procs| == |s.procs|
    requires HoldsLock(s.procs[p].pc) ==> s.locks[s.procs[p].pc.id] == p
    requires HoldsTable(s.procs[p].pc) ==> s.ptable == p
    ensures Locks(s, s', p, s.procs[p].pc.id)
  {
  }

  /** A step of p that does not carry it past q leaves q's place under way or not as it was. */
  lemma MovedKept(s: State, s': State, p: nat, id: nat, k: nat, q: nat)
    requires LocksOk(s) && p < |s.procs| && Moves(s, s', p, id) && Locks(s, s', p, id)
    requires Passed(s.procs[p].pc, q) == Passed(s'.procs[p].pc, q) && k < |s.sems|
    ensures Moved(s', k, q) == Moved(s, k, q)
  {
    assert HeldOk(s, k);
  }

  /** Nothing that ProcOk says of q has changed. */
  ghost predicate Quiet(s: State, s': State, q: nat)
    requires Shape(s) && Shape(s') && |s'.sems| == |s.sems| && q < |s.procs| && |s'.procs| == |s.procs|
  {
    var me, me' := s.procs[q], s'.procs[q];
    && me'.pc == me.pc && me'.waitingFor == me.waitingFor && me'.pos == me.pos && s'.tickets[q] == s.tickets[q]
    && (!me.pc.Idle? ==>
      && s'.sems[me.pc.id].created == s.sems[me.pc.id].created
      && s'.ups[me.pc.id] == s.ups[me.pc.id]
      && Moved(s', me.pc.id, q) == Moved(s, me.pc.id, q)
      && (me.pc.DownTake? ==> s'.sems[me.pc.id].value == s.sems[me.pc.id].value))
  }

  lemma QuietOk(s: State, s': State, q: nat)
    requires Shape(s) && Shape(s') && |s'.sems| == |s.sems| && q < |s.procs| && |s'.procs| == |s.procs|
    requires ProcOk(s, q) && Quiet(s, s', q)
    ensures ProcOk(s', q)
  {
  }

  /** Down leaves every other process as it was. */
  lemma DownQuiet(s: State, s': State, p: nat, q: nat)
    requires Shape(s) && Shape(s') && p < |s.procs| && q < |s.procs| && q != p && DownStep(s, s', p)
    requires |s'.procs| == |s.procs| && |s'.sems| == |s.sems|
    requires s.procs[p].pc.DownTake? && s.procs[q].pc.DownTake? ==> s.procs[p].pc.id != s.procs[q].pc.id
    requires !s.procs[q].pc.Idle? ==> Moved(s', s.procs[q].pc.id, q) == Moved(s, s.procs[q].pc.id, q)
    ensures Quiet(s, s', q)
  {
    hide Moved;
  }

  lemma SleepQuiet(s: State, s': State, p: nat, q: nat)
    requires Shape(s) && Shape(s') && p < |s.procs| && q < |s.procs| && q != p && SleepStep(s, s', p)
    requires |s'.procs| == |s.procs| && |s'.sems| == |s.sems|
    requires !s.procs[q].pc.Idle? ==> Moved(s', s.procs[q].pc.id, q) == Moved(s, s.procs[q].pc.id, q)
    ensures Quiet(s, s', q)
  {
    hide Moved;
  }

  /** Down keeps its own account. */
  lemma DownSelf(s: State, s': State, p: nat)
    requires Shape(s) && Shape(s') && p < |s.procs| && DownStep(s, s', p) && ProcOk(s, p)
    requires |s'.procs| == |s.procs| && |s'.sems| == |s.sems| && Locks(s, s', p, s.procs[p].pc.id)
    requires s.sems[s.procs[p].pc.id].waiting >= 0
    requires !s.sems[s.procs[p].pc.id].created ==> s.sems[s.procs[p].pc.id].waiting == 0
    ensures ProcOk(s', p)
  {
    var id := s.procs[p].pc.id;
    assert HoldsLock(s.procs[p].pc) && HoldsLock(s'.procs[p].pc) ==> !Moved(s, id, p) && !Moved(s', id, p);
    hide Moved;
    hide Locks;
    hide Shape;
    hide PcIn;
  }

  lemma SleepSelf(s: State, s': State, p: nat)
    requires LocksOk(s) && LocksOk(s') && p < |s.procs| && SleepStep(s, s', p) && ProcOk(s, p)
    requires Moves(s, s', p, s.procs[p].pc.id) && Locks(s, s', p, s.procs[p].pc.id)
    ensures ProcOk(s', p)
  {
    MovedKept(s, s', p, s.procs[p].pc.id, s.procs[p].pc.id, p);
  }

  /** Up leaves a process as it was, but for the one its loop is at and when it sets the value. */
  lemma UpQuiet(s: State, s': State, p: nat, q: nat)
    requires Shape(s) && Shape(s') && p < |s.procs| && q < |s.procs| && q != p && UpStep(s, s', p)
    requires |s'.procs| == |s.procs| && |s'.sems| == |s.sems| && !s.procs[p].pc.UpSet?
    requires !(s.procs[p].pc.UpScan? && s.procs[p].pc.i == q)
    requires !s.procs[q].pc.Idle? ==> Moved(s', s.procs[q].pc.id, q) == Moved(s, s.procs[q].pc.id, q)
    ensures Quiet(s, s', q)
  {
    hide Moved;
  }

  lemma UpSelf(s: State, s': State, p: nat)
    requires Shape(s) && Shape(s') && p < |s.procs| && |s'.procs| == |s.procs| && UpStep(s, s', p) && ProcOk(s, p)
    ensures ProcOk(s', p)
  {
    hide Moved;
  }

  /** The loop's turn at q takes one off its place if q waits for this semaphore. */
  lemma ScanOk(s: State, s': State, p: nat, q: nat)
    requires LocksOk(s) && LocksOk(s') && p < |s.procs| && q < |s.procs| && q != p && ProcOk(s, q)
    requires s.procs[p].pc.UpScan? && s.procs[p].pc.i == q && UpStep(s, s', p)
    ensures ProcOk(s', q)
  {
    var id := s.procs[p].pc.id;
    assert s.locks[id] == p && s'.locks == s.locks;
    if !s.procs[q].pc.Idle? && s.procs[q].pc.id != id {
      assert HeldOk(s, s.procs[q].pc.id);
    }
  }

  /** Setting the value makes the ups that moved the queue one more. */
  lemma SetOk(s: State, s': State, p: nat, q: nat)
    requires LocksOk(s) && LocksOk(s') && p < |s.procs| && q < |s.procs| && q != p && ProcOk(s, q)
    requires s.procs[p].pc.UpSet? && UpStep(s, s', p)
    ensures ProcOk(s', q)
  {
    var id := s.procs[p].pc.id;
    assert s.locks[id] == p && s'.locks == s.locks;
    if !s.procs[q].pc.Idle? && s.procs[q].pc.id != id {
      assert HeldOk(s, s.procs[q].pc.id);
    }
  }

  lemma CallOk(s: State, s': State, v0: seq<int>, p: nat)
    requires Inv(s, v0) && p < |s.procs| && Call(s, s', p)
    ensures Inv(s', v0)
  {
    var id := s'.procs[p].pc.id;
    MovesLocks(s, s', p, id);
    forall k | 0 <= k < |s.sems| ensures SemOk(s', v0, k) {
      assert SemOk(s, v0, k);
    }
    forall q | 0 <= q < |s.procs| ensures ProcOk(s', q) {
      assert ProcOk(s, q);
      if q != p {
        if !s.procs[q].pc.Idle? {
          MovedKept(s, s', p, id, s.procs[q].pc.id, q);
        }
        QuietOk(s, s', q);
      }
    }
  }

  lemma DownSems(s: State, s': State, v0: seq<int>, p: nat, id: nat)
    requires Shape(s) && p < |s.procs| && id < |s.sems| && |v0| == |s.sems| && ProcOk(s, p) && SemOk(s, v0, id)
    requires DownStep(s, s', p)
    ensures |s'.sems| == |s'.ups| == |s'.takes| == |s.sems| && SemOk(s', v0, id)
  {
    hide Placed;
  }

  /** Sleeping touches no semaphore's account. */
  lemma SleepSems(s: State, s': State, v0: seq<int>, p: nat, id: nat)
    requires Shape(s) && p < |s.procs| && id < |s.sems| && |v0| == |s.sems| && SemOk(s, v0, id) && SleepStep(s, s', p)
    ensures |s'.sems| == |s'.ups| == |s'.takes| == |s.sems| && SemOk(s', v0, id)
  {
  }

  lemma UpSems(s: State, s': State, v0: seq<int>, p: nat, id: nat)
    requires Shape(s) && p < |s.procs| && id < |s.sems| && |v0| == |s.sems| && SemOk(s, v0, id) && UpStep(s, s', p)
    ensures |s'.sems| == |s'.ups| == |s'.takes| == |s.sems| && SemOk(s', v0, id)
  {
  }

  lemma DownInside(s: State, s': State, p: nat)
    requires Shape(s) && p < |s.procs| && (DownStep(s, s', p) || SleepStep(s, s', p))
    ensures !s.procs[p].pc.Idle? && |s'.procs| == |s.procs|
    ensures forall q: nat :: !Passed(s.procs[p].pc, q) && !Passed(s'.procs[p].pc, q)
  {
  }

  lemma DownOk(s: State, s': State, v0: seq<int>, p: nat)
    requires Inv(s, v0) && p < |s.procs| && (DownStep(s, s', p) || SleepStep(s, s', p))
    ensures Inv(s', v0)
  {
    hide DownStep;
    hide SleepStep;
    hide Placed;
    hide Moved;
    DownInside(s, s', p);
    var id := s.procs[p].pc.id;
    assert ProcOk(s, p) && SemOk(s, v0, id);
    if DownStep(s, s', p) {
      DownMoves(s, s', p);
      DownLocks(s, s', p);
      MovesLocks(s, s', p, id);
      DownSelf(s, s', p);
    } else {
      SleepMoves(s, s', p);
      MovesLocks(s, s', p, id);
      SleepSelf(s, s', p);
    }
    forall k | 0 <= k < |s.sems| ensures SemOk(s', v0, k) {
      if DownStep(s, s', p) {
        DownSems(s, s', v0, p, k);
      } else {
        SleepSems(s, s', v0, p, k);
      }
    }
    forall q | 0 <= q < |s.procs| && q != p ensures ProcOk(s', q) {
      if !s.procs[q].pc.Idle? {
        MovedKept(s, s', p, id, s.procs[q].pc.id, q);
      }
      if DownStep(s, s', p) {
        DownQuiet(s, s', p, q);
      } else {
        SleepQuiet(s, s', p, q);
      }
      QuietOk(s, s', q);
    }
  }

  lemma UpInside(s: State, s': State, p: nat)
    requires Shape(s) && p < |s.procs| && UpStep(s, s', p)
    ensures !s.procs[p].pc.Idle?
  {
  }

  lemma UpPassed(s: State, s': State, p: nat, q: nat)
    requires Shape(s) && p < |s.procs| && UpStep(s, s', p) && |s'.procs| == |s.procs| && q < |s.procs|
    requires !s.procs[p].pc.UpSet? && !(s.procs[p].pc.UpScan? && s.procs[p].pc.i == q)
    ensures Passed(s.procs[p].pc, q) == Passed(s'.procs[p].pc, q)
  {
  }

  lemma UpOk(s: State, s': State, v0: seq<int>, p: nat)
    requires Inv(s, v0) && p < |s.procs| && UpStep(s, s', p)
    ensures Inv(s', v0)
  {
    hide UpStep;
    hide Placed;
    hide Moved;
    UpInside(s, s', p);
    var id := s.procs[p].pc.id;
    UpMoves(s, s', p);
    UpLocks(s, s', p);
    MovesLocks(s, s', p, id);
    UpSelf(s, s', p);
    forall k | 0 <= k < |s.sems| ensures SemOk(s', v0, k) {
      UpSems(s, s', v0, p, k);
    }
    forall q | 0 <= q < |s.procs| && q != p ensures ProcOk(s', q) {
      if s.procs[p].pc.UpScan? && s.procs[p].pc.i == q {
        ScanOk(s, s', p, q);
      } else if s.procs[p].pc.UpSet? {
        SetOk(s, s', p, q);
      } else {
        UpPassed(s, s', p, q);
        if !s.procs[q].pc.Idle? {
          MovedKept(s, s', p, id, s.procs[q].pc.id, q);
        }
        UpQuiet(s, s', p, q);
        QuietOk(s, s', q);
      }
    }
  }

  lemma KillOk(s: State, s': State, v0: seq<int>, p: nat)
    requires Inv(s, v0) && p < |s.procs| && Kill(s, s', p)
    ensures Inv(s', v0)
  {
    forall id | 0 <= id < |s.sems| ensures HeldOk(s', id) && SemOk(s', v0, id) {
      assert HeldOk(s, id) && SemOk(s, v0, id);
    }
    forall q | 0 <= q < |s.procs| ensures ProcOk(s', q) {
      assert ProcOk(s, q);
    }
  }

  function Values(s: State): (v: seq<int>)
    ensures |v| == |s.sems|
  {
    seq(|s.sems|, id requires 0 <= id < |s.sems| => s.sems[id].value)
  }

  lemma InitOk(s: State)
    requires Init(s)
    ensures Inv(s, Values(s))
  {
  }

  lemma StepSafe(s: State, s': State, v0: seq<int>, p: nat)
    requires Inv(s, v0) && Step(s, s', p)
    ensures Inv(s', v0)
  {
    hide Inv;
    if Call(s, s', p) {
      CallOk(s, s', v0, p);
    } else if UpStep(s, s', p) {
      UpOk(s, s', v0, p);
    } else if Kill(s, s', p) {
      KillOk(s, s', v0, p);
    } else {
      DownOk(s, s', v0, p);
    }
  }

  /** In every state of every run, for any number of processes and semaphores. */
  lemma {:induction false} RunSafe(run: seq<State>, i: nat)
    requires Run(run) && i < |run|
    ensures Inv(run[i], Values(run[0]))
  {
    hide Inv;
    hide Init;
    hide Values;
    if i == 0 {
      InitOk(run[0]);
    } else {
      var s, s', v0 := run[i - 1], run[i], Values(run[0]);
      RunSafe(run, i - 1);
      assert Next(s, s');
      var p: nat :| Step(s, s', p);
      StepSafe(s, s', v0, p);
    }
  }

  /**
   * Down and up are atomic: a value changes only when a process's down, past its tests, turns a
   * nonzero value to 0, or a process's up turns it to 1; and only such a down returns 0.
   */
  ghost predicate Atomic(s: State, s': State, p: nat, id: nat)
    requires p < |s.procs| && id < |s.sems|
  {
    && |s'.sems| == |s.sems| && |s'.procs| == |s.procs|
    && (s'.sems[id].value != s.sems[id].value ==>
      || (s.procs[p].pc == DownTake(id) && BinaryDown(s.sems[id].value, s'.sems[id].value))
      || (s.procs[p].pc.UpSet? && s.procs[p].pc.id == id && BinaryUp(s.sems[id].value, s'.sems[id].value)))
    && (s'.procs[p].pc == DownRelease(id, true) && s.procs[p].pc != s'.procs[p].pc ==>
      s.procs[p].pc == DownTake(id) && BinaryDown(s.sems[id].value, s'.sems[id].value))
  }

  lemma UpAtomic(s: State, s': State, p: nat, id: nat)
    requires Shape(s) && p < |s.procs| && UpStep(s, s', p) && id < |s.sems|
    ensures Atomic(s, s', p, id)
  {
  }

  lemma DownAtomic(s: State, s': State, p: nat, id: nat)
    requires Shape(s) && p < |s.procs| && (DownStep(s, s', p) || SleepStep(s, s', p)) && ProcOk(s, p) && id < |s.sems|
    ensures Atomic(s, s', p, id)
  {
    hide Placed;
  }

  /** Every step of every run is atomic on every semaphore. */
  lemma Refines(run: seq<State>, i: nat, p: nat, id: nat)
    requires Run(run) && i < |run| - 1 && Step(run[i], run[i + 1], p) && id < |run[i].sems|
    ensures Atomic(run[i], run[i + 1], p, id)
  {
    var s, s' := run[i], run[i + 1];
    RunProc(run, i, p);
    hide Run;
    if UpStep(s, s', p) {
      UpAtomic(s, s', p, id);
    } else if DownStep(s, s', p) || SleepStep(s, s', p) {
      DownAtomic(s, s', p, id);
    }
  }

  /** In every run, the downs that got through never outnumber the ups and the initial unit. */
  lemma NeverTooMany(run: seq<State>, i: nat, id: nat)
    requires Run(run) && i < |run| && id < |run[0].sems|
    ensures id < |run[i].takes| == |run[i].ups| && run[i].takes[id] <= Bit(run[0].sems[id].value != 0) + run[i].ups[id]
  {
    RunSafe(run, i);
    assert SemOk(run[i], Values(run[0]), id);
  }

  /**
   * A waiter gets through exactly when the value is nonzero and the ups since it drew its number
   * are as many as the number: not before, and not after one up too many.
   */
  lemma PassesInTurn(s: State, s': State, v0: seq<int>, p: nat)
    requires Inv(s, v0) && p < |s.procs| && DownStep(s, s', p)
    requires s.procs[p].pc.DownTest? && s.procs[p].waitingFor != -1
    ensures
      var id, k := s.procs[p].pc.id, s.tickets[p];
      s'.procs[p].pc.DownTake? <==> s.sems[id].value != 0 && s.ups[id] - k.at == k.number
  {
    assert ProcOk(s, p);
    assert HoldsLock(s.procs[p].pc);
  }

  /** The process has a number of the semaphore it calls down on. */
  predicate Queued(p: Proc) {
    Waits(p.pc) || (p.pc.DownTest? && (p.waitingFor >= 0 || p.pos != 0))
  }

  /** The up whose turn lets the holder of a ticket through, counting from the first ever. */
  function Turn(k: Ticket): int { k.number + k.at }

  /** Nobody's turn lies beyond the next number to be drawn, and no two have the same turn. */
  ghost predicate TurnsOk(s: State) {
    && Shape(s)
    && (forall p :: 0 <= p < |s.procs| && Queued(s.procs[p]) ==> Turn(s.tickets[p]) <= LastTurn(s, s.procs[p].pc.id))
    && (forall p, q :: 0 <= p < |s.procs| && 0 <= q < |s.procs| && p != q && SameQueue(s, p, q) ==>
      Turn(s.tickets[p]) != Turn(s.tickets[q]))
  }

  function LastTurn(s: State, id: nat): int
    requires id < |s.sems| && id < |s.ups|
  {
    s.sems[id].waiting + s.ups[id]
  }

  ghost predicate SameQueue(s: State, p: nat, q: nat)
    requires p < |s.procs| && q < |s.procs|
  {
    Queued(s.procs[p]) && Queued(s.procs[q]) && s.procs[p].pc.id == s.procs[q].pc.id
  }

  /** Process q, if it is queued in s', was so before with the same number. */
  ghost predicate Stays(s: State, s': State, q: nat)
    requires q < |s.procs| && q < |s'.procs| && q < |s.tickets| && q < |s'.tickets|
  {
    Queued(s'.procs[q]) ==>
      Queued(s.procs[q]) && s'.procs[q].pc.id == s.procs[q].pc.id && s'.tickets[q] == s.tickets[q]
  }

  /** Everyone but perhaps p stays, p at most draws the next number, and turns only grow. */
  ghost predicate Draws(s: State, s': State, p: nat) {
    && Shape(s) && Shape(s') && |s'.procs| == |s.procs| && |s'.sems| == |s.sems| && p < |s.procs|
    && (forall q :: 0 <= q < |s.procs| && q != p ==> Stays(s, s', q))
    && (forall id :: 0 <= id < |s.sems| ==> LastTurn(s, id) <= LastTurn(s', id))
    && (Stays(s, s', p) || (
      && !s'.procs[p].pc.Idle?
      && Turn(s'.tickets[p]) == LastTurn(s', s'.procs[p].pc.id) == LastTurn(s, s'.procs[p].pc.id) + 1))
  }

  lemma DrawsOk(s: State, s': State, p: nat)
    requires TurnsOk(s) && Draws(s, s', p)
    ensures TurnsOk(s')
  {
    forall q | 0 <= q < |s.procs| && Queued(s'.procs[q])
      ensures Turn(s'.tickets[q]) <= LastTurn(s', s'.procs[q].pc.id)
    {
      assert q != p ==> Stays(s, s', q);
    }
    forall q, r | 0 <= q < |s.procs| && 0 <= r < |s.procs| && q != r && SameQueue(s', q, r)
      ensures Turn(s'.tickets[q]) != Turn(s'.tickets[r])
    {
      assert q != p ==> Stays(s, s', q);
      assert r != p ==> Stays(s, s', r);
      assert Stays(s, s', q) && Stays(s, s', r) ==> SameQueue(s, q, r);
    }
  }

  lemma DownDraws(s: State, s': State, p: nat)
    requires Shape(s) && Shape(s') && p < |s.procs| && DownStep(s, s', p) && ProcOk(s, p)
    ensures Draws(s, s', p)
  {
    DownOthers(s, s', p);
    DownTurn(s, s', p);
    hide ProcOk;
    hide DownStep;
  }

  lemma DownOthers(s: State, s': State, p: nat)
    requires Shape(s) && Shape(s') && p < |s.procs| && DownStep(s, s', p)
    ensures |s'.procs| == |s.procs| && |s'.sems| == |s.sems|
    ensures forall q :: 0 <= q < |s.procs| && q != p ==> s'.procs[q] == s.procs[q] && s'.tickets[q] == s.tickets[q]
    ensures forall id :: 0 <= id < |s.sems| ==> LastTurn(s, id) <= LastTurn(s', id)
  {
  }

  /** Down at most draws the next number. */
  lemma DownTurn(s: State, s': State, p: nat)
    requires Shape(s) && Shape(s') && p < |s.procs| && DownStep(s, s', p) && ProcOk(s, p)
    requires |s'.procs| == |s.procs| && |s'.sems| == |s.sems|
    ensures Stays(s, s', p) || (
      && !s'.procs[p].pc.Idle?
      && Turn(s'.tickets[p]) == LastTurn(s', s'.procs[p].pc.id) == LastTurn(s, s'.procs[p].pc.id) + 1)
  {
    hide Placed;
  }

  lemma SleepDraws(s: State, s': State, p: nat)
    requires Shape(s) && Shape(s') && p < |s.procs| && SleepStep(s, s', p) && ProcOk(s, p)
    ensures Draws(s, s', p)
  {
    hide Placed;
  }

  lemma UpStays(s: State, s': State, p: nat, q: nat)
    requires Shape(s) && Shape(s') && p < |s.procs| && UpStep(s, s', p) && q < |s.procs| == |s'.procs|
    ensures Stays(s, s', q)
  {
  }

  lemma UpTurns(s: State, s': State, p: nat)
    requires Shape(s) && Shape(s') && p < |s.procs| && UpStep(s, s', p) && |s'.sems| == |s.sems|
    ensures forall id :: 0 <= id < |s.sems| ==> LastTurn(s, id) <= LastTurn(s', id)
  {
  }

  lemma UpDraws(s: State, s': State, p: nat)
    requires Shape(s) && Shape(s') && p < |s.procs| && UpStep(s, s', p)
    ensures Draws(s, s', p)
  {
    hide UpStep;
    UpOthers(s, s', p);
    UpTurns(s, s', p);
    forall q: nat | q < |s.procs| ensures Stays(s, s', q) { UpStays(s, s', p, q); }
  }

  /** In every run, no two waiters have the same turn, so no up is the turn of two. */
  lemma {:induction false} RunTurns(run: seq<State>, i: nat)
    requires Run(run) && i < |run|
    ensures TurnsOk(run[i])
  {
    hide ProcOk;
    hide TurnsOk;
    if i == 0 {
      NoTurns(run[0]);
    } else {
      var s, s' := run[i - 1], run[i];
      RunTurns(run, i - 1);
      assert Next(s, s');
      var p: nat :| Step(s, s', p);
      RunProc(run, i - 1, p);
      RunProc(run, i, p);
      if DownStep(s, s', p) {
        DownDraws(s, s', p);
      } else if SleepStep(s, s', p) {
        SleepDraws(s, s', p);
      } else if UpStep(s, s', p) {
        UpDraws(s, s', p);
      } else {
        OtherDraws(s, s', p);
      }
      DrawsOk(s, s', p);
    }
  }

  lemma NoTurns(s: State)
    requires Init(s)
    ensures TurnsOk(s)
  {
  }

  lemma OtherDraws(s: State, s': State, p: nat)
    requires Shape(s) && Shape(s') && p < |s.procs| && (Call(s, s', p) || Kill(s, s', p))
    ensures Draws(s, s', p)
  {
  }

  lemma InvShape(s: State, v0: seq<int>)
    requires Inv(s, v0)
    ensures Shape(s)
  {
  }

  lemma DownProcs(s: State, s': State, t: nat)
    requires Shape(s) && t < |s.procs| && DownStep(s, s', t)
    ensures |s'.procs| == |s.procs| && |s'.sems| == |s.sems|
  {
  }

  lemma UpProcs(s: State, s': State, t: nat)
    requires Shape(s) && t < |s.procs| && UpStep(s, s', t)
    ensures |s'.procs| == |s.procs| && |s'.sems| == |s.sems|
  {
  }

  lemma StepProcs(s: State, s': State, t: nat)
    requires Step(s, s', t)
    ensures t < |s.procs| == |s'.procs| && |s'.sems| == |s.sems|
  {
    hide DownStep;
    hide UpStep;
    if DownStep(s, s', t) {
      DownProcs(s, s', t);
    } else if UpStep(s, s', t) {
      UpProcs(s, s', t);
    }
  }

  /** A process that has not queued found nobody waiting, and nobody does while it has the lock. */
  ghost predicate FirstCome(s: State, p: nat)
    requires Shape(s) && p < |s.procs|
  {
    var me := s.procs[p];
    (me.pc.DownTest? || me.pc.DownTake?) && me.waitingFor == -1 && me.pos == 0 ==> s.sems[me.pc.id].waiting == 0
  }

  /** Only the process that has a semaphore's lock changes how many wait for it. */
  ghost predicate WaitsKept(s: State, s': State, t: nat)
    requires Shape(s) && Shape(s') && |s'.sems| == |s.sems|
  {
    forall id :: 0 <= id < |s.sems| && s.locks[id] != t ==> s'.sems[id].waiting == s.sems[id].waiting
  }

  lemma DownWaits(s: State, s': State, t: nat)
    requires LocksOk(s) && Shape(s') && t < |s.procs| && |s'.sems| == |s.sems| && DownStep(s, s', t)
    ensures WaitsKept(s, s', t)
  {
  }

  lemma UpWaits(s: State, s': State, t: nat)
    requires LocksOk(s) && Shape(s') && t < |s.procs| && |s'.sems| == |s.sems| && UpStep(s, s', t)
    ensures WaitsKept(s, s', t)
  {
  }

  lemma DownCome(s: State, s': State, t: nat)
    requires Shape(s) && Shape(s') && t < |s.procs| == |s'.procs| && DownStep(s, s', t) && FirstCome(s, t)
    requires s.sems[s.procs[t].pc.id].waiting >= 0
    ensures FirstCome(s', t)
  {
    hide PcIn;
  }

  lemma SleepCome(s: State, s': State, t: nat)
    requires Shape(s) && Shape(s') && t < |s.procs| == |s'.procs| && SleepStep(s, s', t) && ProcOk(s, t)
    ensures |s'.sems| == |s.sems| && WaitsKept(s, s', t) && FirstCome(s', t)
    ensures forall q :: 0 <= q < |s.procs| && q != t ==> s'.procs[q] == s.procs[q]
  {
    hide Placed;
  }

  lemma UpCome(s: State, s': State, t: nat)
    requires Shape(s) && Shape(s') && t < |s.procs| == |s'.procs| && UpStep(s, s', t)
    ensures FirstCome(s', t)
    ensures forall q :: 0 <= q < |s.procs| && q != t ==> SameWait(s.procs[q], s'.procs[q])
  {
  }

  /** The same but for a place an up may have moved it to. */
  ghost predicate SameWait(p: Proc, p': Proc) {
    p'.pc == p.pc && p'.waitingFor == p.waitingFor && (p'.waitingFor == -1 ==> p'.pos == p.pos)
  }

  lemma OtherCome(s: State, s': State, t: nat, p: nat)
    requires LocksOk(s) && Shape(s') && t < |s.procs| == |s'.procs| && |s'.sems| == |s.sems| && p < |s.procs|
    requires p != t && SameWait(s.procs[p], s'.procs[p]) && WaitsKept(s, s', t) && FirstCome(s, p)
    ensures FirstCome(s', p)
  {
    if !s.procs[p].pc.Idle? {
      assert HeldOk(s, s.procs[p].pc.id);
    }
  }

  lemma StepCome(s: State, s': State, v0: seq<int>, t: nat, p: nat)
    requires Step(s, s', t) && Inv(s, v0) && Shape(s') && p < |s.procs| && FirstCome(s, p) && ProcOk(s, t)
    ensures |s'.procs| == |s.procs| && FirstCome(s', p)
  {
    hide Inv;
    hide ProcOk;
    hide DownStep;
    hide SleepStep;
    hide UpStep;
    StepProcs(s, s', t);
    if DownStep(s, s', t) {
      DownInside(s, s', t);
      InvParts(s, v0, s.procs[t].pc.id);
      DownOthers(s, s', t);
      DownWaits(s, s', t);
      if p == t {
        DownCome(s, s', t);
      } else {
        OtherCome(s, s', t, p);
      }
    } else if SleepStep(s, s', t) {
      DownInside(s, s', t);
      InvParts(s, v0, s.procs[t].pc.id);
      SleepCome(s, s', t);
      if p != t {
        OtherCome(s, s', t, p);
      }
    } else if UpStep(s, s', t) {
      UpInside(s, s', t);
      InvParts(s, v0, s.procs[t].pc.id);
      UpWaits(s, s', t);
      UpCome(s, s', t);
      if p != t {
        OtherCome(s, s', t, p);
      }
    }
  }

  /** In every run, a process that gets through without a number does so only when nobody is waiting for a turn. */
  lemma {:induction false} NoBarging(run: seq<State>, i: nat, p: nat)
    requires Run(run) && i < |run| && p < |run[i].procs|
    ensures Shape(run[i]) && FirstCome(run[i], p)
  {
    hide Inv;
    hide Init;
    hide DownStep;
    hide SleepStep;
    hide UpStep;
    RunSafe(run, i);
    InvShape(run[i], Values(run[0]));
    if i == 0 {
      NoneCome(run[0], p);
    } else {
      var s, s', v0 := run[i - 1], run[i], Values(run[0]);
      assert Next(s, s');
      var t: nat :| Step(s, s', t);
      StepProcs(s, s', t);
      NoBarging(run, i - 1, p);
      RunProc(run, i - 1, t);
      RunSafe(run, i - 1);
      StepCome(s, s', v0, t, p);
    }
  }

  lemma NoneCome(s: State, p: nat)
    requires Init(s) && p < |s.procs|
    ensures FirstCome(s, p)
  {
  }

  /** Every turn still to come, up to the last number drawn, is some waiter's. */
  ghost predicate FilledOk(s: State, id: nat)
    requires Shape(s) && id < |s.sems|
  {
    forall k :: s.ups[id] < k <= LastTurn(s, id) ==> SomeTurn(s, id, k)
  }

  ghost predicate SomeTurn(s: State, id: nat, k: int)
    requires Shape(s)
  {
    exists p :: HasTurn(s, p, id, k)
  }

  ghost predicate HasTurn(s: State, p: int, id: nat, k: int)
    requires Shape(s)
  {
    0 <= p < |s.procs| && Queued(s.procs[p]) && s.procs[p].pc.id == id && Turn(s.tickets[p]) == k
  }

  /** A process that gives up its turn, or draws another, had the turn of an up that has been. */
  lemma DownKept(s: State, s': State, t: nat, p: nat, id: nat, k: int)
    requires LocksOk(s) && Shape(s') && t < |s.procs| && DownStep(s, s', t) && |s'.procs| == |s.procs|
    requires id < |s.sems| && HasTurn(s, p, id, k) && s.ups[id] < k && ProcOk(s, p)
    ensures HasTurn(s', p, id, k)
  {
    if p == t {
      assert HoldsLock(s.procs[p].pc) && s.locks[id] == p && !Moved(s, id, p);
    } else {
      DownOthers(s, s', t);
      hide DownStep;
    }
  }

  lemma SleepKept(s: State, s': State, t: nat, p: nat, id: nat, k: int)
    requires Shape(s) && Shape(s') && t < |s.procs| && SleepStep(s, s', t) && |s'.procs| == |s.procs|
    requires id < |s.sems| && HasTurn(s, p, id, k) && ProcOk(s, p)
    ensures HasTurn(s', p, id, k)
  {
    hide Placed;
  }

  lemma UpKept(s: State, s': State, t: nat, p: nat, id: nat, k: int)
    requires Shape(s) && Shape(s') && t < |s.procs| && UpStep(s, s', t) && |s'.procs| == |s.procs|
    requires id < |s.sems| && HasTurn(s, p, id, k) && ProcOk(s, p)
    ensures HasTurn(s', p, id, k)
  {
    hide Placed;
  }

  lemma TurnKept(s: State, s': State, t: nat, p: nat, id: nat, k: int)
    requires LocksOk(s) && Shape(s') && Step(s, s', t) && |s'.procs| == |s.procs| && |s'.sems| == |s.sems|
    requires id < |s.sems| && HasTurn(s, p, id, k) && s.ups[id] < k && ProcOk(s, p)
    ensures HasTurn(s', p, id, k)
  {
    hide DownStep;
    hide SleepStep;
    hide UpStep;
    hide Placed;
    if DownStep(s, s', t) {
      DownKept(s, s', t, p, id, k);
    } else if SleepStep(s, s', t) {
      SleepKept(s, s', t, p, id, k);
    } else if UpStep(s, s', t) {
      UpKept(s, s', t, p, id, k);
    }
  }

  lemma DownDrawn(s: State, s': State, t: nat, id: nat)
    requires Shape(s) && Shape(s') && t < |s.procs| && DownStep(s, s', t) && |s'.procs| == |s.procs|
    requires id < |s.sems| == |s'.sems| && s.sems[id].waiting >= 0
    ensures s'.ups[id] == s.ups[id]
    ensures LastTurn(s', id) == LastTurn(s, id) ||
      (LastTurn(s', id) == LastTurn(s, id) + 1 && HasTurn(s', t, id, LastTurn(s', id)))
  {
    hide PcIn;
  }

  lemma UpDrawn(s: State, s': State, t: nat, id: nat)
    requires Shape(s) && Shape(s') && t < |s.procs| && UpStep(s, s', t) && |s'.sems| == |s.sems|
    requires id < |s.sems| && s.sems[id].waiting >= 0
    ensures s'.ups[id] >= s.ups[id] && (LastTurn(s', id) == LastTurn(s, id) || LastTurn(s', id) == s'.ups[id])
  {
    hide PcIn;
  }

  /** The last number drawn goes to the process that draws it; an up moves the last turn on only when nobody waits. */
  lemma TurnDrawn(s: State, s': State, t: nat, id: nat)
    requires LocksOk(s) && Shape(s') && Step(s, s', t) && |s'.procs| == |s.procs| && |s'.sems| == |s.sems|
    requires id < |s.sems| && s.sems[id].waiting >= 0
    ensures s'.ups[id] >= s.ups[id]
    ensures LastTurn(s', id) <= LastTurn(s, id) || LastTurn(s', id) <= s'.ups[id] ||
      (LastTurn(s', id) == LastTurn(s, id) + 1 && HasTurn(s', t, id, LastTurn(s', id)))
  {
    hide DownStep;
    hide UpStep;
    if DownStep(s, s', t) {
      DownDrawn(s, s', t, id);
    } else if UpStep(s, s', t) {
      UpDrawn(s, s', t, id);
    }
  }

  lemma FilledStep(s: State, s': State, t: nat, id: nat)
    requires LocksOk(s) && Shape(s') && Step(s, s', t) && |s'.procs| == |s.procs| && |s'.sems| == |s.sems|
    requires id < |s.sems| && s.sems[id].waiting >= 0 && FilledOk(s, id)
    requires forall p :: 0 <= p < |s.procs| ==> ProcOk(s, p)
    ensures FilledOk(s', id)
  {
    hide Step;
    hide ProcOk;
    TurnDrawn(s, s', t, id);
    forall k | s'.ups[id] < k <= LastTurn(s', id)
      ensures SomeTurn(s', id, k)
    {
      if k <= LastTurn(s, id) {
        assert SomeTurn(s, id, k);
        var p :| HasTurn(s, p, id, k);
        TurnKept(s, s', t, p, id, k);
      } else {
        assert HasTurn(s', t, id, k);
      }
    }
  }

  /**
   * The queue has no gap: in every run each of the numbers from the next up's on to the last one drawn is some
   * waiter's, and, by RunTurns, just one's. So waiting is the number of processes whose turn is still to come.
   */
  lemma {:induction false} RunFilled(run: seq<State>, i: nat, id: nat)
    requires Run(run) && i < |run| && id < |run[i].sems|
    ensures Shape(run[i]) && FilledOk(run[i], id)
  {
    hide Inv;
    hide Init;
    hide Step;
    hide FilledOk;
    RunSafe(run, i);
    InvShape(run[i], Values(run[0]));
    if i == 0 {
      NoneFilled(run[0], id);
    } else {
      var s, s', v0 := run[i - 1], run[i], Values(run[0]);
      assert Next(s, s');
      var t: nat :| Step(s, s', t);
      StepProcs(s, s', t);
      RunFilled(run, i - 1, id);
      RunSafe(run, i - 1);
      InvParts(s, v0, id);
      FilledStep(s, s', t, id);
    }
  }

  lemma InvParts(s: State, v0: seq<int>, id: nat)
    requires Inv(s, v0) && id < |s.sems|
    ensures LocksOk(s) && s.sems[id].waiting >= 0 && forall p :: 0 <= p < |s.procs| ==> ProcOk(s, p)
  {
    assert SemOk(s, v0, id);
  }

  lemma NoneFilled(s: State, id: nat)
    requires Init(s) && id < |s.sems|
    ensures FilledOk(s, id)
  {
  }

  /** An up at pc has taken the process table and knows, or is finding out, whom to wake. */
  predicate Finds(pc: Pc) { pc.UpScan? || pc.UpSet? || pc.UpWake? }

  /** A process asleep at place 0 has an up under way that is going to wake it. */
  ghost predicate DueOk(s: State, p: nat)
    requires Shape(s) && p < |s.procs|
  {
    var me := s.procs[p];
    me.pc.Parked? && me.asleep && me.pos == 0 ==>
      var u := s.locks[me.pc.id];
      0 <= u < |s.procs| && Finds(s.procs[u].pc) && s.procs[u].pc.id == me.pc.id && s.procs[u].pc.first == p
  }

  /** The process that an up is going to wake is at place 0. */
  ghost predicate FirstOk(s: State, u: nat)
    requires Shape(s) && u < |s.procs|
  {
    var pc := s.procs[u].pc;
    Finds(pc) && pc.first >= 0 ==>
      && pc.first != u && s.procs[pc.first].waitingFor == pc.id && s.procs[pc.first].pos == 0
      && (pc.UpScan? ==> pc.first < pc.i)
  }

  /** No process goes to sleep at place 0. */
  ghost predicate FreshOk(s: State, p: nat)
    requires Shape(s) && p < |s.procs|
  {
    s.procs[p].pc.DownSleep? || s.procs[p].pc.DownUnlock? || s.procs[p].pc.DownPark? ==> s.procs[p].pos != 0
  }

  ghost predicate WakeOk(s: State) {
    && Shape(s)
    && (forall p :: 0 <= p < |s.procs| ==> DueOk(s, p))
    && (forall p :: 0 <= p < |s.procs| ==> FirstOk(s, p))
    && (forall p :: 0 <= p < |s.procs| ==> FreshOk(s, p))
  }

  ghost predicate WakeAt(s: State, p: nat)
    requires Shape(s) && p < |s.procs|
  {
    DueOk(s, p) && FirstOk(s, p) && FreshOk(s, p)
  }

  /** Process t, which is doing no up, moves alone; it does not fall asleep at place 0. */
  ghost predicate Aside(s: State, s': State, t: nat, id: nat) {
    && Shape(s) && Shape(s') && t < |s.procs| && Moves(s, s', t, id) && Locks(s, s', t, id)
    && (forall q :: 0 <= q < |s.procs| && q != t ==> s'.procs[q] == s.procs[q])
    && !Finds(s.procs[t].pc) && (Finds(s'.procs[t].pc) ==> s'.procs[t].pc.first == -1) && FreshOk(s', t)
    && (s'.procs[t].pc.Parked? && s'.procs[t].asleep ==> s'.procs[t].pos != 0)
    && (s.procs[t].waitingFor == id && s'.procs[t] != s.procs[t] ==>
      HoldsLock(s.procs[t].pc) || HoldsTable(s.procs[t].pc) || s.ptable == -1 || s.locks[id] == -1)
    && (s.procs[t].waitingFor >= 0 ==> s.procs[t].waitingFor == id)
  }

  /** It leaves every promise to wake somebody as it was. */
  lemma AsideWakes(s: State, s': State, t: nat, id: nat, p: nat)
    requires LocksOk(s) && WakeOk(s) && Aside(s, s', t, id) && p < |s.procs|
    ensures WakeAt(s', p)
  {
    assert WakeAt(s, p) && HeldOk(s, id);
    if !s.procs[p].pc.Idle? {
      assert HeldOk(s, s.procs[p].pc.id);
    }
  }

  /** Where a down leaves its own process. */
  lemma DownLeaves(s: State, s': State, t: nat)
    requires Shape(s) && Shape(s') && t < |s.procs| == |s'.procs| && DownStep(s, s', t) && ProcOk(s, t)
    requires s.sems[s.procs[t].pc.id].waiting >= 0
    ensures !Finds(s.procs[t].pc) && !Finds(s'.procs[t].pc) && !s'.procs[t].pc.Parked? && FreshOk(s', t)
    ensures s.procs[t].waitingFor >= 0 ==> s.procs[t].waitingFor == s.procs[t].pc.id && HoldsLock(s.procs[t].pc)
  {
    hide Placed;
    hide PcIn;
  }

  lemma DownAside(s: State, s': State, t: nat)
    requires LocksOk(s) && Shape(s') && t < |s.procs| == |s'.procs| && DownStep(s, s', t) && ProcOk(s, t)
    requires Moves(s, s', t, s.procs[t].pc.id) && Locks(s, s', t, s.procs[t].pc.id)
    requires s.sems[s.procs[t].pc.id].waiting >= 0
    ensures Aside(s, s', t, s.procs[t].pc.id)
  {
    hide HeldOk;
    hide ProcOk;
    hide DownStep;
    hide FreshOk;
    DownInside(s, s', t);
    DownOthers(s, s', t);
    DownLeaves(s, s', t);
  }

  lemma SleepAside(s: State, s': State, t: nat)
    requires LocksOk(s) && Shape(s') && t < |s.procs| == |s'.procs| && SleepStep(s, s', t) && ProcOk(s, t)
    requires Moves(s, s', t, s.procs[t].pc.id) && Locks(s, s', t, s.procs[t].pc.id) && FreshOk(s, t)
    ensures Aside(s, s', t, s.procs[t].pc.id)
  {
    hide Placed;
    hide Locks;
    hide Moves;
    hide HeldOk;
  }

  /** Before it looks for whom to wake, and after it has, an up leaves every such promise as it was. */
  lemma UpAside(s: State, s': State, t: nat)
    requires LocksOk(s) && Shape(s') && t < |s.procs| == |s'.procs| && UpStep(s, s', t) && !Finds(s.procs[t].pc)
    requires Moves(s, s', t, s.procs[t].pc.id) && Locks(s, s', t, s.procs[t].pc.id) && ProcOk(s, t)
    ensures Aside(s, s', t, s.procs[t].pc.id)
  {
    hide Placed;
    hide HeldOk;
  }

  /** The loop's turn at q. */
  lemma ScanStep(s: State, s': State, t: nat, q: nat)
    requires Shape(s) && t < |s.procs| && UpStep(s, s', t) && s.procs[t].pc.UpScan? && s.procs[t].pc.i == q < |s.procs|
    ensures
      var pc, moves := s.procs[t].pc, q != t && s.procs[q].waitingFor == s.procs[t].pc.id;
      && |s'.procs| == |s.procs| && s'.locks == s.locks
      && s'.procs[t].pc == UpScan(pc.id, q + 1, if moves && s.procs[q].pos == 1 then q else pc.first)
      && s'.procs[t] == s.procs[t].(pc := s'.procs[t].pc)
      && (q != t ==> s'.procs[q] == s.procs[q].(pos := s.procs[q].pos - Bit(moves)))
      && forall r :: 0 <= r < |s.procs| && r != t && r != q ==> s'.procs[r] == s.procs[r]
  {
  }

  /** Two waiters cannot both come to place 0 in the same turn of an up. */
  lemma NoTwoFirst(s: State, t: nat, p: nat, q: nat)
    requires LocksOk(s) && TurnsOk(s) && t < |s.procs| && p < |s.procs| && q < |s.procs| && p != q
    requires s.procs[t].pc.UpScan? && s.procs[t].pc.i == q && p < q
    requires ProcOk(s, p) && ProcOk(s, q) && s.procs[p].waitingFor == s.procs[q].waitingFor == s.procs[t].pc.id
    requires p != t && q != t
    ensures s.procs[p].pos != 0 || s.procs[q].pos != 1
  {
    var id := s.procs[t].pc.id;
    assert s.locks[id] == t;
    assert Waits(s.procs[p].pc) && Waits(s.procs[q].pc) && SameQueue(s, p, q);
    assert Moved(s, id, p) && !Moved(s, id, q);
  }

  lemma ScanDue(s: State, s': State, t: nat, p: nat)
    requires LocksOk(s) && WakeOk(s) && TurnsOk(s) && Shape(s') && t < |s.procs| == |s'.procs| && p < |s.procs|
    requires UpStep(s, s', t) && s.procs[t].pc.UpScan? && s.procs[t].pc.i < |s.procs|
    requires forall q :: 0 <= q < |s.procs| ==> ProcOk(s, q)
    ensures DueOk(s', p)
  {
    hide Placed;
    hide UpStep;
    hide FreshOk;
    var pc := s.procs[t].pc;
    var q := pc.i;
    ScanStep(s, s', t, q);
    assert DueOk(s, p) && FirstOk(s, t) && HeldOk(s, pc.id) && s.locks[pc.id] == t;
    assert ProcOk(s, p) && ProcOk(s, q);
    if s'.procs[t].pc.first == q && pc.first >= 0 && pc.first != q {
      NoTwoFirst(s, t, pc.first, q);
    }
    if !s.procs[p].pc.Idle? {
      assert HeldOk(s, s.procs[p].pc.id);
    }
  }

  lemma ScanWakes(s: State, s': State, t: nat, p: nat)
    requires LocksOk(s) && WakeOk(s) && TurnsOk(s) && Shape(s') && t < |s.procs| == |s'.procs| && p < |s.procs|
    requires UpStep(s, s', t) && s.procs[t].pc.UpScan? && s.procs[t].pc.i < |s.procs|
    requires forall q :: 0 <= q < |s.procs| ==> ProcOk(s, q)
    ensures WakeAt(s', p)
  {
    hide Placed;
    hide UpStep;
    hide DueOk;
    hide TurnsOk;
    ScanDue(s, s', t, p);
    var pc := s.procs[t].pc;
    ScanStep(s, s', t, pc.i);
    assert FirstOk(s, p) && FreshOk(s, p) && ProcOk(s, p) && ProcOk(s, pc.i) && s.locks[pc.id] == t;
  }

  lemma WokenOk(s: State, s': State, t: nat, p: nat)
    requires LocksOk(s) && WakeOk(s) && Shape(s') && t < |s.procs| == |s'.procs| && p < |s.procs| && UpStep(s, s', t)
    requires Finds(s.procs[t].pc) && !(s.procs[t].pc.UpScan? && s.procs[t].pc.i < |s.procs|)
    ensures WakeAt(s', p)
  {
    assert WakeAt(s, p) && WakeAt(s, t) && HeldOk(s, s.procs[t].pc.id) && s.locks[s.procs[t].pc.id] == t;
    if !s.procs[p].pc.Idle? {
      assert HeldOk(s, s.procs[p].pc.id);
    }
  }

  lemma CallAside(s: State, s': State, t: nat)
    requires LocksOk(s) && Shape(s') && t < |s.procs| == |s'.procs| && Call(s, s', t) && ProcOk(s, t)
    ensures !s'.procs[t].pc.Idle? && Aside(s, s', t, s'.procs[t].pc.id)
  {
    hide HeldOk;
  }

  lemma KillWakes(s: State, s': State, t: nat, p: nat)
    requires WakeOk(s) && Shape(s') && t < |s.procs| == |s'.procs| && p < |s.procs| && Kill(s, s', t)
    ensures WakeAt(s', p)
  {
    assert WakeAt(s, p);
  }

  lemma StepWakes(s: State, s': State, v0: seq<int>, t: nat, p: nat)
    requires Inv(s, v0) && Inv(s', v0) && WakeOk(s) && TurnsOk(s) && Step(s, s', t) && p < |s.procs| == |s'.procs|
    ensures WakeAt(s', p)
  {
    hide WakeOk;
    hide WakeAt;
    hide TurnsOk;
    hide DownStep;
    hide SleepStep;
    hide UpStep;
    hide Placed;
    assert ProcOk(s, t);
    if DownStep(s, s', t) {
      DownInside(s, s', t);
      var id := s.procs[t].pc.id;
      DownMoves(s, s', t);
      DownLocks(s, s', t);
      assert SemOk(s, v0, id);
      DownAside(s, s', t);
      AsideWakes(s, s', t, id, p);
    } else if SleepStep(s, s', t) {
      DownInside(s, s', t);
      var id := s.procs[t].pc.id;
      SleepMoves(s, s', t);
      WakeFresh(s, t);
      SleepAside(s, s', t);
      AsideWakes(s, s', t, id, p);
    } else if UpStep(s, s', t) {
      UpInside(s, s', t);
      UpMoves(s, s', t);
      UpLocks(s, s', t);
      if !Finds(s.procs[t].pc) {
        UpAside(s, s', t);
        AsideWakes(s, s', t, s.procs[t].pc.id, p);
      } else if s.procs[t].pc.UpScan? && s.procs[t].pc.i < |s.procs| {
        ScanWakes(s, s', t, p);
      } else {
        WokenOk(s, s', t, p);
      }
    } else if Call(s, s', t) {
      CallAside(s, s', t);
      AsideWakes(s, s', t, s'.procs[t].pc.id, p);
    } else {
      KillWakes(s, s', t, p);
    }
  }

  lemma WakeFresh(s: State, t: nat)
    requires WakeOk(s) && t < |s.procs|
    ensures FreshOk(s, t)
  {
  }

  lemma NoneDue(s: State)
    requires Init(s)
    ensures WakeOk(s)
  {
  }

  lemma AllAwake(s: State)
    requires Shape(s) && forall p: nat | p < |s.procs| :: WakeAt(s, p)
    ensures WakeOk(s)
  {
    forall p | 0 <= p < |s.procs| ensures DueOk(s, p) && FirstOk(s, p) && FreshOk(s, p) { assert WakeAt(s, p); }
  }

  /** In every run, a process asleep at place 0 is about to be woken, and whom an up is about to wake is at place 0. */
  lemma {:induction false} RunWakes(run: seq<State>, i: nat)
    requires Run(run) && i < |run|
    ensures WakeOk(run[i])
  {
    hide Inv;
    hide Init;
    hide WakeOk;
    hide TurnsOk;
    hide Step;
    hide WakeAt;
    if i == 0 {
      NoneDue(run[0]);
    } else {
      var s, s', v0 := run[i - 1], run[i], Values(run[0]);
      RunWakes(run, i - 1);
      RunTurns(run, i - 1);
      RunSafe(run, i - 1);
      RunSafe(run, i);
      assert Next(s, s');
      var t: nat :| Step(s, s', t);
      StepProcs(s, s', t);
      InvShape(s, v0);
      InvShape(s', v0);
      forall p: nat | p < |s'.procs| ensures WakeAt(s', p) { StepWakes(s, s', v0, t, p); }
      AllAwake(s');
    }
  }

  ghost predicate GoingToWake(pc: Pc, id: nat, p: nat) { Finds(pc) && pc.id == id && pc.first == p }

  /**
   * Which waiter an up wakes: in every state of every run a process that sleeps at place 0 on semaphore id
   * has an up on id under way that is going to wake it.
   */
  lemma NoneForgotten(run: seq<State>, i: nat, p: nat)
    requires Run(run) && i < |run| && p < |run[i].procs|
    requires run[i].procs[p].pc.Parked? && run[i].procs[p].asleep && run[i].procs[p].pos == 0
    ensures exists u: nat :: u < |run[i].procs| && GoingToWake(run[i].procs[u].pc, run[i].procs[p].pc.id, p)
  {
    RunWakes(run, i);
    assert DueOk(run[i], p);
    var u := run[i].locks[run[i].procs[p].pc.id];
    assert GoingToWake(run[i].procs[u].pc, run[i].procs[p].pc.id, p);
  }

  lemma DownSleepers(s: State, s': State, t: nat, p: nat)
    requires Shape(s) && t < |s.procs| && (DownStep(s, s', t) || SleepStep(s, s', t)) && p < |s.procs| == |s'.procs|
    ensures s.procs[p].asleep ==> s'.procs[p].asleep
  {
    hide PcIn;
  }

  lemma UpSleepers(s: State, s': State, t: nat, p: nat)
    requires Shape(s) && t < |s.procs| && UpStep(s, s', t) && p < |s.procs| == |s'.procs|
    ensures s.procs[p].asleep && !s'.procs[p].asleep ==> s.procs[t].pc.UpWake? && s.procs[t].pc.first == p
  {
  }

  lemma WakeFirst(s: State, t: nat)
    requires WakeOk(s) && t < |s.procs|
    ensures FirstOk(s, t)
  {
  }

  /** And it wakes no other: a process stops sleeping when it is killed, or at place 0 by an up on its semaphore. */
  lemma WokenInTurn(run: seq<State>, i: nat, t: nat, p: nat)
    requires Run(run) && i + 1 < |run| && Step(run[i], run[i + 1], t) && p < |run[i].procs| == |run[i + 1].procs|
    requires run[i].procs[p].asleep && !run[i + 1].procs[p].asleep
    ensures
      var s, pc := run[i], run[i].procs[t].pc;
      || (p == t && Kill(s, run[i + 1], t))
      || (pc.UpWake? && pc.id == s.procs[p].waitingFor && pc.first == p && s.procs[p].pos == 0)
  {
    hide Run;
    hide WakeOk;
    hide DownStep;
    hide SleepStep;
    hide UpStep;
    RunWakes(run, i);
    var s, s' := run[i], run[i + 1];
    if DownStep(s, s', t) || SleepStep(s, s', t) {
      DownSleepers(s, s', t, p);
    } else if UpStep(s, s', t) {
      UpSleepers(s, s', t, p);
      WakeFirst(s, t);
    }
  }

  /** A process at pc has found the semaphore there. */
  predicate Past(pc: Pc) {
    pc.DownTake? || pc.DownSleep? || pc.DownUnlock? || pc.DownPark? || pc.Parked? || pc.DownReacquire? || Finds(pc)
  }

  /** What a down or an up returns, or is about to: success exactly if there is such a semaphore. */
  ghost predicate AnswerOk(s: State, p: nat)
    requires Shape(s) && p < |s.procs|
  {
    var pc := s.procs[p].pc;
    && (Past(pc) ==> s.sems[pc.id].created)
    && (pc.DownRelease? || pc.UpRelease? ==> (pc.ok <==> s.sems[pc.id].created))
  }

  /** Nobody but t moves on, no semaphore comes or goes, and one that is not there stays as it is. */
  ghost predicate Answers(s: State, s': State, t: nat)
    requires Shape(s) && Shape(s')
  {
    && |s'.sems| == |s.sems| && |s'.procs| == |s.procs|
    && (forall q :: 0 <= q < |s.procs| && q != t ==> s'.procs[q].pc == s.procs[q].pc)
    && (forall id :: 0 <= id < |s.sems| ==> s'.sems[id].created == s.sems[id].created)
    && forall id :: 0 <= id < |s.sems| && !s.sems[id].created && s.sems[id].waiting == 0 ==>
      s'.sems[id] == s.sems[id] && s'.ups[id] == s.ups[id] && s'.takes[id] == s.takes[id]
  }

  lemma DownAnswers(s: State, s': State, t: nat)
    requires Shape(s) && Shape(s') && t < |s.procs| && DownStep(s, s', t) && AnswerOk(s, t)
    ensures Answers(s, s', t) && AnswerOk(s', t)
  {
  }

  lemma SleepAnswers(s: State, s': State, t: nat)
    requires Shape(s) && Shape(s') && t < |s.procs| && SleepStep(s, s', t) && AnswerOk(s, t)
    ensures Answers(s, s', t) && AnswerOk(s', t)
  {
  }

  lemma UpAnswers(s: State, s': State, t: nat)
    requires Shape(s) && Shape(s') && t < |s.procs| && UpStep(s, s', t) && AnswerOk(s, t)
    ensures Answers(s, s', t) && AnswerOk(s', t)
  {
  }

  lemma OtherAnswers(s: State, s': State, t: nat)
    requires Shape(s) && Shape(s') && t < |s.procs| && (Call(s, s', t) || Kill(s, s', t)) && AnswerOk(s, t)
    ensures Answers(s, s', t) && AnswerOk(s', t)
  {
  }

  lemma StepAnswers(s: State, s': State, t: nat)
    requires Step(s, s', t) && Shape(s') && AnswerOk(s, t)
    ensures Answers(s, s', t) && AnswerOk(s', t)
  {
    hide DownStep;
    hide SleepStep;
    hide UpStep;
    if DownStep(s, s', t) {
      DownAnswers(s, s', t);
    } else if SleepStep(s, s', t) {
      SleepAnswers(s, s', t);
    } else if UpStep(s, s', t) {
      UpAnswers(s, s', t);
    } else {
      OtherAnswers(s, s', t);
    }
  }

  /** All that is about to be returned, and all semaphores that are not there. */
  ghost predicate AnswersOk(s0: State, s: State) {
    && Shape(s) && |s.sems| == |s0.sems| && (forall p :: 0 <= p < |s.procs| ==> AnswerOk(s, p))
    && forall id :: 0 <= id < |s.sems| && !s0.sems[id].created ==>
      s.sems[id] == s0.sems[id] && s.sems[id].waiting == 0 && s.ups[id] == s.takes[id] == 0
  }

  /** In every run downs and ups succeed exactly if there is such a semaphore; if not, they do nothing. */
  lemma {:induction false} RunAnswers(run: seq<State>, i: nat)
    requires Run(run) && i < |run|
    ensures AnswersOk(run[0], run[i])
  {
    hide Inv;
    hide Step;
    hide AnswerOk;
    RunSafe(run, i);
    InvShape(run[i], Values(run[0]));
    if i == 0 {
      NoAnswers(run[0]);
    } else {
      RunAnswers(run, i - 1);
      var s, s' := run[i - 1], run[i];
      assert Next(s, s');
      var t: nat :| Step(s, s', t);
      StepProcs(s, s', t);
      StepAnswers(s, s', t);
      forall p | 0 <= p < |s'.procs| ensures AnswerOk(s', p) {
        assert AnswerOk(s, p);
        if p != t {
          SameAnswer(s, s', t, p);
        }
      }
    }
  }

  lemma NoAnswers(s: State)
    requires Init(s) && Shape(s)
    ensures AnswersOk(s, s)
  {
  }

  lemma SameAnswer(s: State, s': State, t: nat, p: nat)
    requires Shape(s) && Shape(s') && Answers(s, s', t) && p < |s.procs| && p != t && AnswerOk(s, p)
    ensures AnswerOk(s', p)
  {
  }

  lemma DownParked(s: State, s': State, t: nat, p: nat)
    requires Shape(s) && Shape(s') && t < |s.procs| && p < |s.procs| && s.procs[p].pc.Parked? && s.procs[p].asleep
    requires DownStep(s, s', t) || SleepStep(s, s', t)
    ensures |s'.procs| == |s.procs| && s'.procs[p].pc == s.procs[p].pc
  {
  }

  lemma UpParked(s: State, s': State, t: nat, p: nat)
    requires Shape(s) && Shape(s') && t < |s.procs| && p < |s.procs| && s.procs[p].pc.Parked? && UpStep(s, s', t)
    ensures |s'.procs| == |s.procs| && s'.procs[p].pc == s.procs[p].pc
  {
  }

  /** While it is asleep a process goes nowhere. */
  lemma SleepsOn(run: seq<State>, i: nat, p: nat)
    requires Run(run) && i + 1 < |run| && p < |run[i].procs|
    requires run[i].procs[p].pc.Parked? && run[i].procs[p].asleep
    ensures |run[i + 1].procs| == |run[i].procs| && run[i + 1].procs[p].pc == run[i].procs[p].pc
  {
    hide Inv;
    hide DownStep;
    hide SleepStep;
    hide UpStep;
    RunSafe(run, i);
    RunSafe(run, i + 1);
    InvShape(run[i], Values(run[0]));
    InvShape(run[i + 1], Values(run[0]));
    var s, s' := run[i], run[i + 1];
    assert Next(s, s');
    var t: nat :| Step(s, s', t);
    if UpStep(s, s', t) {
      UpParked(s, s', t, p);
    } else if DownStep(s, s', t) || SleepStep(s, s', t) {
      DownParked(s, s', t, p);
    }
  }

  /** More ups have come than the number the waiter drew. */
  ghost predicate Overtaken(s: State, p: nat) {
    && Shape(s) && p < |s.procs| && s.procs[p].pos < 0
    && (Waits(s.procs[p].pc) || s.procs[p].pc.DownTest?)
  }

  /** A waiter is overtaken exactly when the loop of an up finds its place at 0 already. */
  lemma OvertakenWhen(s: State, s': State, p: nat, q: nat)
    requires Step(s, s', q) && Shape(s') && p < |s.procs| && ProcOk(s, p) && Waits(s.procs[p].pc)
    ensures !Overtaken(s, p) && Overtaken(s', p) <==>
      p != q && UpStep(s, s', q) && s.procs[q].pc.UpScan? && s.procs[q].pc.i == p &&
      s.procs[q].pc.id == s.procs[p].pc.id && s.procs[p].pos == 0
  {
    hide Placed;
    if UpStep(s, s', q) {
      NotHurried(s, s', p, q);
    }
  }

  /** A waiter once overtaken never returns from its down, whatever happens later. */
  lemma {:induction false} NeverReturns(run: seq<State>, p: nat, i: nat, j: nat)
    requires Run(run) && i <= j < |run| && Overtaken(run[i], p)
    ensures Overtaken(run[j], p) && run[j].procs[p].pc.id == run[i].procs[p].pc.id
  {
    hide Inv;
    hide Step;
    hide Init;
    if i < j {
      NeverReturns(run, p, i, j - 1);
      RunProc(run, j - 1, p);
      assert Next(run[j - 1], run[j]);
      var q: nat :| Step(run[j - 1], run[j], q);
      RunProc(run, j, q);
      StillOvertaken(run[j - 1], run[j], p, q);
    }
  }

  /** One semaphore; process 0, which calls down, as given, and process 1, which calls up, at pc. */
  function Pair(p: Proc, pc: Pc, sem: Sem, lock: int, ptable: int, ups: int): State {
    State([sem], [lock], ptable, [p, Proc(pc, false, -1, 0)], [ups], [0],
          [if p.waitingFor == 0 then Ticket(1, 0) else Ticket(0, 0), Ticket(0, 0)])
  }

  /**
   * A run in which process 0 finds the semaphore closed and sleeps; process 1 does an up, which wakes
   * it, and before it runs begins another.
   */
  function Starving(i: nat): State
    requires i <= 20
  {
    var shut, wait, open := Sem(0, true, 0), Sem(0, true, 1), Sem(1, true, 0);
    var asleep, woken := Proc(Parked(0), true, 0, 1), Proc(Parked(0), false, 0, 0);
    match i
    case 0 => Pair(Proc(Idle, false, -1, 0), Idle, shut, -1, -1, 0)
    case 1 => Pair(Proc(DownAcquire(0), false, -1, 0), Idle, shut, -1, -1, 0)
    case 2 => Pair(Proc(DownQueue(0), false, -1, 0), Idle, shut, 0, -1, 0)
    case 3 => Pair(Proc(DownTest(0), false, -1, 0), Idle, shut, 0, -1, 0)
    case 4 => Pair(Proc(DownSleep(0), false, 0, 1), Idle, wait, 0, -1, 0)
    case 5 => Pair(Proc(DownUnlock(0), false, 0, 1), Idle, wait, 0, 0, 0)
    case 6 => Pair(Proc(DownPark(0), false, 0, 1), Idle, wait, -1, 0, 0)
    case 7 => Pair(asleep, Idle, wait, -1, -1, 0)
    case 8 => Pair(asleep, UpAcquire(0), wait, -1, -1, 0)
    case 9 => Pair(asleep, UpCheck(0), wait, 1, -1, 0)
    case 10 => Pair(asleep, UpScan(0, 0, -1), wait, 1, 1, 0)
    case 11 => Pair(asleep.(pos := 0), UpScan(0, 1, 0), wait, 1, 1, 0)
    case 12 => Pair(asleep.(pos := 0), UpScan(0, 2, 0), wait, 1, 1, 0)
    case 13 => Pair(asleep.(pos := 0), UpSet(0, 0), wait, 1, 1, 0)
    case 14 => Pair(asleep.(pos := 0), UpWake(0, 0), open, 1, 1, 1)
    case 15 => Pair(woken, UpRelease(0, true), open, 1, -1, 1)
    case 16 => Pair(woken, Idle, open, -1, -1, 1)
    case 17 => Pair(woken, UpAcquire(0), open, -1, -1, 1)
    case 18 => Pair(woken, UpCheck(0), open, 1, -1, 1)
    case 19 => Pair(woken, UpScan(0, 0, -1), open, 1, 1, 1)
    case 20 => Pair(woken.(pos := -1), UpScan(0, 1, -1), open, 1, 1, 1)
  }

  lemma CallsDown(i: nat)
    requires i < 2
    ensures Next(Starving(i), Starving(i + 1))
  {
    if i == 0 { assert Starving(1) == Move(Starving(0), 0, DownAcquire(0)); }
    assert Step(Starving(i), Starving(i + 1), 0);
  }

  lemma QueuesUp(i: nat)
    requires 2 <= i < 4
    ensures Next(Starving(i), Starving(i + 1))
  {
    assert Step(Starving(i), Starving(i + 1), 0);
  }

  lemma FallsAsleep(i: nat)
    requires 4 <= i < 7
    ensures Next(Starving(i), Starving(i + 1))
  {
    assert Step(Starving(i), Starving(i + 1), 0);
  }

  lemma IsMovedUp(i: nat)
    requires 7 <= i < 11
    ensures Next(Starving(i), Starving(i + 1))
  {
    assert Step(Starving(i), Starving(i + 1), 1);
  }

  lemma IsWoken(i: nat)
    requires 11 <= i < 15
    ensures Next(Starving(i), Starving(i + 1))
  {
    assert Step(Starving(i), Starving(i + 1), 1);
  }

  lemma ComesBack(i: nat)
    requires 15 <= i < 18
    ensures Next(Starving(i), Starving(i + 1))
  {
    if i == 16 { assert Starving(17) == Move(Starving(16), 1, UpAcquire(0)); }
    assert Step(Starving(i), Starving(i + 1), 1);
  }

  lemma IsPassed(i: nat)
    requires 18 <= i < 20
    ensures Next(Starving(i), Starving(i + 1))
  {
    assert Step(Starving(i), Starving(i + 1), 1);
  }

  /** Two processes and one up too many are enough: from its last state on, process 0 waits for ever. */
  lemma Starves() returns (run: seq<State>)
    ensures Run(run) && |run| == 21 && run[0] == Starving(0) && Overtaken(run[20], 0)
    ensures forall more: seq<State>, j: nat | Run(run + more) && 20 <= j < 21 + |more| :: Overtaken((run + more)[j], 0)
  {
    run := seq(21, i requires 0 <= i <= 20 => Starving(i));
    forall i: nat | i < 20
      ensures Next(run[i], run[i + 1])
    {
      if i < 2 {
        CallsDown(i);
      } else if i < 4 {
        QueuesUp(i);
      } else if i < 7 {
        FallsAsleep(i);
      } else if i < 11 {
        IsMovedUp(i);
      } else if i < 15 {
        IsWoken(i);
      } else if i < 18 {
        ComesBack(i);
      } else {
        IsPassed(i);
      }
    }
    forall more: seq<State>, j: nat | Run(run + more) && 20 <= j < 21 + |more|
      ensures Overtaken((run + more)[j], 0)
    {
      NeverReturns(run + more, 0, 20, j);
    }
  }

  lemma RunProc(run: seq<State>, i: nat, p: nat)
    requires Run(run) && i < |run|
    ensures Shape(run[i]) && (p < |run[i].procs| ==> ProcOk(run[i], p))
  {
    RunSafe(run, i);
  }

  lemma StillOvertaken(s: State, s': State, p: nat, q: nat)
    requires Overtaken(s, p) && Step(s, s', q) && Shape(s') && ProcOk(s, p)
    ensures Overtaken(s', p) && s'.procs[p].pc.id == s.procs[p].pc.id
  {
    assert s.procs[p].pc.DownTest? ==> s.sems[s.procs[p].pc.id].created;
    hide ProcOk;
    if UpStep(s, s', q) {
      NotHurried(s, s', p, q);
    } else if Call(s, s', q) || Kill(s, s', q) {
    } else if q != p {
    }
  }

  /** An up moves a waiting process's place down only. */
  lemma NotHurried(s: State, s': State, p: nat, q: nat)
    requires Shape(s) && p < |s.procs| && q < |s.procs| && UpStep(s, s', q) && p != q
    ensures |s'.procs| == |s.procs| && s'.procs[p].pc == s.procs[p].pc && s'.procs[p].pos <= s.procs[p].pos
  {
  }

  const SEMAPHORES := 128

  /** The table of semaphores; an identifier is an index into it. */
  class SemTable {
    var sems: seq<Sem>

    constructor ()
      ensures |sems| == SEMAPHORES
      ensures forall id :: 0 <= id < SEMAPHORES ==> sems[id] == Sem(0, false, 0)
    {
      sems := seq(SEMAPHORES, _ => Sem(0, false, 0));
    }

    /** Takes the first free entry, or says -1 exactly when there is none. */
    method Create(initial: int) returns (id: int)
      requires |sems| == SEMAPHORES
      modifies this
      ensures id == -1 <==> forall k :: 0 <= k < SEMAPHORES ==> old(sems)[k].created
      ensures id == -1 ==> sems == old(sems)
      ensures id != -1 ==>
        && 0 <= id < SEMAPHORES && !old(sems)[id].created
        && (forall k :: 0 <= k < id ==> old(sems)[k].created)
        && sems == old(sems)[id := old(sems)[id].(created := true, value := initial)]
    {
      var i := 0;
      while i < SEMAPHORES
        invariant 0 <= i <= SEMAPHORES && sems == old(sems)
        invariant forall k :: 0 <= k < i ==> sems[k].created
      {
        if sems[i].created {
          i := i + 1;
          continue;
        }
        sems := sems[i := sems[i].(created := true, value := initial)];
        return i;
      }
      return -1;
    }
  }
}
