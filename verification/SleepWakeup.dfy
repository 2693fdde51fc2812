/**
 * sleep and wakeup. Any number of processes wait for conditions and make them true; each
 * condition has a channel and a lock it is tested and changed under. Several channels may share
 * a lock, and the lock may be the process table's own. Every lock operation, every store and
 * every turn of wakeup1's loop is a step of its own; kill may wake a sleeper at any time.
 */
module SleepWakeup {
  /** The process table's lock. */
  const PTABLE: nat := 0

  /** Where a process stands: the name is the action it does next; c is the channel. */
  datatype Pc =
    | Idle
    // Waiting for a condition: acquire, then test and sleep in a loop.
    | Acquire(c: nat) | Test(c: nat)
    | SleepTable(c: nat) | SleepUnlock(c: nat) | SetChan(c: nat) | SetState(c: nat) | Sched(c: nat)
    | Asleep(c: nat) | ClearChan(c: nat) | FreeTable(c: nat) | Relock(c: nat)
    | Use(c: nat) | Unlock(c: nat)
    // Making a condition true: acquire, set, then wake with the lock held or after giving it back.
    | AcquireToSet(c: nat) | Set(c: nat) | UnlockToWake(c: nat)
    | WakeTable(c: nat, locked: bool) | Scan(c: nat, i: nat, locked: bool)
    // kill
    | KillTable(q: nat) | Kill(q: nat) | KillDone

  /** chan is -1 for none. */
  datatype Proc = Proc(pc: Pc, sleeping: bool, chan: int)

  /** lockOf gives each channel's lock; locks names each lock's holder, -1 for none. */
  datatype State = State(procs: seq<Proc>, conds: seq<bool>, lockOf: seq<nat>, locks: seq<int>)

  ghost predicate Shape(s: State) {
    && |s.lockOf| == |s.conds| && |s.locks| > 0
    && (forall c :: 0 <= c < |s.lockOf| ==> s.lockOf[c] < |s.locks|)
    && forall p :: 0 <= p < |s.procs| ==> PcIn(s.procs[p].pc, |s.conds|, |s.procs|)
  }

  ghost predicate PcIn(pc: Pc, channels: nat, procs: nat) {
    match pc
    case Idle => true
    case KillDone => true
    case KillTable(q) => q < procs
    case Kill(q) => q < procs
    case Scan(c, i, _) => c < channels && i <= procs
    case _ => pc.c < channels
  }

  ghost predicate Init(s: State) {
    && Shape(s)
    && (forall p :: 0 <= p < |s.procs| ==> s.procs[p] == Proc(Idle, false, -1))
    && (forall l :: 0 <= l < |s.locks| ==> s.locks[l] == -1)
  }

  function Goto(s: State, p: nat, pc: Pc): State
    requires p < |s.procs|
  {
    s.(procs := s.procs[p := s.procs[p].(pc := pc)])
  }

  /** Process p takes lock l, if it is free, and goes to pc. */
  ghost predicate Take(s: State, s': State, p: nat, l: nat, pc: Pc)
    requires p < |s.procs| && l < |s.locks|
  {
    s.locks[l] == -1 && s' == Goto(s, p, pc).(locks := s.locks[l := p])
  }

  ghost predicate Give(s: State, s': State, p: nat, l: nat, pc: Pc)
    requires p < |s.procs| && l < |s.locks|
  {
    s' == Goto(s, p, pc).(locks := s.locks[l := -1])
  }

  /** With the lock held, a process may use up, wait for, or bring about any condition under it. */
  ghost predicate UseStep(s: State, s': State, p: nat, c: nat, d: nat)
    requires Shape(s) && p < |s.procs| && c < |s.conds|
  {
    && d < |s.conds| && s.lockOf[d] == s.lockOf[c]
    && (s' == s.(conds := s.conds[d := false]) || s' == Goto(s, p, Test(d)) || s' == Goto(s, p, Set(d)))
  }

  ghost predicate WaitStep(s: State, s': State, p: nat)
    requires Shape(s) && p < |s.procs|
  {
    var me := s.procs[p];
    match me.pc
    case Idle => exists c: nat :: c < |s.conds| && s' == Goto(s, p, Acquire(c))
    case Acquire(c) => Take(s, s', p, s.lockOf[c], Test(c))
    case Test(c) =>
      s' == Goto(s, p, if s.conds[c] then Use(c) else if s.lockOf[c] != PTABLE then SleepTable(c) else SetChan(c))
    case SleepTable(c) => Take(s, s', p, PTABLE, SleepUnlock(c))
    case SleepUnlock(c) => Give(s, s', p, s.lockOf[c], SetChan(c))
    case SetChan(c) => s' == s.(procs := s.procs[p := me.(pc := SetState(c), chan := c)])
    case SetState(c) => s' == s.(procs := s.procs[p := me.(pc := Sched(c), sleeping := true)])
    case Sched(c) => Give(s, s', p, PTABLE, Asleep(c))
    case Asleep(c) => !me.sleeping && Take(s, s', p, PTABLE, ClearChan(c))
    case ClearChan(c) =>
      s' == s.(procs := s.procs[p := me.(pc := if s.lockOf[c] != PTABLE then FreeTable(c) else Test(c), chan := -1)])
    case FreeTable(c) => Give(s, s', p, PTABLE, Relock(c))
    case Relock(c) => Take(s, s', p, s.lockOf[c], Test(c))
    case Use(c) => s' == Goto(s, p, Unlock(c)) || exists d: nat :: UseStep(s, s', p, c, d)
    case Unlock(c) => Give(s, s', p, s.lockOf[c], Idle)
    case _ => false
  }

  ghost predicate WakeStep(s: State, s': State, p: nat)
    requires Shape(s) && p < |s.procs|
  {
    match s.procs[p].pc
    case Idle => exists c: nat :: c < |s.conds| && s' == Goto(s, p, AcquireToSet(c))
    case AcquireToSet(c) => Take(s, s', p, s.lockOf[c], Set(c))
    case Set(c) =>
      var t := s.(conds := s.conds[c := true]);
      if s.lockOf[c] == PTABLE then s' == Goto(t, p, Scan(c, 0, true))
      else s' == Goto(t, p, WakeTable(c, true)) || s' == Goto(t, p, UnlockToWake(c))
    case UnlockToWake(c) => Give(s, s', p, s.lockOf[c], WakeTable(c, false))
    case WakeTable(c, locked) => Take(s, s', p, PTABLE, Scan(c, 0, locked))
    case Scan(c, i, locked) =>
      if i < |s.procs| then
        var t :=
          if s.procs[i].sleeping && s.procs[i].chan == c then
            s.(procs := s.procs[i := s.procs[i].(sleeping := false)])
          else s;
        s' == Goto(t, p, Scan(c, i + 1, locked))
      else if s.lockOf[c] == PTABLE then
        s' == Goto(s, p, Use(c))
      else
        Give(s, s', p, PTABLE, if locked then Use(c) else Idle)
    case _ => false
  }

  ghost predicate KillStep(s: State, s': State, p: nat)
    requires Shape(s) && p < |s.procs|
  {
    match s.procs[p].pc
    case Idle => exists q: nat :: q < |s.procs| && s' == Goto(s, p, KillTable(q))
    case KillTable(q) => Take(s, s', p, PTABLE, Kill(q))
    case Kill(q) => s' == Goto(s.(procs := s.procs[q := s.procs[q].(sleeping := false)]), p, KillDone)
    case KillDone => Give(s, s', p, PTABLE, Idle)
    case _ => false
  }

  ghost predicate Step(s: State, s': State, p: nat) {
    Shape(s) && p < |s.procs| && (WaitStep(s, s', p) || WakeStep(s, s', p) || KillStep(s, s', p))
  }

  ghost predicate Next(s: State, s': State) {
    exists p: nat :: Step(s, s', p)
  }

  ghost predicate Run(run: seq<State>) {
    && |run| > 0 && Init(run[0])
    && forall i :: 0 <= i < |run| - 1 ==> Next(run[i], run[i + 1])
  }

  /** A process at pc holds lock l. */
  predicate Holds(pc: Pc, lockOf: seq<nat>, l: nat)
    requires !pc.Idle? && !pc.KillDone? && !pc.KillTable? && !pc.Kill? ==> pc.c < |lockOf|
  {
    match pc
    case Idle => false
    case Acquire(_) => false
    case AcquireToSet(_) => false
    case Asleep(_) => false
    case Relock(_) => false
    case KillTable(_) => false
    case Kill(_) => l == PTABLE
    case KillDone => l == PTABLE
    case Test(c) => l == lockOf[c]
    case SleepTable(c) => l == lockOf[c]
    case SleepUnlock(c) => l == lockOf[c] || l == PTABLE
    case SetChan(_) => l == PTABLE
    case SetState(_) => l == PTABLE
    case Sched(_) => l == PTABLE
    case ClearChan(_) => l == PTABLE
    case FreeTable(_) => l == PTABLE
    case Use(c) => l == lockOf[c]
    case Unlock(c) => l == lockOf[c]
    case Set(c) => l == lockOf[c]
    case UnlockToWake(c) => l == lockOf[c]
    case WakeTable(c, locked) => locked && l == lockOf[c]
    case Scan(c, _, locked) => l == PTABLE || (locked && l == lockOf[c])
  }

  /** The lock has at most one holder, the process whose pc says so. */
  ghost predicate LockOk(s: State, l: nat)
    requires Shape(s) && l < |s.locks|
  {
    && (s.locks[l] != -1 ==> 0 <= s.locks[l] < |s.procs|)
    && forall p :: 0 <= p < |s.procs| ==> (Holds(s.procs[p].pc, s.lockOf, l) <==> s.locks[l] == p)
  }

  /** What a process's pc says of its own fields. */
  ghost predicate SelfOk(s: State, p: nat)
    requires Shape(s) && p < |s.procs|
  {
    var me := s.procs[p];
    && (me.sleeping ==> me.pc.Sched? || me.pc.Asleep?)
    && me.chan == (if me.pc.SetState? || me.pc.Sched? || me.pc.Asleep? || me.pc.ClearChan? then me.pc.c else -1)
    && (me.pc.SleepTable? || me.pc.SleepUnlock? || me.pc.FreeTable? ||
        me.pc.Relock? || me.pc.UnlockToWake? || me.pc.WakeTable? ==>
      s.lockOf[me.pc.c] != PTABLE)
    && (me.pc.Scan? && !me.pc.locked ==> s.lockOf[me.pc.c] != PTABLE)
    && (me.pc.SleepTable? || me.pc.SleepUnlock? ==> !s.conds[me.pc.c])
  }

  /** Process p is asleep, or past the point of no return, on channel c. */
  predicate Committed(p: Proc, c: nat) {
    (p.pc.SetChan? || p.pc.SetState? || p.pc.Sched? || (p.pc.Asleep? && p.sleeping)) && p.pc.c == c
  }

  /** A process at pc has yet to look at p in a wakeup on channel c. */
  predicate Pending(pc: Pc, c: nat, p: nat) {
    (pc.UnlockToWake? || pc.WakeTable? || (pc.Scan? && pc.i <= p)) && pc.c == c
  }

  /** A waker on channel c is on its way to p. */
  ghost predicate WakerComes(s: State, c: nat, p: nat) {
    exists w :: 0 <= w < |s.procs| && Pending(s.procs[w].pc, c, p)
  }

  /** Whoever sleeps on a channel whose condition holds has a waker coming. */
  ghost predicate NotLost(s: State, p: nat)
    requires Shape(s) && p < |s.procs|
  {
    forall c: nat :: c < |s.conds| && Committed(s.procs[p], c) && s.conds[c] ==> WakerComes(s, c, p)
  }

  ghost predicate Inv(s: State) {
    && Shape(s)
    && (forall l :: 0 <= l < |s.locks| ==> LockOk(s, l))
    && (forall p :: 0 <= p < |s.procs| ==> SelfOk(s, p))
    && (forall p :: 0 <= p < |s.procs| ==> NotLost(s, p))
  }

  /** Process p alone moved, taking or giving back lock l as its pc says. */
  ghost predicate Moves(s: State, s': State, p: nat, l: nat)
    requires Shape(s) && Shape(s') && p < |s.procs| && |s'.procs| == |s.procs| && s'.lockOf == s.lockOf
    requires |s'.locks| == |s.locks| && l < |s.locks|
  {
    var pc, pc' := s.procs[p].pc, s'.procs[p].pc;
    && (forall q :: 0 <= q < |s.procs| && q != p ==> s'.procs[q].pc == s.procs[q].pc)
    && (Holds(pc', s.lockOf, l) && !Holds(pc, s.lockOf, l) ==> s.locks[l] == -1)
    && s'.locks[l] == if Holds(pc', s.lockOf, l) then p else if Holds(pc, s.lockOf, l) then -1 else s.locks[l]
  }

  ghost predicate Same(s: State, s': State) {
    |s'.procs| == |s.procs| && s'.lockOf == s.lockOf && |s'.conds| == |s.conds| && |s'.locks| == |s.locks|
  }

  lemma MovesLocks(s: State, s': State, p: nat, l: nat)
    requires Shape(s) && Shape(s') && Same(s, s') && p < |s.procs| && l < |s.locks|
    requires LockOk(s, l) && Moves(s, s', p, l)
    ensures LockOk(s', l)
  {
    hide Holds;
  }

  lemma WaitShape(s: State, s': State, p: nat)
    requires Shape(s) && p < |s.procs| && WaitStep(s, s', p)
    ensures Shape(s') && Same(s, s')
  {
  }

  lemma WakeShape(s: State, s': State, p: nat)
    requires Shape(s) && p < |s.procs| && WakeStep(s, s', p)
    ensures Shape(s') && Same(s, s')
  {
  }

  lemma KillShape(s: State, s': State, p: nat)
    requires Shape(s) && p < |s.procs| && KillStep(s, s', p)
    ensures Shape(s') && Same(s, s')
  {
  }

  lemma WaitMoves(s: State, s': State, p: nat, l: nat)
    requires Shape(s) && Shape(s') && Same(s, s') && p < |s.procs| && WaitStep(s, s', p) && l < |s.locks|
    requires SelfOk(s, p) && LockOk(s, l)
    ensures Moves(s, s', p, l)
  {
  }

  lemma WakeMoves(s: State, s': State, p: nat, l: nat)
    requires Shape(s) && Shape(s') && Same(s, s') && p < |s.procs| && WakeStep(s, s', p) && l < |s.locks|
    requires SelfOk(s, p) && LockOk(s, l)
    ensures Moves(s, s', p, l)
  {
  }

  lemma KillMoves(s: State, s': State, p: nat, l: nat)
    requires Shape(s) && Shape(s') && Same(s, s') && p < |s.procs| && KillStep(s, s', p) && l < |s.locks|
    requires SelfOk(s, p) && LockOk(s, l)
    ensures Moves(s, s', p, l)
  {
  }

  lemma WaitSelf(s: State, s': State, p: nat)
    requires Shape(s) && Shape(s') && Same(s, s') && p < |s.procs| && WaitStep(s, s', p) && SelfOk(s, p)
    ensures SelfOk(s', p)
  {
  }

  lemma WakeSelf(s: State, s': State, p: nat)
    requires Shape(s) && Shape(s') && Same(s, s') && p < |s.procs| && SelfOk(s, p) && WakeStep(s, s', p)
    ensures SelfOk(s', p)
  {
  }

  lemma KillSelf(s: State, s': State, p: nat)
    requires Shape(s) && Shape(s') && Same(s, s') && p < |s.procs| && SelfOk(s, p) && KillStep(s, s', p)
    ensures SelfOk(s', p)
  {
  }

  /** Two processes inside the same lock are one. */
  lemma OneHolder(s: State, l: nat, p: nat, q: nat)
    requires Shape(s) && l < |s.locks| && LockOk(s, l) && p < |s.procs| && q < |s.procs|
    requires Holds(s.procs[p].pc, s.lockOf, l) && Holds(s.procs[q].pc, s.lockOf, l)
    ensures p == q
  {
    hide Holds;
  }

  /** A step of p leaves the others where they are; it may wake them, and bring about what Set sets. */
  lemma OthersKept(s: State, s': State, p: nat, q: nat, c: nat)
    requires Step(s, s', p) && q < |s.procs| && q != p
    ensures Same(s, s')
    ensures s'.procs[q].pc == s.procs[q].pc && s'.procs[q].chan == s.procs[q].chan
    ensures s'.procs[q].sleeping ==> s.procs[q].sleeping
    ensures c < |s.conds| && s'.conds[c] && !s.conds[c] ==> s.procs[p].pc == Set(c)
  {
  }

  lemma SelfKept(s: State, s': State, p: nat, q: nat)
    requires Inv(s) && Step(s, s', p) && Shape(s') && q < |s.procs| && q != p
    ensures Same(s, s') && SelfOk(s', q)
  {
    OthersKept(s, s', p, q, 0);
    assert SelfOk(s, q);
    var pc := s.procs[q].pc;
    if pc.SleepTable? || pc.SleepUnlock? {
      OthersKept(s, s', p, q, pc.c);
      if s'.conds[pc.c] {
        OneHolder(s, s.lockOf[pc.c], p, q);
      }
    }
  }

  /** A waker goes on coming until it has been there. */
  lemma StillComes(s: State, s': State, p: nat, c: nat, q: nat)
    requires Step(s, s', p) && WakerComes(s, c, q) && Same(s, s')
    requires forall w :: 0 <= w < |s.procs| && w != p ==> s'.procs[w].pc == s.procs[w].pc
    requires !(s.procs[p].pc.Scan? && s.procs[p].pc.i == q && s.procs[p].pc.c == c)
    requires q < |s.procs|
    ensures WakerComes(s', c, q)
  {
    var w :| 0 <= w < |s.procs| && Pending(s.procs[w].pc, c, q);
    assert Pending(s'.procs[w].pc, c, q);
  }

  /** The mover is not lost: it found the condition false, or its waker still comes. */
  lemma MoverNotLost(s: State, s': State, p: nat)
    requires Inv(s) && Step(s, s', p) && Shape(s') && Same(s, s')
    requires forall w :: 0 <= w < |s.procs| && w != p ==> s'.procs[w].pc == s.procs[w].pc
    ensures NotLost(s', p)
  {
    assert SelfOk(s, p) && NotLost(s, p);
    forall c: nat | c < |s.conds| && Committed(s'.procs[p], c) && s'.conds[c] ensures WakerComes(s', c, p) {
      CommittedBefore(s, s', p, c);
      StillComes(s, s', p, c, p);
    }
  }

  lemma CommittedBefore(s: State, s': State, p: nat, c: nat)
    requires Step(s, s', p) && Same(s, s') && SelfOk(s, p) && c < |s.conds|
    requires Committed(s'.procs[p], c) && s'.conds[c]
    ensures Committed(s.procs[p], c) && s.conds[c]
  {
  }

  /** Nobody else is lost: a condition comes true only with a waker, and a waker gone past q has woken it. */
  lemma OtherNotLost(s: State, s': State, p: nat, q: nat)
    requires Inv(s) && Step(s, s', p) && Shape(s') && Same(s, s') && q < |s.procs| && q != p
    requires forall w :: 0 <= w < |s.procs| && w != p ==> s'.procs[w].pc == s.procs[w].pc
    ensures NotLost(s', q)
  {
    assert SelfOk(s, q) && NotLost(s, q) && LockOk(s, PTABLE);
    forall c: nat | c < |s.conds| && Committed(s'.procs[q], c) && s'.conds[c] ensures WakerComes(s', c, q) {
      OthersKept(s, s', p, q, c);
      if !s.conds[c] {
        SetIsPending(s, s', p, c, q);
      } else if s.procs[p].pc.Scan? && s.procs[p].pc.i == q && s.procs[p].pc.c == c {
        ScanWakes(s, s', p, c, q);
      } else {
        StillComes(s, s', p, c, q);
      }
    }
  }

  lemma SetIsPending(s: State, s': State, p: nat, c: nat, q: nat)
    requires Step(s, s', p) && s.procs[p].pc == Set(c) && Same(s, s')
    ensures WakerComes(s', c, q)
  {
    assert Pending(s'.procs[p].pc, c, q);
  }

  /** The loop's turn at a sleeper on its channel wakes it. */
  lemma ScanWakes(s: State, s': State, p: nat, c: nat, q: nat)
    requires Step(s, s', p) && Same(s, s') && q < |s.procs| && q != p
    requires s.procs[p].pc.Scan? && s.procs[p].pc.i == q && s.procs[p].pc.c == c
    requires SelfOk(s, q) && LockOk(s, PTABLE) && Committed(s.procs[q], c)
    ensures !Committed(s'.procs[q], c)
  {
    if !s.procs[q].pc.Asleep? {
      OneHolder(s, PTABLE, p, q);
    }
  }

  lemma InvStep(s: State, s': State, p: nat)
    requires Inv(s) && Step(s, s', p)
    ensures Inv(s')
  {
    assert SelfOk(s, p);
    if WaitStep(s, s', p) {
      WaitShape(s, s', p);
      WaitSelf(s, s', p);
    } else if WakeStep(s, s', p) {
      WakeShape(s, s', p);
      WakeSelf(s, s', p);
    } else {
      KillShape(s, s', p);
      KillSelf(s, s', p);
    }
    forall l | 0 <= l < |s.locks| ensures LockOk(s', l) {
      LockStep(s, s', p, l);
    }
    forall q | 0 <= q < |s.procs| && q != p ensures SelfOk(s', q) && s'.procs[q].pc == s.procs[q].pc {
      SelfKept(s, s', p, q);
      OthersKept(s, s', p, q, 0);
    }
    forall q | 0 <= q < |s.procs| ensures NotLost(s', q) {
      if q == p {
        MoverNotLost(s, s', p);
      } else {
        OtherNotLost(s, s', p, q);
      }
    }
  }

  lemma LockStep(s: State, s': State, p: nat, l: nat)
    requires Step(s, s', p) && Shape(s') && Same(s, s') && l < |s.locks| && SelfOk(s, p) && LockOk(s, l)
    ensures LockOk(s', l)
  {
    hide LockOk;
    if WaitStep(s, s', p) {
      WaitMoves(s, s', p, l);
    } else if WakeStep(s, s', p) {
      WakeMoves(s, s', p, l);
    } else {
      KillMoves(s, s', p, l);
    }
    MovesLocks(s, s', p, l);
  }

  lemma InitOk(s: State)
    requires Init(s)
    ensures Inv(s)
  {
  }

  /** In every state of every run, for any number of processes, channels and locks. */
  lemma {:induction false} RunSafe(run: seq<State>, i: nat)
    requires Run(run) && i < |run|
    ensures Inv(run[i])
  {
    hide Inv;
    hide Init;
    hide Step;
    if i == 0 {
      InitOk(run[0]);
    } else {
      RunSafe(run, i - 1);
      assert Next(run[i - 1], run[i]);
      var p: nat :| Step(run[i - 1], run[i], p);
      InvStep(run[i - 1], run[i], p);
    }
  }

  /**
   * No wakeup is lost: in every state of every run, whoever is SLEEPING on a channel whose
   * condition holds has a waker that has not yet looked at it; so once every wakeup on the
   * channel is over, nobody sleeps on it while its condition holds.
   */
  lemma NoLostWakeup(run: seq<State>, i: nat, p: nat)
    requires Run(run) && i < |run| && p < |run[i].procs| && run[i].procs[p].sleeping
    ensures
      var s := run[i];
      var c := s.procs[p].chan;
      0 <= c < |s.conds| && (s.conds[c] ==> WakerComes(s, c, p))
  {
    RunSafe(run, i);
    assert SelfOk(run[i], p) && NotLost(run[i], p);
    assert Committed(run[i].procs[p], run[i].procs[p].pc.c);
  }

  /** Process t is about to look at p in a wakeup on channel c, or to kill it. */
  predicate Wakes(pc: Pc, c: int, p: nat) { (pc.Scan? && pc.c == c && pc.i == p) || pc == Kill(p) }

  lemma WaitWoken(s: State, s': State, t: nat, p: nat)
    requires Shape(s) && t < |s.procs| && p < |s.procs| && SelfOk(s, p) && s.procs[p].sleeping && WaitStep(s, s', t)
    ensures Same(s, s') && s'.procs[p].sleeping && !Wakes(s.procs[t].pc, s.procs[p].chan, p)
  {
  }

  lemma WakeWoken(s: State, s': State, t: nat, p: nat)
    requires Shape(s) && t < |s.procs| && p < |s.procs| && SelfOk(s, p) && s.procs[p].sleeping
    requires WakeStep(s, s', t) || KillStep(s, s', t)
    ensures Same(s, s') && (!s'.procs[p].sleeping <==> Wakes(s.procs[t].pc, s.procs[p].chan, p))
  {
  }

  /**
   * In every run a sleeper wakes at a step exactly if that step is the turn at it of a wakeup on its
   * own channel, or a kill of it: a wakeup leaves those on other channels asleep.
   */
  lemma WokenExactly(run: seq<State>, i: nat, t: nat, p: nat)
    requires Run(run) && i + 1 < |run| && Step(run[i], run[i + 1], t)
    requires p < |run[i].procs| && run[i].procs[p].sleeping
    ensures |run[i + 1].procs| == |run[i].procs|
    ensures !run[i + 1].procs[p].sleeping <==> Wakes(run[i].procs[t].pc, run[i].procs[p].chan, p)
  {
    RunSafe(run, i);
    assert SelfOk(run[i], p);
    hide WaitStep;
    hide WakeStep;
    hide KillStep;
    if WaitStep(run[i], run[i + 1], t) {
      WaitWoken(run[i], run[i + 1], t, p);
    } else {
      WakeWoken(run[i], run[i + 1], t, p);
    }
  }

  /** Waiting for a condition: from the call on up to the test that finds it true. */
  predicate Waiting(pc: Pc) {
    || pc.Acquire? || pc.Test? || pc.SleepTable? || pc.SleepUnlock? || pc.SetChan? || pc.SetState? || pc.Sched?
    || pc.Asleep? || pc.ClearChan? || pc.FreeTable? || pc.Relock?
  }

  lemma WaitEnds(s: State, s': State, p: nat)
    requires Shape(s) && p < |s.procs| && WaitStep(s, s', p) && Waiting(s.procs[p].pc)
    ensures
      var pc := s.procs[p].pc;
      && |s'.procs| == |s.procs| && s'.conds == s.conds
      && (Waiting(s'.procs[p].pc) || (s'.procs[p].pc == Use(pc.c) && s.conds[pc.c]))
  {
  }

  /** Whoever has waited goes on only with the condition true, and with its lock, however it was woken. */
  lemma WaitsWell(run: seq<State>, i: nat, p: nat)
    requires Run(run) && i + 1 < |run| && p < |run[i].procs| && Waiting(run[i].procs[p].pc)
    ensures Shape(run[i]) && Shape(run[i + 1]) && Same(run[i], run[i + 1])
    ensures
      var s', c := run[i + 1], run[i].procs[p].pc.c;
      Waiting(s'.procs[p].pc) || (s'.procs[p].pc == Use(c) && s'.conds[c] && s'.locks[s'.lockOf[c]] == p)
  {
    RunSafe(run, i);
    RunSafe(run, i + 1);
    hide Inv;
    hide WaitStep;
    hide WakeStep;
    hide KillStep;
    var s, s' := run[i], run[i + 1];
    assert Next(s, s');
    var t: nat :| Step(s, s', t);
    if t != p {
      OthersKept(s, s', t, p, 0);
    } else if WaitStep(s, s', t) {
      WaitEnds(s, s', t);
      if s'.procs[p].pc.Use? {
        HolderOf(s', p, s'.lockOf[s'.procs[p].pc.c]);
      }
    }
  }

  lemma HolderOf(s: State, p: nat, l: nat)
    requires Inv(s) && p < |s.procs| && l < |s.locks| && Holds(s.procs[p].pc, s.lockOf, l)
    ensures s.locks[l] == p
  {
    assert LockOk(s, l);
  }

  /** Whoever brings a condition about leaves it true, and with a waker for everyone who sleeps on it. */
  lemma SetReaches(run: seq<State>, i: nat, t: nat, p: nat)
    requires Run(run) && i + 1 < |run| && Step(run[i], run[i + 1], t) && run[i].procs[t].pc.Set?
    requires p < |run[i + 1].procs|
    ensures
      var s', c := run[i + 1], run[i].procs[t].pc.c;
      c < |s'.conds| && s'.conds[c] && (Committed(s'.procs[p], c) ==> WakerComes(s', c, p))
  {
    RunSafe(run, i + 1);
    assert NotLost(run[i + 1], p);
  }
}
