/**
 * Whole transactions and reboots: what the storage stack promises to the file system above it.
 */
module CrashSafety {
  import opened Common
  import opened Blocks
  import opened LruRing
  import opened BufferCache
  import opened LogSpec
  import opened Log
  import opened Transactions

  datatype Write = Write(sector: nat, data: Block)

  /** A plain array of home blocks after the first k writes. */
  ghost function Applied(home: Disk, ws: seq<Write>, k: nat): (r: Disk)
    requires k <= |ws| && forall i | 0 <= i < |ws| :: ws[i].sector < |home|
    ensures |r| == |home|
  {
    if k == 0 then home else Applied(home, ws, k - 1)[ws[k - 1].sector := ws[k - 1].data]
  }

  /** The different sectors among the first k writes. */
  ghost function Sectors(ws: seq<Write>, k: nat): set<nat>
    requires k <= |ws|
  {
    set i | 0 <= i < k :: ws[i].sector
  }

  lemma SectorsNone(ws: seq<Write>, sectors: seq<nat>)
    ensures Sectors(ws, 0) == SectorSet(sectors, 0) == {}
  {
  }

  lemma SectorsStep(ws: seq<Write>, k: nat)
    requires k < |ws|
    ensures Sectors(ws, k + 1) == Sectors(ws, k) + {ws[k].sector}
  {
  }

  lemma SectorsGrow(ws: seq<Write>, k: nat)
    requires k <= |ws|
    ensures |Sectors(ws, k)| <= |Sectors(ws, |ws|)|
    ensures forall m: Mem, me: nat | Scarce(m, me, |Sectors(ws, k)|) :: Scarce(m, me, |Sectors(ws, |ws|)|)
  {
    SubsetCount(Sectors(ws, k), Sectors(ws, |ws|));
  }

  lemma OwnScarce(m: Mem, m': Mem, me: nat, b: nat, logged: nat)
    requires forall c: nat | m.Mine(me, c) :: c == b
    ensures Own(m', me) == Own(m, me) && Crowded(m', me, logged) ==> Scarce(m', me, logged)
  {
    forall c | c in Own(m, me) ensures c in {b} { assert m.Mine(me, c); }
    SubsetCount(Own(m, me), {b});
  }

  lemma OnlyHeld(m: Mem, m': Mem, me: nat, b: nat)
    requires SameHeld(me, m, m', b) && forall c | c in m.holder && m.holder[c] == me :: c == b
    ensures forall c | c in m'.holder && m'.holder[c] == me :: c == b
  {
    forall c | c in m'.holder && m'.holder[c] == me
      ensures c == b
    {
      assert m'.Mine(me, c);
    }
  }

  /** bread, change, log_write, brelse: one logged write of a transaction that holds no other buffer. */
  method LoggedWrite(log: RedoLog, w: Write) returns (o: Outcome)
    requires log.Valid() && log.busy && log.HoldsNone() && w.sector < log.start
    modifies log, log.bc
    ensures log.owner == old(log.owner) && log.busy == old(log.busy) && log.committed == old(log.committed)
    ensures HistoryOk(log.bc.trace, log.history, log.start, log.size)
    ensures Grown(old(log.bc.trace), old(log.history), log.bc.trace, log.history, log.committed)
    ensures !o.Sleep? && o != Panic(OutsideTrans)
    ensures |log.bc.disk| > log.start && HeadN(log.bc.disk[log.start]) == 0
    ensures log.bc.trace == old(log.bc.trace) || log.bc.trace == old(log.bc.trace) + [log.bc.disk]
    ensures o.Done? ==> log.Valid() && log.HoldsNone() && log.Home() == old(log.Home())[w.sector := w.data]
    ensures o.Done? ==> log.ListedToo(w.sector) && log.n < NBUF
    ensures o.Panic? ==> o.why == TooBig || o.why == NoBuffer
    ensures o == Panic(TooBig) ==> old(log.n) >= LOGSIZE || old(log.n) >= log.size - 1
    ensures o == Panic(NoBuffer) ==> log.n == old(log.n) && Scarce(log.Snap(), log.owner, log.n)
  {
    hide ListOk; hide TableOk; hide CleanOk; hide HeldOk; hide PinnedOk; hide Kept; hide Spared; hide Install;
    hide HistoryOk; hide Has; hide HomeHeld; hide Grown; hide Own; hide Foreign; hide Crowded; hide Scarce;
    GrownSelf(log.bc.trace, log.history, log.committed);
    ghost var m0 := log.Snap();
    NoneHeld(m0, log.owner);
    var r := log.BreadHome(w.sector);
    if r.NoBuffers? {
      OneHeld(m0, log.Snap(), log.owner, log.n, 0);
      return Panic(NoBuffer);
    }
    ghost var m := log.Snap();
    AcquiredKeeps(log.owner, m0, m, r.buf, w.sector);
    o := log.ModifyAndLog(r.buf, w.data);
    if o.Panic? {
      OwnScarce(m, log.Snap(), log.owner, r.buf, log.n);
      return;
    }
    OnlyHeld(m, log.Snap(), log.owner, r.buf);
    log.Release(r.buf);
  }

  ghost predicate HeadersEmpty(trace: seq<Disk>, lo: nat, hi: nat, start: nat)
  {
    hi <= |trace| && forall j | lo <= j < hi :: |trace[j]| > start && HeadN(trace[j][start]) == 0
  }

  lemma HeadersGrow(trace: seq<Disk>, trace': seq<Disk>, lo: nat, d: Disk, start: nat)
    requires HeadersEmpty(trace, lo, |trace|, start) && (trace' == trace || trace' == trace + [d])
    requires |d| > start && HeadN(d[start]) == 0
    ensures HeadersEmpty(trace', lo, |trace'|, start)
  {
  }

  lemma HeadersNone(trace: seq<Disk>, start: nat)
    ensures HeadersEmpty(trace, |trace|, |trace|, start)
  {
  }

  /** The logged writes of a transaction: the system sees them all, and no disk state recovers to any of them. */
  method LogAll(log: RedoLog, ws: seq<Write>) returns (o: Outcome)
    requires log.Valid() && log.busy && log.HoldsNone() && forall i | 0 <= i < |ws| :: ws[i].sector < log.start
    requires log.Home() == log.committed && log.n == 0
    modifies log, log.bc
    ensures !o.Sleep? && o != Panic(OutsideTrans) && log.committed == old(log.committed)
    ensures HistoryOk(log.bc.trace, log.history, log.start, log.size)
    ensures Grown(old(log.bc.trace), old(log.history), log.bc.trace, log.history, log.committed)
    ensures HeadersEmpty(log.bc.trace, |old(log.bc.trace)|, |log.bc.trace|, log.start)
    ensures o.Done? ==> log.Valid() && log.busy && log.HoldsNone() && log.Home() == Applied(log.committed, ws, |ws|)
    ensures o.Done? ==> log.n == |Sectors(ws, |ws|)| && (ws != [] ==> log.n < NBUF)
    ensures o.Panic? ==> o.why == TooBig || o.why == NoBuffer
    ensures o == Panic(TooBig) ==> |Sectors(ws, |ws|)| >= LOGSIZE || |Sectors(ws, |ws|)| >= log.size - 1
    ensures o == Panic(NoBuffer) ==> Scarce(log.Snap(), log.owner, |Sectors(ws, |ws|)|)
  {
    hide ListOk; hide TableOk; hide CleanOk; hide HeldOk; hide PinnedOk; hide Spared; hide Install;
    hide HistoryOk; hide Has; hide HomeHeld; hide Grown; hide View; hide SectorSet; hide Scarce;
    hide Sectors; hide HeadersEmpty;
    HeadersNone(log.bc.trace, log.start);
    GrownSelf(log.bc.trace, log.history, log.committed);
    SectorsNone(ws, log.sectors);
    o := Done;
    var i := 0;
    while i < |ws|
      invariant i <= |ws| && log.Valid() && log.busy && log.HoldsNone() && log.committed == old(log.committed)
      invariant log.Home() == Applied(log.committed, ws, i) && o.Done? && (i > 0 ==> log.n < NBUF)
      invariant log.n <= |log.sectors| && SectorSet(log.sectors, log.n) == Sectors(ws, i) && log.n == |Sectors(ws, i)|
      invariant Grown(old(log.bc.trace), old(log.history), log.bc.trace, log.history, log.committed)
      invariant HeadersEmpty(log.bc.trace, |old(log.bc.trace)|, |log.bc.trace|, log.start)
    {
      ghost var t, h := log.bc.trace, log.history;
      ghost var secs, n := log.sectors, log.n;
      SectorsGrow(ws, i);
      o := LoggedWrite(log, ws[i]);
      HeadersGrow(t, log.bc.trace, |old(log.bc.trace)|, log.bc.disk, log.start);
      GrownTransitive(old(log.bc.trace), old(log.history), t, h, log.bc.trace, log.history, log.committed);
      if o.Panic? {
        return;
      }
      LoggedSet(secs, n, log.sectors, log.n, ws[i].sector);
      SectorsStep(ws, i);
      SectorSetSize(log.sectors, log.n);
      i := i + 1;
    }
  }

  lemma SameLength(trace: seq<Disk>, history: seq<Disk>, start: nat, size: nat)
    requires HistoryOk(trace, history, start, size)
    ensures |trace| == |history| && forall j | 0 <= j < |trace| :: |trace[j]| > start
  {
  }

  lemma NotHolding(m: Mem, me: nat)
    requires forall b: nat :: !m.Mine(me, b)
    ensures forall c | c in m.holder :: m.holder[c] != me
  {
    forall c | c in m.holder ensures m.holder[c] != me { assert !m.Mine(me, c); }
  }

  lemma IdleView(m: Mem, start: nat, size: nat)
    requires Listed(m, start, size)
    ensures m.n == 0 ==> View(m, start, size) == m.disk[..start]
  {
  }

  /** The states before the commit record and those from it on. */
  lemma CommitStates(t0: seq<Disk>, h0: seq<Disk>, t1: seq<Disk>, h1: seq<Disk>, t2: seq<Disk>, h2: seq<Disk>,
      c0: Disk, c1: Disk, start: nat)
    requires |t0| == |h0| && |t1| == |h1| && |t2| == |h2| && HeadersEmpty(t1, |h0|, |h1|, start)
    requires Grown(t0, h0, t1, h1, c0) && Grown(t1, h1, t2, h2, c1)
    ensures t0 <= t2 && h0 <= h2 && |h0| <= |h1| <= |h2| && HeadersEmpty(t2, |h0|, |h1|, start)
    ensures forall j | |h0| <= j < |h1| :: h2[j] == c0
    ensures forall j | |h1| <= j < |h2| :: h2[j] == c1
  {
    assert forall j | 0 <= j < |t1| :: t2[j] == t1[j] && h2[j] == h1[j];
  }

  /**
   * A whole transaction, for every sequence of logged writes.  Every state the disk goes through
   * recovers to the old home before the commit record reached the disk and to the new one from then
   * on; commitPoint is the index of the disk state that the header write produced.
   */
  method Transaction(log: RedoLog, pid: nat, ws: seq<Write>) returns (o: Outcome, ghost commitPoint: nat)
    requires log.Valid() && !log.busy && forall i | 0 <= i < |ws| :: ws[i].sector < log.start
    requires forall b: nat :: !log.Snap().Mine(pid, b)
    modifies log, log.bc
    ensures !o.Sleep? && o != Panic(OutsideTrans)
    ensures HistoryOk(log.bc.trace, log.history, log.start, log.size)
    ensures old(log.bc.trace) <= log.bc.trace && old(log.history) <= log.history
    ensures |old(log.history)| <= commitPoint <= |log.history|
    ensures HeadersEmpty(log.bc.trace, |old(log.history)|, commitPoint, log.start)
    ensures forall j | |old(log.history)| <= j < commitPoint :: log.history[j] == old(log.committed)
    ensures forall j | commitPoint <= j < |log.history| :: log.history[j] == Applied(old(log.committed), ws, |ws|)
    ensures commitPoint < |log.history| ==> HeadN(log.bc.trace[commitPoint][log.start]) > 0
    ensures o.Done? ==> log.Valid() && !log.busy && log.Home() == log.committed == Applied(old(log.committed), ws, |ws|)
    ensures o.Done? ==> |Sectors(ws, |ws|)| < NBUF
    ensures o.Panic? ==> o.why == TooBig || o.why == NoBuffer
    ensures o == Panic(TooBig) ==> |Sectors(ws, |ws|)| >= LOGSIZE || |Sectors(ws, |ws|)| >= log.size - 1
    ensures o == Panic(NoBuffer) ==> Scarce(log.Snap(), log.owner, |Sectors(ws, |ws|)|)
  {
    hide ListOk; hide TableOk; hide CleanOk; hide HeldOk; hide PinnedOk; hide Spared; hide Install;
    hide HistoryOk; hide Has; hide HomeHeld; hide Scarce; hide Applied; hide Grown; hide HeadersEmpty; hide View;
    IdleView(log.Snap(), log.start, log.size);
    SameLength(log.bc.trace, log.history, log.start, log.size);
    ghost var t0, h0 := log.bc.trace, log.history;
    o := log.BeginTrans(pid);
    assert log.HoldsNone() by { NotHolding(log.Snap(), pid); }
    o := LogAll(log, ws);
    commitPoint := |log.history|;
    SameLength(log.bc.trace, log.history, log.start, log.size);
    ghost var t1, h1 := log.bc.trace, log.history;
    if o.Panic? {
      GrownSelf(t1, h1, log.committed);
      CommitStates(t0, h0, t1, h1, t1, h1, log.committed, log.committed, log.start);
      return;
    }
    o := log.CommitTrans();
    SameLength(log.bc.trace, log.history, log.start, log.size);
    CommitStates(t0, h0, t1, h1, log.bc.trace, log.history, old(log.committed),
      Applied(old(log.committed), ws, |ws|), log.start);
  }

  /**
   * A crash and the reboot after it.  d is any disk state a run passed through; recovery brings up a
   * system whose home is what had been committed in that state, however often recovery itself is
   * cut short by further crashes on the way.
   */
  method Reboot(d: Disk, start: nat, size: nat, ghost crashes: seq<Disk>) returns (log: RedoLog, o: Outcome)
    requires |crashes| > 0 && crashes[|crashes| - 1] == d && LogOk(crashes[0], start, size)
    requires forall i | 0 <= i < |crashes| - 1 && LogOk(crashes[i], start, size) ::
      Passes(crashes[i], crashes[i + 1], start, size)
    ensures o == Done && log.Valid() && log.Home() == log.committed == Recovered(crashes[0], start, size)
    ensures LogOk(d, start, size) && log.start == start && log.size == size
    ensures forall j | 0 < j < |log.bc.trace| :: Passes(d, log.bc.trace[j], start, size)
    ensures forall j | 0 <= j < |log.bc.trace| ::
      && LogOk(log.bc.trace[j], start, size)
      && Recovered(log.bc.trace[j], start, size) == Recovered(crashes[0], start, size)
  {
    hide ListOk; hide TableOk; hide CleanOk; hide HeldOk; hide PinnedOk; hide Install; hide Has; hide HomeHeld;
    hide CopiedHome; hide Passes; hide Recovered; hide LogOk;
    RepeatedCrashes(crashes, start, size);
    log := new RedoLog.Boot(d, start, size);
    o := log.RecoverFromLog();
  }
}
