/**
 * The storage stack as fs.c uses it: a transaction that reads blocks, logs changed blocks and commits.
 * The ghost fields are all the file system needs to know; Valid ties them to the log and the cache.
 */
module Transactions {
  import opened Common
  import opened Blocks
  import opened LruRing
  import opened BufferCache
  import opened LogSpec
  import opened Log

  ghost function SectorSet(sectors: seq<nat>, n: nat): (r: set<nat>)
    requires n <= |sectors|
  {
    if n == 0 then {} else SectorSet(sectors, n - 1) + {sectors[n - 1]}
  }

  lemma {:induction false} SectorSetHas(sectors: seq<nat>, n: nat, s: nat)
    requires n <= |sectors|
    ensures s in SectorSet(sectors, n) <==> Has(sectors, 0, n, s)
  {
    if n > 0 {
      SectorSetHas(sectors, n - 1, s);
      if Has(sectors, 0, n, s) {
        var j :| 0 <= j < n && sectors[j] == s;
        assert j < n - 1 ==> Has(sectors, 0, n - 1, s);
      }
    }
  }

  lemma {:induction false} SectorSetSize(sectors: seq<nat>, n: nat)
    requires n <= |sectors| && forall i, j | 0 <= i < j < n :: sectors[i] != sectors[j]
    ensures |SectorSet(sectors, n)| == n
  {
    if n > 0 {
      SectorSetSize(sectors, n - 1);
      SectorSetHas(sectors, n - 1, sectors[n - 1]);
      assert !Has(sectors, 0, n - 1, sectors[n - 1]);
    }
  }

  /** The handles are exactly the buffers process me holds, each with its sector's contents. */
  ghost predicate Handles(m: Mem, me: nat, view: Disk, bp: map<nat, nat>)
  {
    && |m.bufs| == NBUF
    && (forall s | s in bp ::
        s < |view| && bp[s] < NBUF && m.Mine(me, bp[s]) && m.bufs[bp[s]].sector == s && m.bufs[bp[s]].data == view[s])
    && (forall c | c in m.holder && m.holder[c] == me ::
        c < NBUF && m.bufs[c].sector in bp && bp[m.bufs[c].sector] == c)
  }

  lemma NoneMine(m: Mem, me: nat, view: Disk)
    requires m.Cached() && forall b: nat :: !m.Mine(me, b)
    ensures Handles(m, me, view, map[])
  {
    forall c | c in m.holder ensures m.holder[c] != me { assert !m.Mine(me, c); }
  }

  lemma HandleFree(m: Mem, me: nat, view: Disk, bp: map<nat, nat>, s: nat)
    requires m.Cached() && Handles(m, me, view, bp) && s !in bp
    ensures s in m.where ==> !m.Mine(me, m.where[s])
  {
  }

  lemma AcquiredHandles(m: Mem, m': Mem, me: nat, view: Disk, bp: map<nat, nat>, b: nat, s: nat)
    requires m.Cached() && Handles(m, me, view, bp) && Acquired(me, m, m', b, s)
    requires s !in bp && s < |view| && m'.bufs[b].data == view[s]
    ensures Handles(m', me, view, bp[s := b])
  {
    AcquiredKeeps(me, m, m', b, s);
    hide TableOk; hide CleanOk; hide Spared;
    forall c | c in m'.holder && m'.holder[c] == me
      ensures c < NBUF && m'.bufs[c].sector in bp[s := b] && bp[s := b][m'.bufs[c].sector] == c
    {
      if c != b { assert m.Mine(me, c); }
    }
    forall t | t in bp && t != s
      ensures m'.Mine(me, bp[t]) && m'.bufs[bp[t]] == m.bufs[bp[t]]
    {
      assert m.Mine(me, bp[t]);
    }
  }

  lemma LoggedHandles(m: Mem, m': Mem, me: nat, view: Disk, bp: map<nat, nat>, s: nat, data: Block)
    requires Handles(m, me, view, bp) && s in bp
    requires SameHeld(me, m, m', bp[s]) && m'.bufs[bp[s]] == m.bufs[bp[s]].(data := data, dirty := true)
    ensures Handles(m', me, view[s := data], bp)
  {
    forall c | c in m'.holder && m'.holder[c] == me
      ensures c < NBUF && m'.bufs[c].sector in bp && bp[m'.bufs[c].sector] == c
    {
      assert m'.Mine(me, c) && m.Mine(me, c);
    }
    forall t | t in bp
      ensures m'.Mine(me, bp[t]) && m'.bufs[bp[t]].sector == t && m'.bufs[bp[t]].data == view[s := data][t]
    {
      assert m.Mine(me, bp[t]);
    }
  }

  lemma ReleasedHandles(m: Mem, m': Mem, me: nat, view: Disk, bp: map<nat, nat>, s: nat)
    requires Handles(m, me, view, bp) && s in bp
    requires m'.holder == m.holder - {bp[s]} && m'.bufs == m.bufs[bp[s] := m.bufs[bp[s]].(busy := false)]
    ensures Handles(m', me, view, bp - {s})
  {
  }

  lemma {:induction false} ValuesCount(m: map<nat, nat>)
    ensures |m.Values| <= |m.Keys|
    decreases |m.Keys|
  {
    if m != map[] {
      var s :| s in m;
      var m' := m - {s};
      ValuesCount(m');
      assert m'.Keys == m.Keys - {s};
      forall v | v in m.Values ensures v in m'.Values + {m[s]} {
        var t :| t in m && m[t] == v;
        if t != s { assert m'[t] == v; }
      }
      SubsetCount(m.Values, m'.Values + {m[s]});
    }
  }

  /** A process holds no more buffers than it has handles. */
  lemma HandleCount(m: Mem, m': Mem, me: nat, view: Disk, bp: map<nat, nat>, n: nat)
    requires Handles(m, me, view, bp) && Own(m', me) == Own(m, me) && Crowded(m', me, n)
    ensures NBUF <= |bp.Keys| + n + |Foreign(m', me)|
  {
    ValuesCount(bp);
    SubsetCount(Own(m, me), bp.Values);
  }

  lemma LoggedSet(a: seq<nat>, n: nat, a': seq<nat>, n': nat, s: nat)
    requires |a| == |a'| && n <= |a| && n' <= |a| && n' == n + (if Has(a, 0, n, s) then 0 else 1)
    requires (forall i | 0 <= i < n :: a[i] == a'[i]) && (n' > n ==> a'[n] == s)
    ensures SectorSet(a', n') == SectorSet(a, n) + {s}
  {
    HasSame(a, a', 0, n);
    forall t: nat
      ensures t in SectorSet(a', n') <==> t in SectorSet(a, n) + {s}
    {
      SectorSetHas(a, n, t);
      SectorSetHas(a', n', t);
      if Has(a', 0, n', t) {
        var i :| 0 <= i < n' && a'[i] == t;
        if i < n { assert a[i] == t; }
      }
      if n' > n { assert a'[n] == s; }
    }
  }

  class Store {
    const log: RedoLog
    var bp: map<nat, nat>      // the buffer held for each block that has been read and not released
    ghost var view: Disk       // home as the transaction sees it
    ghost var held: set<nat>   // the blocks held
    ghost var logged: set<nat> // the distinct blocks logged so far
    ghost const home: Disk     // what was committed when the transaction began
    ghost const trace0: seq<Disk>
    ghost const history0: seq<Disk>
    ghost const pid: nat

    /** Whatever happens before the commit, a panic included, every disk state so far recovers to home as it was. */
    ghost predicate Safe()
      reads this, log, log.bc
    {
      && log.committed == home && log.owner == pid
      && HistoryOk(log.bc.trace, log.history, log.start, log.size)
      && Grown(trace0, history0, log.bc.trace, log.history, home)
    }

    ghost predicate Valid()
      reads this, log, log.bc
    {
      && Safe() && log.Valid() && log.busy && view == log.Home()
      && held == bp.Keys && Handles(log.Snap(), log.owner, view, bp)
      && logged == SectorSet(log.sectors, log.n)
    }

    /** h buffers, those held by other processes and the blocks logged so far would fill the whole cache. */
    ghost predicate Short(h: nat)
      reads this, log, log.bc
    {
      NBUF <= h + |logged| + |Foreign(log.Snap(), log.owner)|
    }

    /** begin_trans on an idle log. */
    constructor Begin(log: RedoLog, pid: nat)
      requires log.Valid() && !log.busy && forall b: nat :: !log.Snap().Mine(pid, b)
      modifies log
      ensures Valid() && this.log == log && view == home == old(log.committed) && held == {} && logged == {}
      ensures trace0 == old(log.bc.trace) && history0 == old(log.history) && this.pid == pid
    {
      this.log := log;
      this.pid := pid;
      home := log.committed;
      trace0 := log.bc.trace;
      history0 := log.history;
      var o := log.BeginTrans(pid);
      bp := map[];
      held := {};
      logged := {};
      view := log.Home();
      NoneMine(log.Snap(), pid, log.Home());
    }

    /** bread: the block's newest contents. */
    method Bread(s: nat) returns (o: Outcome, data: Block)
      requires Valid() && s < |view| && s !in held
      modifies this, log, log.bc
      ensures Safe() && (o == Done || o == Panic(NoBuffer)) && logged == old(logged)
      ensures o.Panic? ==> Short(|old(held)|)
      ensures o.Done? ==>
        && Valid() && view == old(view) && logged == old(logged) && held == old(held) + {s} && data == view[s]
    {
      hide ListOk; hide TableOk; hide CleanOk; hide HeldOk; hide PinnedOk; hide Kept; hide Spared;
      hide Install; hide Has; hide HomeHeld; hide HistoryOk; hide SectorSet; hide Own; hide Foreign; hide Crowded;
      hide Full; hide Grown; hide Handles;
      ghost var m := log.Snap();
      HandleFree(m, log.owner, view, bp, s);
      SectorSetSize(log.sectors, log.n);
      var r := log.BreadHome(s);
      if r.NoBuffers? {
        SparedOwn(log.owner, m, log.Snap());
        HandleCount(m, log.Snap(), log.owner, view, bp, log.n);
        return Panic(NoBuffer), ZeroBlock();
      }
      AcquiredHandles(m, log.Snap(), log.owner, view, bp, r.buf, s);
      bp := bp[s := r.buf];
      held := held + {s};
      return Done, log.bc.bufs[r.buf].data;
    }

    /** The block is changed and logged: log_write's panic comes exactly when the transaction is too big. */
    method LogWrite(s: nat, data: Block) returns (o: Outcome)
      requires Valid() && s in held
      modifies this, log, log.bc
      ensures Safe() && !o.Sleep? && o != Panic(OutsideTrans)
      ensures o == Panic(TooBig) <==> |old(logged)| >= LOGSIZE || |old(logged)| >= log.size - 1
      ensures o.Panic? ==> (o.why == TooBig || o.why == NoBuffer) && logged == old(logged)
      ensures o == Panic(NoBuffer) ==> Short(|old(held)|)
      ensures o.Done? ==> Valid() && view == old(view)[s := data] && logged == old(logged) + {s} && held == old(held)
    {
      hide ListOk; hide TableOk; hide CleanOk; hide HeldOk; hide PinnedOk; hide Kept; hide Spared;
      hide Install; hide HomeHeld; hide HistoryOk; hide Has; hide SectorSet; hide View; hide Grown; hide SameHeld;
      hide Own; hide Foreign; hide Crowded;
      ghost var m := log.Snap();
      SectorSetSize(log.sectors, log.n);
      ghost var t, h := log.bc.trace, log.history;
      o := log.ModifyAndLog(bp[s], data);
      GrownTransitive(trace0, history0, t, h, log.bc.trace, log.history, home);
      if o.Panic? {
        if o.why == NoBuffer { HandleCount(m, log.Snap(), log.owner, view, bp, log.n); }
        return;
      }
      LoggedHandles(m, log.Snap(), log.owner, view, bp, s, data);
      LoggedSet(m.sectors, m.n, log.sectors, log.n, s);
      view := view[s := data];
      logged := logged + {s};
    }

    /** brelse. */
    method Brelse(s: nat)
      requires Valid() && s in held
      modifies this, log, log.bc
      ensures Safe() && Valid() && view == old(view) && logged == old(logged) && held == old(held) - {s}
    {
      hide ListOk; hide TableOk; hide CleanOk; hide HeldOk; hide PinnedOk; hide Kept; hide Spared;
      hide Install; hide HomeHeld; hide HistoryOk; hide Has;
      ghost var m := log.Snap();
      log.Release(bp[s]);
      ReleasedHandles(m, log.Snap(), log.owner, view, bp, s);
      bp := bp - {s};
      held := held - {s};
    }

    /**
     * commit_trans: what the transaction sees is now committed, and every disk state from the commit
     * on recovers to it.
     */
    method Commit() returns (o: Outcome)
      requires Valid() && held == {}
      modifies this, log, log.bc
      ensures o == Done || o == Panic(NoBuffer)
      ensures o.Panic? ==> Scarce(log.Snap(), log.owner, |old(logged)|)
      ensures HistoryOk(log.bc.trace, log.history, log.start, log.size)
      ensures Grown(old(log.bc.trace), old(log.history), log.bc.trace, log.history, old(view))
      ensures o.Done? ==>
        && log.Valid() && !log.busy && log.committed == log.Home() == old(view) && log.owner == old(log.owner)
        && log.HoldsNone()
    {
      hide ListOk; hide TableOk; hide CleanOk; hide HeldOk; hide PinnedOk; hide Install; hide HomeHeld;
      hide HistoryOk; hide Has;
      SectorSetSize(log.sectors, log.n);
      o := log.CommitTrans();
    }
  }
}
