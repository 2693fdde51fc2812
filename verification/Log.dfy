/**
 * The redo log of log.c on top of the buffer cache.  The ghost history pairs every state the disk
 * has been in with the home contents that were committed at that moment.
 */
module Log {
  import opened Common
  import opened Blocks
  import opened LruRing
  import opened BufferCache
  import opened LogSpec

  /** Everything a block's contents depend on: the disk, the cache and the in-memory header. */
  datatype Mem = Mem(disk: Disk, bufs: seq<Buf>, where: map<nat, nat>, holder: map<nat, nat>, n: nat,
      sectors: seq<nat>, recovering: bool)
  {
    ghost predicate Cached() { TableOk(bufs, where, holder) && CleanOk(bufs, disk) }

    ghost predicate Mine(me: nat, b: nat) { b in holder && holder[b] == me }
  }

  ghost predicate Listed(m: Mem, start: nat, size: nat)
  {
    && Fits(m.disk, start, size)
    && |m.sectors| == LOGSIZE && m.n <= LOGSIZE && m.n < size
    && (forall i | 0 <= i < m.n :: m.sectors[i] < start)
    && (forall i, j | 0 <= i < j < m.n :: m.sectors[i] != m.sectors[j])
  }

  /** Readers hold home buffers whose contents they have not changed. */
  ghost predicate HeldOk(m: Mem, start: nat, me: nat)
    requires m.Cached()
  {
    forall b | b in m.holder ::
      && m.bufs[b].valid
      && (m.holder[b] != me ==>
            m.bufs[b].sector < start && (!m.bufs[b].dirty ==> m.bufs[b].data == m.disk[m.bufs[b].sector]))
  }

  /**
   * The first k logged blocks are at home on disk.  The others are pinned in the cache by their dirty
   * mark, with the logged contents unless the transaction's own process is changing them.  During
   * recovery nothing is dirty and no other process runs.
   */
  ghost predicate PinnedOk(m: Mem, start: nat, size: nat, me: nat, k: nat)
    requires Listed(m, start, size) && m.Cached()
  {
    && k <= m.n && CopiedOk(m, start, size, k) && DirtyOk(m, start, size, k)
    && QuietOk(m, me) && PinsOk(m, start, size, me, k)
  }

  ghost predicate CopiedOk(m: Mem, start: nat, size: nat, k: nat)
    requires Listed(m, start, size) && k <= m.n
  {
    forall i | 0 <= i < k :: m.disk[m.sectors[i]] == m.disk[start + 1 + i]
  }

  ghost predicate DirtyOk(m: Mem, start: nat, size: nat, k: nat)
    requires Listed(m, start, size) && m.Cached()
  {
    forall b | 0 <= b < NBUF && m.bufs[b].dirty :: Has(m.sectors, k, m.n, m.bufs[b].sector)
  }

  ghost predicate QuietOk(m: Mem, me: nat)
    requires m.Cached()
  {
    m.recovering ==>
      && (forall b | 0 <= b < NBUF :: !m.bufs[b].dirty)
      && (forall b | b in m.holder :: m.holder[b] == me)
  }

  ghost predicate PinsOk(m: Mem, start: nat, size: nat, me: nat, k: nat)
    requires Listed(m, start, size) && m.Cached()
  {
    forall i | k <= i < m.n && !m.recovering ::
      && m.sectors[i] in m.where && m.bufs[m.where[m.sectors[i]]].dirty
      && (m.Mine(me, m.where[m.sectors[i]]) || m.bufs[m.where[m.sectors[i]]].data == m.disk[start + 1 + i])
  }

  ghost predicate Inv(m: Mem, start: nat, size: nat, me: nat, k: nat)
  {
    m.Cached() && Listed(m, start, size) && HeldOk(m, start, me) && PinnedOk(m, start, size, me, k)
  }

  /** Home as the running system sees it: the last block logged for a sector, else the disk's. */
  ghost function View(m: Mem, start: nat, size: nat): Disk
    requires Listed(m, start, size)
  {
    Install(m.disk[..start], m.sectors, m.disk[start + 1..], m.n)
  }

  /** Every state the disk has been in recovers to what was committed then. */
  ghost predicate HistoryOk(trace: seq<Disk>, history: seq<Disk>, start: nat, size: nat)
  {
    && |trace| == |history| > 0
    && forall j | 0 <= j < |trace| :: LogOk(trace[j], start, size) && Recovered(trace[j], start, size) == history[j]
  }

  /** The disk went through more states, each of which recovers to c. */
  ghost predicate Grown(trace: seq<Disk>, history: seq<Disk>, trace': seq<Disk>, history': seq<Disk>, c: Disk)
  {
    && trace <= trace' && history <= history'
    && forall j | |history| <= j < |history'| :: history'[j] == c
  }

  lemma GrownSelf(trace: seq<Disk>, history: seq<Disk>, c: Disk)
    ensures Grown(trace, history, trace, history, c)
  {
  }

  lemma GrownTransitive(t0: seq<Disk>, h0: seq<Disk>, t1: seq<Disk>, h1: seq<Disk>, t2: seq<Disk>, h2: seq<Disk>,
      c: Disk)
    requires Grown(t0, h0, t1, h1, c) && Grown(t1, h1, t2, h2, c)
    ensures Grown(t0, h0, t2, h2, c)
  {
    forall j | |h0| <= j < |h2|
      ensures h2[j] == c
    {
      if j < |h1| { assert h2[j] == h1[j]; }
    }
  }

  lemma Grow(trace: seq<Disk>, history: seq<Disk>, d: Disk, c: Disk, start: nat, size: nat)
    requires HistoryOk(trace, history, start, size) && LogOk(d, start, size) && Recovered(d, start, size) == c
    ensures HistoryOk(trace + [d], history + [c], start, size)
    ensures Grown(trace, history, trace + [d], history + [c], c)
    ensures (history + [c])[|history + [c]| - 1] == c
  {
  }

  /** Process me holds only home buffers. */
  ghost predicate HomeHeld(me: nat, start: nat, m: Mem)
  {
    forall c | c in m.holder && m.holder[c] == me :: c < |m.bufs| && m.bufs[c].sector < start
  }

  lemma SameHeldHome(me: nat, start: nat, m: Mem, m': Mem, b: nat)
    requires HomeHeld(me, start, m) && SameHeld(me, m, m', b) && b < NBUF && m'.bufs[b].sector == m.bufs[b].sector
    ensures HomeHeld(me, start, m')
  {
    forall c | c in m'.holder && m'.holder[c] == me
      ensures c < |m'.bufs| && m'.bufs[c].sector < start
    {
      assert m'.Mine(me, c) && m.Mine(me, c);
    }
  }

  /** The buffers process me holds, and the contents of all of them but b, are the same. */
  ghost predicate SameHeld(me: nat, m: Mem, m': Mem, b: nat)
  {
    && |m.bufs| == |m'.bufs| == NBUF
    && (forall c: nat :: m'.Mine(me, c) <==> m.Mine(me, c))
    && (forall c: nat | m.Mine(me, c) && c < NBUF && c != b :: m'.bufs[c] == m.bufs[c])
  }

  /** What steps of other processes leave alone for process me. */
  ghost predicate Spared(me: nat, m: Mem, m': Mem)
  {
    && m.disk == m'.disk && m.n == m'.n && m.sectors == m'.sectors && m.recovering == m'.recovering
    && |m.bufs| == |m'.bufs| == NBUF
    && (forall b :: m.Mine(me, b) <==> m'.Mine(me, b))
    && (forall b | 0 <= b < NBUF && m.Mine(me, b) :: m'.bufs[b] == m.bufs[b])
    && (forall b | 0 <= b < NBUF :: m.bufs[b].dirty <==> m'.bufs[b].dirty)
    && (forall b | 0 <= b < NBUF && m.bufs[b].dirty ::
        m'.bufs[b].sector == m.bufs[b].sector && m'.bufs[b].data == m.bufs[b].data)
  }

  lemma SparedSelf(me: nat, m: Mem)
    requires m.Cached()
    ensures Spared(me, m, m)
    ensures |m.bufs| == NBUF && forall b | b in m.holder :: b < NBUF
  {
  }

  lemma SparedTransitive(me: nat, m: Mem, m': Mem, m'': Mem)
    requires Spared(me, m, m') && Spared(me, m', m'')
    ensures Spared(me, m, m'')
  {
  }

  /** Buffers may be taken, and unchanged or logged ones given back, without breaking the invariant. */
  lemma KeepInv(m: Mem, m': Mem, start: nat, size: nat, me: nat, k: nat, pid: nat)
    requires Inv(m, start, size, me, k) && m'.Cached()
    requires m.disk == m'.disk && m.n == m'.n && m.sectors == m'.sectors && m.recovering == m'.recovering
    requires Kept(pid, m.bufs, m.holder, m'.bufs, m'.holder)
    requires HeldOk(m', start, me)
    requires m.recovering ==> pid == me
    requires forall b: nat | m.Mine(me, b) && !m'.Mine(me, b) && m.bufs[b].dirty ::
      forall i | k <= i < m.n && m.sectors[i] == m.bufs[b].sector :: m.bufs[b].data == m.disk[start + 1 + i]
    ensures Inv(m', start, size, me, k)
  {
    forall i | k <= i < m.n && !m.recovering
      ensures m'.sectors[i] in m'.where && m'.bufs[m'.where[m'.sectors[i]]].dirty
      ensures m'.Mine(me, m'.where[m'.sectors[i]]) || m'.bufs[m'.where[m'.sectors[i]]].data == m'.disk[start + 1 + i]
    {
      var b := m.where[m.sectors[i]];
      assert m'.bufs[b].dirty && m'.bufs[b].sector == m.sectors[i];
      assert m'.where[m.sectors[i]] == b;
    }
  }

  /** The effect of bread: process q holds b, which has the sector's contents. */
  ghost predicate Took(m: Mem, m': Mem, q: nat, b: nat, s: nat)
  {
    && m.disk == m'.disk && m.n == m'.n && m.sectors == m'.sectors && m.recovering == m'.recovering && s < |m.disk|
    && |m.bufs| == |m'.bufs| == NBUF && b < NBUF && b !in m.holder && m'.holder == m.holder[b := q]
    && m'.bufs == m.bufs[b := m'.bufs[b]] && m'.bufs[b].valid && m'.bufs[b].sector == s
    && (m'.bufs[b].dirty || m'.bufs[b].data == m.disk[s])
    && Kept(q, m.bufs, m.holder, m'.bufs, m'.holder)
  }

  lemma TakeSpared(m: Mem, m': Mem, me: nat, q: nat, b: nat, s: nat)
    requires Took(m, m', q, b, s)
    ensures q != me ==> Spared(me, m, m')
    ensures q == me ==> Spared(me, m, m'.(holder := m'.holder - {b}))
  {
  }

  lemma TakeInv(m: Mem, m': Mem, start: nat, size: nat, me: nat, k: nat, q: nat, b: nat, s: nat)
    requires Inv(m, start, size, me, k) && m'.Cached() && Took(m, m', q, b, s)
    requires q != me ==> s < start && !m.recovering
    ensures Inv(m', start, size, me, k)
    ensures q != me ==> Spared(me, m, m')
    ensures q == me ==> Spared(me, m, m'.(holder := m'.holder - {b}))
  {
    hide Kept; hide Spared; hide CleanOk;
    TakeSpared(m, m', me, q, b, s);
    assert HeldOk(m', start, me);
    hide HeldOk; hide PinnedOk; hide TableOk;
    assert forall c: nat | m.Mine(me, c) :: m'.Mine(me, c);
    KeepInv(m, m', start, size, me, k, q);
  }

  /** Process me now holds b for sector s; nothing else it depends on has changed. */
  ghost predicate Acquired(me: nat, m: Mem, m': Mem, b: nat, s: nat)
  {
    && |m'.bufs| == NBUF && b < NBUF && m'.Mine(me, b) && !m.Mine(me, b)
    && m'.bufs[b].valid && m'.bufs[b].sector == s && s in m'.where && m'.where[s] == b
    && Spared(me, m, m'.(holder := m'.holder - {b}))
  }

  /** The effect of brelse. */
  ghost predicate Gave(m: Mem, m': Mem, q: nat, b: nat)
  {
    && m.disk == m'.disk && m.n == m'.n && m.sectors == m'.sectors && m.recovering == m'.recovering
    && |m.bufs| == NBUF && b < NBUF && m.Mine(q, b) && m'.holder == m.holder - {b}
    && m'.bufs == m.bufs[b := m.bufs[b].(busy := false)]
    && Kept(q, m.bufs, m.holder, m'.bufs, m'.holder)
  }

  lemma GiveInv(m: Mem, m': Mem, start: nat, size: nat, me: nat, k: nat, q: nat, b: nat)
    requires Inv(m, start, size, me, k) && m'.Cached() && Gave(m, m', q, b)
    requires q != me ==> !m.recovering
    requires q == me && m.bufs[b].dirty ==>
      forall i | k <= i < m.n && m.sectors[i] == m.bufs[b].sector :: m.bufs[b].data == m.disk[start + 1 + i]
    ensures Inv(m', start, size, me, k)
    ensures q != me ==> Spared(me, m, m')
  {
    KeepInv(m, m', start, size, me, k, q);
  }

  lemma ViewAt(m: Mem, start: nat, size: nat, s: nat)
    requires Listed(m, start, size) && s < start
    ensures forall i | 0 <= i < m.n && m.sectors[i] == s :: View(m, start, size)[s] == m.disk[start + 1 + i]
    ensures !Has(m.sectors, 0, m.n, s) ==> View(m, start, size)[s] == m.disk[s]
  {
    InstallAt(m.disk[..start], m.sectors, m.disk[start + 1..], m.n, s);
    forall i | 0 <= i < m.n && m.sectors[i] == s
      ensures View(m, start, size)[s] == m.disk[start + 1 + i]
    {
      assert m.disk[start + 1..][i] == m.disk[start + 1 + i];
    }
  }

  /**
   * The overlay: whatever has been recycled, the cache holds for every home sector what was last
   * logged for it, or else its committed contents.
   */
  lemma CurrentIsView(m: Mem, start: nat, size: nat, me: nat, k: nat, s: nat)
    requires Inv(m, start, size, me, k) && s < start && !m.recovering
    requires s in m.where ==> !m.Mine(me, m.where[s])
    ensures Current(m.bufs, m.where, m.disk, s) == View(m, start, size)[s]
  {
    ViewAt(m, start, size, s);
    if Has(m.sectors, 0, m.n, s) {
      var i :| 0 <= i < m.n && m.sectors[i] == s;
      if i < k { assert !Has(m.sectors, k, m.n, s); }
    }
  }

  /** The header block h lists the first n of the sectors. */
  ghost predicate Lists(h: Block, n: nat, sectors: seq<nat>)
  {
    && HeadN(h) == n <= LOGSIZE && n <= |sectors|
    && forall i | 0 <= i < n :: HeadSector(h, i) == sectors[i]
  }

  /** With that header on disk, recovery produces home as the running system sees it. */
  lemma HeadRecovers(m: Mem, start: nat, size: nat, h: Block)
    requires Listed(m, start, size) && Lists(h, m.n, m.sectors)
    ensures LogOk(m.disk[start := h], start, size)
    ensures Recovered(m.disk[start := h], start, size) == View(m, start, size)
  {
    var d := m.disk[start := h];
    assert d[..start] == m.disk[..start] && d[start + 1..] == m.disk[start + 1..];
    assert HeadList(h, m.n) == m.sectors[..m.n];
    assert LogOk(d, start, size);
    InstallPrefix(m.disk[..start], m.sectors, m.disk[start + 1..], m.n, m.n);
  }

  /** Only the first k sectors matter. */
  lemma {:induction false} InstallPrefix(home: Disk, sectors: seq<nat>, blocks: Disk, n: nat, k: nat)
    requires k <= n <= |sectors| && k <= |blocks| && forall i | 0 <= i < k :: sectors[i] < |home|
    ensures Install(home, sectors[..n], blocks, k) == Install(home, sectors, blocks, k)
  {
    if k > 0 {
      InstallPrefix(home, sectors, blocks, n, k - 1);
    }
  }

  lemma HeadHeld(m: Mem, m': Mem, start: nat, size: nat, me: nat, k: nat, lb: nat, h: Block)
    requires Inv(m, start, size, me, k) && m'.Cached() && lb < NBUF && m.Mine(me, lb) && m.bufs[lb].sector == start
    requires m' == m.(disk := m.disk[start := h], holder := m.holder - {lb},
                      bufs := m.bufs[lb := m.bufs[lb].(data := h, dirty := false, busy := false)])
    ensures HeldOk(m', start, me)
  {
    hide CleanOk; hide PinnedOk;
  }

  /** Rewriting the header block touches nothing the invariant speaks of. */
  lemma HeadInv(m: Mem, m': Mem, start: nat, size: nat, me: nat, k: nat, lb: nat, h: Block)
    requires Inv(m, start, size, me, k) && m'.Cached() && lb < NBUF && m.Mine(me, lb) && m.bufs[lb].sector == start
    requires m' == m.(disk := m.disk[start := h], holder := m.holder - {lb},
                      bufs := m.bufs[lb := m.bufs[lb].(data := h, dirty := false, busy := false)])
    ensures Inv(m', start, size, me, k)
    ensures View(m', start, size) == View(m, start, size)
  {
    hide CleanOk; hide HeldOk; hide Has;
    HeadHeld(m, m', start, size, me, k, lb, h);
    assert m'.disk[..start] == m.disk[..start] && m'.disk[start + 1..] == m.disk[start + 1..];
    forall i | k <= i < m.n && !m.recovering
      ensures m'.sectors[i] in m'.where && m'.bufs[m'.where[m'.sectors[i]]] == m.bufs[m.where[m.sectors[i]]]
    {
      assert m.where[m.sectors[i]] != lb;
    }
  }

  /** The effect of one turn of install_trans: block k is copied home and both buffers are given back. */
  ghost predicate Installed(m: Mem, m': Mem, start: nat, k: nat, lb: nat, db: nat)
  {
    && |m.bufs| == NBUF && lb < NBUF && db < NBUF && lb != db && k < m.n <= |m.sectors| && start + 1 + k < |m.disk|
    && m.sectors[k] < |m.disk|
    && m' == m.(disk := m.disk[m.sectors[k] := m.disk[start + 1 + k]], holder := m.holder - {lb} - {db},
                bufs := m.bufs[db := m.bufs[db].(data := m.disk[start + 1 + k], dirty := false, busy := false)]
                              [lb := m.bufs[lb].(busy := false)])
  }

  lemma InstalledHeld(m: Mem, m': Mem, start: nat, size: nat, me: nat, k: nat, lb: nat, db: nat)
    requires Inv(m, start, size, me, k) && m'.Cached() && Installed(m, m', start, k, lb, db)
    requires m.Mine(me, lb) && m.Mine(me, db) && m.bufs[lb].sector == start + 1 + k && m.bufs[db].sector == m.sectors[k]
    ensures HeldOk(m', start, me)
  {
    hide PinnedOk;
  }

  lemma InstalledInv(m: Mem, m': Mem, start: nat, size: nat, me: nat, k: nat, lb: nat, db: nat)
    requires Inv(m, start, size, me, k) && m'.Cached() && Installed(m, m', start, k, lb, db)
    requires m.Mine(me, lb) && m.Mine(me, db) && m.bufs[lb].sector == start + 1 + k && m.bufs[db].sector == m.sectors[k]
    ensures Inv(m', start, size, me, k + 1)
    ensures View(m', start, size) == View(m, start, size)
  {
    hide CleanOk; hide HeldOk; hide PinnedOk; hide TableOk;
    InstalledHeld(m, m', start, size, me, k, lb, db);
    InstalledPinned(m, m', start, size, me, k, lb, db);
    assert m'.disk[start + 1..] == m.disk[start + 1..];
    assert Has(m.sectors, 0, m.n, m.sectors[k]);
    InstallSame(m.disk[..start], m'.disk[..start], m.sectors, m.disk[start + 1..], m.n);
  }

  lemma InstalledDirty(m: Mem, m': Mem, start: nat, size: nat, me: nat, k: nat, lb: nat, db: nat, c: nat)
    requires Inv(m, start, size, me, k) && m'.Cached() && Installed(m, m', start, k, lb, db)
    requires m.Mine(me, lb) && m.Mine(me, db) && m.bufs[lb].sector == start + 1 + k && m.bufs[db].sector == m.sectors[k]
    requires c < NBUF && m'.bufs[c].dirty
    ensures Has(m'.sectors, k + 1, m'.n, m'.bufs[c].sector)
  {
    hide HeldOk;
    assert Has(m.sectors, k, m.n, m.bufs[c].sector);
    var j :| k <= j < m.n && m.sectors[j] == m.bufs[c].sector;
    assert m.where[m.bufs[db].sector] == db && m.where[m.bufs[c].sector] == c != db;
    assert m'.sectors[j] == m'.bufs[c].sector;
  }

  lemma InstalledPin(m: Mem, m': Mem, start: nat, size: nat, me: nat, k: nat, lb: nat, db: nat, i: nat)
    requires Inv(m, start, size, me, k) && m'.Cached() && Installed(m, m', start, k, lb, db)
    requires m.Mine(me, lb) && m.Mine(me, db) && m.bufs[lb].sector == start + 1 + k && m.bufs[db].sector == m.sectors[k]
    requires k + 1 <= i < m.n && !m.recovering
    ensures m'.sectors[i] in m'.where && m'.bufs[m'.where[m'.sectors[i]]].dirty
    ensures m'.Mine(me, m'.where[m'.sectors[i]]) || m'.bufs[m'.where[m'.sectors[i]]].data == m'.disk[start + 1 + i]
  {
    hide HeldOk; hide CleanOk;
    assert m.sectors[i] != m.sectors[k];
    assert m.where[m.sectors[i]] != lb && m.where[m.sectors[i]] != db;
  }

  lemma InstalledPinned(m: Mem, m': Mem, start: nat, size: nat, me: nat, k: nat, lb: nat, db: nat)
    requires Inv(m, start, size, me, k) && m'.Cached() && Installed(m, m', start, k, lb, db)
    requires m.Mine(me, lb) && m.Mine(me, db) && m.bufs[lb].sector == start + 1 + k && m.bufs[db].sector == m.sectors[k]
    ensures Listed(m', start, size) && PinnedOk(m', start, size, me, k + 1)
  {
    hide HeldOk; hide CleanOk; hide TableOk; hide Has;
    assert Listed(m', start, size);
    assert DirtyOk(m', start, size, k + 1) by {
      forall c: nat | c < NBUF && m'.bufs[c].dirty { InstalledDirty(m, m', start, size, me, k, lb, db, c); }
    }
    hide DirtyOk;
    assert PinsOk(m', start, size, me, k + 1) by {
      forall i: nat | k + 1 <= i < m.n && !m.recovering { InstalledPin(m, m', start, size, me, k, lb, db, i); }
    }
    hide PinsOk;
    assert CopiedOk(m', start, size, k + 1);
  }

  lemma ForgetInv(m: Mem, start: nat, size: nat, me: nat)
    requires Inv(m, start, size, me, m.n)
    ensures Inv(m.(n := 0), start, size, me, 0)
    ensures View(m.(n := 0), start, size) == View(m, start, size) == m.disk[..start]
  {
    forall t | 0 <= t < start
      ensures View(m, start, size)[t] == m.disk[t]
    {
      ViewAt(m, start, size, t);
      if Has(m.sectors, 0, m.n, t) {
        var i :| 0 <= i < m.n && m.sectors[i] == t;
      }
    }
  }

  lemma ReadHeadInv(m: Mem, start: nat, size: nat, me: nat, sectors: seq<nat>, h: Block)
    requires Inv(m, start, size, me, 0) && m.recovering && m.n == 0 && |sectors| == LOGSIZE
    requires LogOk(m.disk, start, size) && h == m.disk[start] && Lists(h, HeadN(h), sectors)
    ensures Inv(m.(n := HeadN(h), sectors := sectors), start, size, me, 0)
  {
  }

  lemma RecoveredInv(m: Mem, start: nat, size: nat, me: nat)
    requires Inv(m, start, size, me, 0) && m.recovering && m.n == 0
    ensures Inv(m.(recovering := false), start, size, me, 0)
    ensures View(m.(recovering := false), start, size) == View(m, start, size)
  {
  }

  lemma ModifyInv(m: Mem, m': Mem, start: nat, size: nat, me: nat, b: nat, data: Block)
    requires Inv(m, start, size, me, 0) && m'.Cached() && b < NBUF && m.Mine(me, b)
    requires m' == m.(bufs := m.bufs[b := m.bufs[b].(data := data)])
    ensures Inv(m', start, size, me, 0) && SameHeld(me, m, m', b)
  {
    assert HeldOk(m', start, me);
    hide HeldOk; hide CleanOk;
  }

  lemma ReleaseReady(m: Mem, start: nat, size: nat, me: nat, b: nat)
    requires Inv(m, start, size, me, 0) && !m.recovering && b < NBUF && m.Mine(me, b) && m.bufs[b].sector < start
    requires m.bufs[b].data == View(m, start, size)[m.bufs[b].sector]
    ensures m.bufs[b].valid && m.bufs[b].sector < |m.disk|
    ensures m.bufs[b].dirty || m.bufs[b].data == m.disk[m.bufs[b].sector]
    ensures forall i | 0 <= i < m.n && m.sectors[i] == m.bufs[b].sector :: m.bufs[b].data == m.disk[start + 1 + i]
  {
    var s := m.bufs[b].sector;
    ViewAt(m, start, size, s);
    if Has(m.sectors, 0, m.n, s) {
      var i :| 0 <= i < m.n && m.sectors[i] == s;
      assert m.where[m.sectors[i]] == b;
    }
  }

  lemma NotMine(m0: Mem, m: Mem, me: nat, s: nat)
    requires m0.Cached() && m.Cached() && Spared(me, m0, m)
    requires s in m0.where ==> !m0.Mine(me, m0.where[s])
    ensures s in m.where ==> !m.Mine(me, m.where[s])
  {
  }

  lemma WaitReader(m: Mem, start: nat, size: nat, me: nat, k: nat, s: nat)
    requires Inv(m, start, size, me, k) && s in m.where && !m.Mine(me, m.where[s]) && m.bufs[m.where[s]].busy
    ensures m.where[s] in m.holder && m.holder[m.where[s]] != me && !m.recovering
  {
  }

  lemma AcquireFacts(m0: Mem, m: Mem, m': Mem, start: nat, size: nat, me: nat, k: nat, b: nat, s: nat)
    requires Inv(m, start, size, me, k) && m'.Cached() && Took(m, m', me, b, s)
    requires Spared(me, m0, m) && Spared(me, m, m'.(holder := m'.holder - {b}))
    requires s in m'.where && m'.where[s] == b && m'.bufs[b].data == Current(m.bufs, m.where, m.disk, s)
    requires s in m.where ==> !m.Mine(me, m.where[s])
    ensures Acquired(me, m0, m', b, s)
    ensures s < start && !m.recovering ==> m'.bufs[b].data == View(m', start, size)[s]
    ensures s >= start ==> m'.bufs[b].data == m.disk[s]
  {
    SparedTransitive(me, m0, m, m'.(holder := m'.holder - {b}));
    if s < start && !m.recovering {
      CurrentIsView(m, start, size, me, k, s);
    }
  }

  lemma SlotPinned(m: Mem, start: nat, size: nat, me: nat, i: nat, s: nat)
    requires Inv(m, start, size, me, 0) && i < LOGSIZE && (i < m.n ==> m.sectors[i] == s) && i <= m.n
    ensures Inv(m.(sectors := m.sectors[i := s]), start, size, me, 0)
  {
    HasSame(m.sectors, m.sectors[i := s], 0, m.n);
    hide TableOk; hide CleanOk; hide Has;
  }

  /** log_write stores the sector in the first free slot of the header before the log block is written. */
  lemma SlotInv(m: Mem, start: nat, size: nat, me: nat, i: nat, s: nat)
    requires Inv(m, start, size, me, 0) && i < LOGSIZE && (i < m.n ==> m.sectors[i] == s) && i <= m.n
    ensures Inv(m.(sectors := m.sectors[i := s]), start, size, me, 0)
    ensures View(m.(sectors := m.sectors[i := s]), start, size) == View(m, start, size)
  {
    var m' := m.(sectors := m.sectors[i := s]);
    HasSame(m.sectors, m'.sectors, 0, m.n);
    SlotPinned(m, start, size, me, i, s);
    hide TableOk; hide CleanOk; hide PinnedOk; hide HeldOk; hide Install; hide Has;
    forall t | 0 <= t < start
      ensures View(m', start, size)[t] == View(m, start, size)[t]
    {
      ViewAt(m, start, size, t);
      ViewAt(m', start, size, t);
    }
  }

  /** The effect of the rest of log_write: log block i written, the header counts it, b marked dirty. */
  ghost predicate Logged(m: Mem, m': Mem, start: nat, b: nat, lb: nat, i: nat)
  {
    && |m.bufs| == NBUF && b < NBUF && lb < NBUF && lb != b && i <= m.n && start + 1 + i < |m.disk|
    && m'.disk == m.disk[start + 1 + i := m.bufs[b].data]
    && m'.bufs == m.bufs[lb := m.bufs[lb].(data := m.bufs[b].data, dirty := false, busy := false)]
                        [b := m.bufs[b].(dirty := true)]
    && m'.holder == m.holder - {lb} && m'.where == m.where
    && m'.sectors == m.sectors && m'.n == (if i == m.n then m.n + 1 else m.n) && m'.recovering == m.recovering
  }

  lemma LoggedPin(m: Mem, m': Mem, start: nat, size: nat, me: nat, b: nat, lb: nat, i: nat, j: nat)
    requires Inv(m, start, size, me, 0) && m'.Cached() && Logged(m, m', start, b, lb, i) && !m.recovering
    requires m.Mine(me, b) && m.Mine(me, lb) && m.bufs[b].sector < start && m.bufs[lb].sector == start + 1 + i
    requires m.n < LOGSIZE && m.n + 1 < size && m.sectors[i] == m.bufs[b].sector
    requires i == m.n ==> !Has(m.sectors, 0, m.n, m.bufs[b].sector)
    requires j < m'.n
    ensures m'.sectors[j] in m'.where && m'.bufs[m'.where[m'.sectors[j]]].dirty
    ensures m'.Mine(me, m'.where[m'.sectors[j]]) || m'.bufs[m'.where[m'.sectors[j]]].data == m'.disk[start + 1 + j]
  {
    assert m.bufs[b].sector in m.where && m.where[m.bufs[b].sector] == b;
    hide HeldOk; hide CleanOk;
    if j != i {
      assert m.sectors[j] != m.sectors[i];
      assert m.where[m.sectors[j]] != b && m.where[m.sectors[j]] != lb;
    }
  }

  lemma LoggedDirty(m: Mem, m': Mem, start: nat, size: nat, me: nat, b: nat, lb: nat, i: nat, c: nat)
    requires Inv(m, start, size, me, 0) && m'.Cached() && Logged(m, m', start, b, lb, i) && !m.recovering
    requires m.Mine(me, b) && m.Mine(me, lb) && m.bufs[b].sector < start && m.bufs[lb].sector == start + 1 + i
    requires m.n < LOGSIZE && m.n + 1 < size && m.sectors[i] == m.bufs[b].sector
    requires i == m.n ==> !Has(m.sectors, 0, m.n, m.bufs[b].sector)
    requires c < NBUF && m'.bufs[c].dirty
    ensures Has(m'.sectors, 0, m'.n, m'.bufs[c].sector)
  {
    hide HeldOk; hide CleanOk; hide TableOk;
    if c == b {
      assert m'.sectors[i] == m'.bufs[c].sector;
    } else {
      assert Has(m.sectors, 0, m.n, m.bufs[c].sector);
    }
  }

  lemma LoggedPinned(m: Mem, m': Mem, start: nat, size: nat, me: nat, b: nat, lb: nat, i: nat)
    requires Inv(m, start, size, me, 0) && m'.Cached() && Logged(m, m', start, b, lb, i) && !m.recovering
    requires m.Mine(me, b) && m.Mine(me, lb) && m.bufs[b].sector < start && m.bufs[lb].sector == start + 1 + i
    requires m.n < LOGSIZE && m.n + 1 < size && m.sectors[i] == m.bufs[b].sector
    requires i == m.n ==> !Has(m.sectors, 0, m.n, m.bufs[b].sector)
    ensures Listed(m', start, size) && PinnedOk(m', start, size, me, 0)
  {
    hide HeldOk; hide CleanOk; hide TableOk;
    assert i == m.n ==> forall j | 0 <= j < m.n :: m.sectors[j] != m.sectors[i];
    hide Has;
    assert Listed(m', start, size);
    assert DirtyOk(m', start, size, 0) by {
      forall c: nat | c < NBUF && m'.bufs[c].dirty { LoggedDirty(m, m', start, size, me, b, lb, i, c); }
    }
    hide DirtyOk;
    assert PinsOk(m', start, size, me, 0) by {
      forall j: nat | j < m'.n { LoggedPin(m, m', start, size, me, b, lb, i, j); }
    }
    hide PinsOk;
  }

  lemma LoggedView(m: Mem, m': Mem, start: nat, size: nat, b: nat, lb: nat, i: nat)
    requires Listed(m, start, size) && Listed(m', start, size) && Logged(m, m', start, b, lb, i)
    requires i < LOGSIZE && m.sectors[i] == m.bufs[b].sector < start
    requires i == m.n ==> !Has(m.sectors, 0, m.n, m.bufs[b].sector)
    ensures View(m', start, size) == View(m, start, size)[m.bufs[b].sector := m.bufs[b].data]
  {
    forall t | 0 <= t < start
      ensures View(m', start, size)[t] == View(m, start, size)[m.bufs[b].sector := m.bufs[b].data][t]
    {
      ViewAt(m, start, size, t);
      ViewAt(m', start, size, t);
      if Has(m.sectors, 0, m.n, t) {
        var j :| 0 <= j < m.n && m.sectors[j] == t;
        assert m'.sectors[j] == t;
      }
    }
  }

  lemma LoggedInv(m: Mem, m': Mem, start: nat, size: nat, me: nat, b: nat, lb: nat, i: nat)
    requires Inv(m, start, size, me, 0) && m'.Cached() && Logged(m, m', start, b, lb, i) && !m.recovering
    requires m.Mine(me, b) && m.Mine(me, lb) && m.bufs[b].sector < start && m.bufs[lb].sector == start + 1 + i
    requires m.n < LOGSIZE && m.n + 1 < size && m.sectors[i] == m.bufs[b].sector
    requires i == m.n ==> !Has(m.sectors, 0, m.n, m.bufs[b].sector)
    ensures Inv(m', start, size, me, 0)
    ensures View(m', start, size) == View(m, start, size)[m.bufs[b].sector := m.bufs[b].data]
  {
    hide PinnedOk; hide View;
    LoggedPinned(m, m', start, size, me, b, lb, i);
    LoggedView(m, m', start, size, b, lb, i);
    assert HeldOk(m', start, me);
  }

  lemma AcquiredKeeps(me: nat, m: Mem, m': Mem, lb: nat, s: nat)
    requires m.Cached() && Acquired(me, m, m', lb, s)
    ensures m.disk == m'.disk && m.n == m'.n && m.sectors == m'.sectors && |m.bufs| == NBUF
    ensures forall c: nat :: m'.Mine(me, c) <==> m.Mine(me, c) || c == lb
    ensures forall c | c in m'.holder && m'.holder[c] == me :: c == lb || (c in m.holder && m.holder[c] == me)
    ensures forall c: nat | m.Mine(me, c) :: c < NBUF && c != lb && m'.bufs[c] == m.bufs[c]
  {
    forall c: nat
      ensures m'.Mine(me, c) <==> m.Mine(me, c) || c == lb
    {
      assert m.Mine(me, c) <==> m'.(holder := m'.holder - {lb}).Mine(me, c);
    }
    forall c | c in m'.holder && m'.holder[c] == me
      ensures c == lb || (c in m.holder && m.holder[c] == me)
    {
      assert m'.Mine(me, c);
    }
  }

  lemma HomeBlockFree(m: Mem, start: nat, size: nat, me: nat, k: nat, s: nat)
    requires Inv(m, start, size, me, k) && s < start
    requires forall c: nat | m.Mine(me, c) && c < |m.bufs| :: m.bufs[c].sector >= start
    ensures s in m.where ==> !m.Mine(me, m.where[s])
  {
  }

  lemma LastState(trace: seq<Disk>, history: seq<Disk>, start: nat, size: nat)
    requires HistoryOk(trace, history, start, size)
    ensures LogOk(trace[|trace| - 1], start, size)
    ensures Recovered(trace[|trace| - 1], start, size) == history[|history| - 1]
  {
  }

  lemma AcquiredHome(me: nat, start: nat, m: Mem, m': Mem, b: nat, s: nat)
    requires m.Cached() && m'.Cached() && HomeHeld(me, start, m)
    requires if b < NBUF then Acquired(me, m, m', b, s) && s < start else Spared(me, m, m')
    ensures HomeHeld(me, start, m')
  {
    if b < NBUF {
      AcquiredKeeps(me, m, m', b, s);
    }
    forall c | c in m'.holder && m'.holder[c] == me
      ensures c < |m'.bufs| && m'.bufs[c].sector < start
    {
      assert m'.Mine(me, c);
    }
  }

  /** The buffers that cache the sectors listed from lo up to hi. */
  ghost function Slots(where: map<nat, nat>, sectors: seq<nat>, lo: nat, hi: nat): set<nat>
    requires hi <= |sectors|
  {
    set i | lo <= i < hi && sectors[i] in where :: where[sectors[i]]
  }

  ghost predicate Apart(where: map<nat, nat>, sectors: seq<nat>, lo: nat, hi: nat)
    requires hi <= |sectors|
  {
    && (forall i | lo <= i < hi :: sectors[i] in where)
    && (forall i, j | lo <= i < j < hi :: where[sectors[i]] != where[sectors[j]])
  }

  lemma {:induction false} SlotsCount(where: map<nat, nat>, sectors: seq<nat>, lo: nat, hi: nat)
    requires lo <= hi <= |sectors|
    ensures |Slots(where, sectors, lo, hi)| <= hi - lo
    ensures Apart(where, sectors, lo, hi) ==> |Slots(where, sectors, lo, hi)| == hi - lo
  {
    if lo == hi {
      assert Slots(where, sectors, lo, hi) == {};
    } else {
      var t := sectors[hi - 1];
      SlotsCount(where, sectors, lo, hi - 1);
      assert Slots(where, sectors, lo, hi) ==
        Slots(where, sectors, lo, hi - 1) + if t in where then {where[t]} else {};
    }
  }

  ghost function Upto(n: nat): (r: set<nat>)
    ensures |r| == n && forall b: nat :: b in r <==> b < n
  {
    if n == 0 then {} else Upto(n - 1) + {n - 1}
  }

  ghost function Own(m: Mem, me: nat): set<nat> { set b | b in m.holder && m.holder[b] == me }

  ghost function Foreign(m: Mem, me: nat): set<nat> { set b | b in m.holder && m.holder[b] != me }

  /** Every buffer is busy or dirty: bget has nothing to recycle. */
  ghost predicate Full(m: Mem) { |m.bufs| == NBUF && forall b | 0 <= b < NBUF :: !m.bufs[b].Recyclable() }

  lemma SparedOwn(me: nat, m: Mem, m': Mem)
    requires Spared(me, m, m')
    ensures Own(m', me) == Own(m, me)
  {
    assert forall b :: (b in Own(m, me) <==> m.Mine(me, b)) && (b in Own(m', me) <==> m'.Mine(me, b));
  }

  lemma NoneHeld(m: Mem, me: nat)
    requires forall c | c in m.holder :: m.holder[c] != me
    ensures forall b: nat :: !m.Mine(me, b)
    ensures exists b: nat :: b < NBUF && !m.Mine(me, b)
  {
    assert !m.Mine(me, 0);
  }

  /** What process me holds, what others hold and logged pinned blocks would fill the whole cache. */
  ghost predicate Crowded(m: Mem, me: nat, logged: nat) { NBUF <= |Own(m, me)| + |Foreign(m, me)| + logged }

  /** Others hold so much that a process with one buffer of its own finds the cache full with logged pinned blocks. */
  ghost predicate Scarce(m: Mem, me: nat, logged: nat) { NBUF <= 1 + |Foreign(m, me)| + logged }

  lemma OneHeld(m0: Mem, m: Mem, me: nat, logged: nat, b: nat)
    requires Spared(me, m0, m) && Crowded(m, me, logged) && forall c: nat | m0.Mine(me, c) :: c == b
    ensures Scarce(m, me, logged)
  {
    SparedOwn(me, m0, m);
    forall c | c in Own(m0, me) ensures c in {b} { assert m0.Mine(me, c); }
    SubsetCount(Own(m0, me), {b});
  }

  /** There is nothing to recycle only when held buffers and the blocks logged so far take up the whole cache. */
  lemma FullCrowded(m: Mem, start: nat, size: nat, me: nat, k: nat)
    requires Inv(m, start, size, me, k) && Full(m)
    ensures Crowded(m, me, m.n)
  {
    var pinned := Slots(m.where, m.sectors, k, m.n);
    forall b: nat | b < NBUF
      ensures b in Own(m, me) + Foreign(m, me) + pinned
    {
      if b !in m.holder {
        assert m.bufs[b].dirty;
        var i :| k <= i < m.n && m.sectors[i] == m.bufs[b].sector;
        assert m.where[m.sectors[i]] == b;
      }
    }
    SubsetCount(Upto(NBUF), Own(m, me) + Foreign(m, me) + pinned);
    SlotsCount(m.where, m.sectors, k, m.n);
  }

  lemma ListedCached(m: Mem, start: nat, size: nat, me: nat, b: nat, i: nat, j: nat)
    requires Inv(m, start, size, me, 0) && !m.recovering && b < NBUF && i <= m.n < LOGSIZE && m.Mine(me, b)
    requires m.sectors[i] == m.bufs[b].sector < start && (j < m.n || j == i)
    ensures Caches(m.bufs, m.where, m.sectors[j]) && m.sectors[j] < start
  {
    if j == i {
      assert m.where[m.bufs[b].sector] == b;
    }
  }

  ghost predicate Caches(bufs: seq<Buf>, where: map<nat, nat>, s: nat)
  {
    |bufs| == NBUF && s in where && where[s] < NBUF && bufs[where[s]].sector == s
  }

  lemma OneOut(a: set<nat>, lb: nat)
    requires lb < NBUF && forall c | c in a :: c < NBUF && c != lb
    ensures |a| < NBUF
  {
    SubsetCount(a + {lb}, Upto(NBUF));
  }

  lemma OneLeft(bufs: seq<Buf>, where: map<nat, nat>, sectors: seq<nat>, n: nat, lb: nat)
    requires n <= |sectors| && |bufs| == NBUF && lb < NBUF
    requires forall j | 0 <= j < n :: Caches(bufs, where, sectors[j]) && sectors[j] != bufs[lb].sector
    requires forall i, j | 0 <= i < j < n :: sectors[i] != sectors[j]
    ensures n < NBUF
  {
    forall i: nat, j: nat | i < j < n
      ensures where[sectors[i]] != where[sectors[j]]
    {
      assert Caches(bufs, where, sectors[i]) && Caches(bufs, where, sectors[j]);
    }
    assert Apart(where, sectors, 0, n);
    hide Apart;
    SlotsCount(where, sectors, 0, n);
    var slots := Slots(where, sectors, 0, n);
    forall c | c in slots
      ensures c < NBUF && c != lb
    {
      var j :| 0 <= j < n && sectors[j] in where && where[sectors[j]] == c;
    }
    hide Slots;
    OneOut(slots, lb);
  }

  /** A log block in the cache leaves fewer buffers for pinned blocks, so n never reaches NBUF. */
  lemma RoomForLog(m: Mem, start: nat, size: nat, me: nat, b: nat, lb: nat, i: nat)
    requires Inv(m, start, size, me, 0) && !m.recovering && b < NBUF && lb < NBUF && i <= m.n < LOGSIZE
    requires m.Mine(me, b) && m.bufs[lb].sector >= start
    requires m.sectors[i] == m.bufs[b].sector < start && (i == m.n ==> !Has(m.sectors, 0, m.n, m.bufs[b].sector))
    ensures (if i == m.n then m.n + 1 else m.n) < NBUF
  {
    hide TableOk; hide CleanOk; hide HeldOk; hide PinnedOk;
    var n' := if i == m.n then m.n + 1 else m.n;
    forall j: nat | j < n'
      ensures Caches(m.bufs, m.where, m.sectors[j]) && m.sectors[j] != m.bufs[lb].sector
    {
      ListedCached(m, start, size, me, b, i, j);
    }
    OneLeft(m.bufs, m.where, m.sectors, n', lb);
  }

  /** During recovery a buffer that the recovering process does not hold can be recycled. */
  lemma RecoveryRoom(m0: Mem, m: Mem, start: nat, size: nat, me: nat, k: nat, b: nat)
    requires Inv(m, start, size, me, k) && m.recovering && Spared(me, m0, m) && b < NBUF && !m0.Mine(me, b)
    ensures !Full(m)
  {
    assert !m.Mine(me, b);
    assert m.bufs[b].Recyclable();
  }

  /** A log block is not one of the home buffers the transaction holds. */
  lemma LogBlockFree(m: Mem, start: nat, size: nat, me: nat, k: nat, s: nat)
    requires Inv(m, start, size, me, k) && s >= start
    requires HomeHeld(me, start, m)
    ensures s in m.where ==> !m.Mine(me, m.where[s])
    ensures forall c: nat | m.Mine(me, c) :: c < |m.bufs| && m.bufs[c].valid
  {
  }

  datatype Why = TooBig | OutsideTrans | NoBuffer | OutOfBlocks | IntoLog | FreeingFreeBlock | BmapOutOfRange | NoType
  datatype Outcome = Done | Sleep | Panic(why: Why)

  /** What process q, which has no transaction open, may do to the cache: bread or brelse. */
  datatype Step = Read(q: nat, sector: nat) | Give(q: nat, buf: nat)

  class RedoLog {
    const bc: Cache
    const start: nat
    const size: nat
    var n: nat                   // log.lh.n
    var sectors: seq<nat>        // log.lh.sector
    var busy: bool
    var recovering: bool         // between boot and the end of recovery
    var owner: nat               // the process whose transaction it is
    ghost var committed: Disk    // home as of the last commit
    ghost var history: seq<Disk> // what was committed at each disk state of bc.trace

    ghost function Snap(): Mem
      reads this, bc
    {
      Mem(bc.disk, bc.bufs, bc.where, bc.holder, n, sectors, recovering)
    }

    /** The invariant with the first k logged blocks installed. */
    ghost predicate Ok(k: nat)
      reads this, bc
    {
      && bc.Valid() && Inv(Snap(), start, size, owner, k)
      && HistoryOk(bc.trace, history, start, size)
      && history[|history| - 1] == committed
    }

    /** The invariant between any two steps outside a commit: home on disk is the committed state. */
    ghost predicate Valid()
      reads this, bc
    {
      && Ok(0) && !recovering
      && HeadN(bc.disk[start]) == 0 && bc.disk[..start] == committed
      && (!busy ==> n == 0)
      && (!busy ==> HoldsNone()) && HomeHeld(owner, start, Snap())
    }

    ghost function Home(): Disk
      reads this, bc
      requires Listed(Snap(), start, size)
    {
      View(Snap(), start, size)
    }

    /** A boot: nothing in memory, and the disk as it was left. */
    constructor Boot(d: Disk, start: nat, size: nat)
      requires LogOk(d, start, size)
      ensures Ok(0) && fresh(bc) && bc.disk == d && bc.trace == [d]
      ensures this.start == start && this.size == size && n == 0 && !busy && recovering && bc.holder == map[]
      ensures committed == Recovered(d, start, size) && history == [committed]
    {
      bc := new Cache(d);
      this.start := start;
      this.size := size;
      n := 0;
      sectors := seq(LOGSIZE, i => 0);
      busy := false;
      recovering := true;
      owner := 0;
      committed := Recovered(d, start, size);
      history := [Recovered(d, start, size)];
    }

    /** bread by another process. */
    method ReaderBread(q: nat, s: nat, ghost k: nat) returns (r: Lookup)
      requires Ok(k) && q != owner && !recovering && s < start
      modifies bc`bufs, bc`where, bc`holder
      ensures Ok(k) && Spared(owner, old(Snap()), Snap())
      ensures r.Held? && (s in old(bc.where) ==> !old(Snap()).Mine(owner, old(bc.where)[s])) ==>
        r.buf < NBUF && bc.bufs[r.buf].data == Home()[s]
    {
      hide ListOk; hide TableOk; hide CleanOk; hide HeldOk; hide PinnedOk; hide HistoryOk; hide Kept;
      hide Spared; hide Install;
      ghost var m := Snap();
      SparedSelf(owner, m);
      r := bc.Bread(q, s);
      if r.Held? {
        TakeInv(m, Snap(), start, size, owner, k, q, r.buf, s);
        if s !in m.where || !m.Mine(owner, m.where[s]) {
          CurrentIsView(m, start, size, owner, k, s);
        }
      }
    }

    /** brelse by another process. */
    method ReaderBrelse(q: nat, b: nat, ghost k: nat)
      requires Ok(k) && q != owner && !recovering && Snap().Mine(q, b)
      modifies bc`bufs, bc`next, bc`prev, bc`order, bc`released, bc`clock, bc`holder
      ensures Ok(k) && Spared(owner, old(Snap()), Snap()) && bc.holder == old(bc.holder) - {b}
      ensures bc.where == old(bc.where) && b < |bc.bufs| && !bc.bufs[b].busy
    {
      hide ListOk; hide TableOk; hide CleanOk; hide PinnedOk; hide HistoryOk; hide Kept; hide Spared; hide Install;
      ghost var m := Snap();
      SparedSelf(owner, m);
      var _ := bc.Brelse(q, b);
      GiveInv(m, Snap(), start, size, owner, k, q, b);
    }

    /** A step of another process.  During recovery there is none, and no process gives back what it does not hold. */
    method ReaderStep(step: Step, ghost k: nat)
      requires Ok(k)
      modifies bc`bufs, bc`next, bc`prev, bc`order, bc`released, bc`clock, bc`where, bc`holder
      ensures Ok(k) && Spared(owner, old(Snap()), Snap())
    {
      hide ListOk; hide TableOk; hide CleanOk; hide HeldOk; hide PinnedOk; hide HistoryOk; hide Kept;
      hide Spared; hide Install;
      SparedSelf(owner, Snap());
      if step.q != owner && !recovering {
        match step
        case Read(q, s) =>
          if s < start {
            var _ := ReaderBread(q, s, k);
          }
        case Give(q, b) =>
          if b in bc.holder && bc.holder[b] == q {
            ReaderBrelse(q, b, k);
          }
      }
    }

    /** Any steps of other processes between two steps of this one. */
    method Others(ghost k: nat)
      requires Ok(k)
      modifies bc`bufs, bc`next, bc`prev, bc`order, bc`released, bc`clock, bc`where, bc`holder
      ensures Ok(k) && Spared(owner, old(Snap()), Snap())
    {
      hide ListOk; hide TableOk; hide CleanOk; hide HeldOk; hide PinnedOk; hide HistoryOk; hide Kept;
      hide Spared; hide Install;
      var steps: seq<Step> := *;
      SparedSelf(owner, Snap());
      for i := 0 to |steps|
        invariant Ok(k) && Spared(owner, old(Snap()), Snap())
      {
        ghost var m := Snap();
        ReaderStep(steps[i], k);
        SparedTransitive(owner, old(Snap()), m, Snap());
      }
    }

    /**
     * The transaction's own bread.  Other processes may run first, and if one of them holds the
     * buffer this process sleeps until it is given back.
     */
    method Bread(s: nat, ghost k: nat) returns (r: Lookup)
      requires Ok(k) && s < |bc.disk| && (s in bc.where ==> !Snap().Mine(owner, bc.where[s]))
      modifies bc`bufs, bc`next, bc`prev, bc`order, bc`released, bc`clock, bc`where, bc`holder
      ensures Ok(k) && (r.Held? || r.NoBuffers?)
      ensures r.Held? ==> Acquired(owner, old(Snap()), Snap(), r.buf, s)
      ensures !r.Held? ==> Spared(owner, old(Snap()), Snap())
      ensures r.Held? && s < start && !recovering ==> bc.bufs[r.buf].data == Home()[s]
      ensures r.Held? && s >= start ==> bc.bufs[r.buf].data == bc.disk[s]
      ensures r.NoBuffers? ==> s !in bc.where && Full(Snap()) && Crowded(Snap(), owner, n)
      ensures recovering && (exists b: nat | b < NBUF :: !old(Snap()).Mine(owner, b)) ==> r.Held?
    {
      hide ListOk; hide TableOk; hide CleanOk; hide HeldOk; hide PinnedOk; hide HistoryOk; hide Kept;
      hide Spared; hide Install; hide Crowded;
      ghost var m0 := Snap();
      Others(k);
      ghost var m := Snap();
      NotMine(m0, m, owner, s);
      r := bc.Bread(owner, s);
      if r.Wait? {
        WaitReader(m, start, size, owner, k, s);
        ReaderBrelse(bc.holder[r.buf], r.buf, k);
        SparedTransitive(owner, m0, m, Snap());
        m := Snap();
        r := bc.Bread(owner, s);
      }
      if r.Held? {
        TakeInv(m, Snap(), start, size, owner, k, owner, r.buf, s);
        AcquireFacts(m0, m, Snap(), start, size, owner, k, r.buf, s);
      } else {
        FullCrowded(m, start, size, owner, k);
        forall b: nat | recovering && b < NBUF && !m0.Mine(owner, b)
          ensures false
        {
          RecoveryRoom(m0, m, start, size, owner, k, b);
        }
      }
    }

    /** begin_trans: one transaction at a time. */
    method BeginTrans(pid: nat) returns (o: Outcome)
      requires Valid() && forall b: nat :: !Snap().Mine(pid, b)
      modifies `busy, `owner
      ensures Valid() && o == (if old(busy) then Sleep else Done)
      ensures o.Done? ==> busy && owner == pid && n == 0
      ensures o.Sleep? ==> unchanged(this)
    {
      if busy {
        return Sleep;
      }
      busy := true;
      owner := pid;
      return Done;
    }

    /** The loop of log_write: the slot of an absorbed sector, or else the first free one. */
    method FindSlot(s: nat) returns (i: nat)
      requires Ok(0)
      ensures i <= n && (i < n ==> sectors[i] == s) && (i == n ==> !Has(sectors, 0, n, s))
    {
      i := 0;
      while i < n && sectors[i] != s
        invariant i <= n && forall j | 0 <= j < i :: sectors[j] != s
      {
        i := i + 1;
      }
    }

    /** Writing into the log region while the header lists nothing changes nothing that recovery reads. */
    method WriteLog(lb: nat, data: Block)
      requires bc.Valid() && Snap().Mine(owner, lb) && lb < |bc.bufs| && bc.bufs[lb].valid
      requires start < bc.bufs[lb].sector < |bc.disk|
      requires Fits(bc.disk, start, size) && HeadN(bc.disk[start]) == 0 && bc.disk[..start] == committed
      requires HistoryOk(bc.trace, history, start, size)
      modifies bc, `history
      ensures bc.Valid() && bc.where == old(bc.where) && bc.disk == old(bc.disk)[old(bc.bufs)[lb].sector := data]
      ensures bc.bufs == old(bc.bufs)[lb := old(bc.bufs)[lb].(data := data, dirty := false, busy := false)]
      ensures bc.holder == old(bc.holder) - {lb}
      ensures HistoryOk(bc.trace, history, start, size) && history[|history| - 1] == committed
      ensures Grown(old(bc.trace), old(history), bc.trace, history, committed) && bc.trace == old(bc.trace) + [bc.disk]
    {
      hide ListOk; hide TableOk; hide CleanOk; hide Install; hide Recovered; hide LogOk; hide HistoryOk; hide Current;
      bc.WriteBack(owner, lb, data);
      EmptyLog(bc.disk, start, size);
      Grow(old(bc.trace), history, bc.disk, committed, start, size);
      history := history + [committed];
    }

    /** Nothing was logged, and what is held and logged fills the cache. */
    twostate predicate OutOfBuffers()
      reads this, bc
    {
      && n == old(n) && Own(Snap(), owner) == old(Own(Snap(), owner))
      && Crowded(Snap(), owner, n)
    }

    /** The rest of log_write once it holds log block i in buffer lb. */
    method Record(b: nat, lb: nat, i: nat)
      requires Ok(0) && !recovering && HeadN(bc.disk[start]) == 0 && bc.disk[..start] == committed
      requires b < |bc.bufs| && Snap().Mine(owner, b) && bc.bufs[b].sector < start && bc.bufs[b].valid
      requires lb < |bc.bufs| && Snap().Mine(owner, lb) && bc.bufs[lb].sector == start + i + 1 && bc.bufs[lb].valid
      requires i <= n < LOGSIZE && n < size - 1 && sectors[i] == bc.bufs[b].sector
      requires i == n ==> !Has(sectors, 0, n, bc.bufs[b].sector)
      modifies this`n, this`history, bc
      ensures Ok(0) && Grown(old(bc.trace), old(history), bc.trace, history, committed)
      ensures bc.trace == old(bc.trace) + [bc.disk] && Logged(old(Snap()), Snap(), start, b, lb, i)
      ensures Home() == old(Home())[bc.bufs[b].sector := bc.bufs[b].data]
    {
      hide ListOk; hide TableOk; hide CleanOk; hide HeldOk; hide PinnedOk; hide Kept; hide Spared;
      hide Install; hide Has; hide Recovered; hide LogOk; hide HistoryOk; hide Current; hide Grown;
      ghost var m := Snap();
      SparedSelf(owner, m);
      WriteLog(lb, bc.bufs[b].data);
      if i == n {
        n := n + 1;
      }
      bc.SetDirty(owner, b);
      LoggedInv(m, Snap(), start, size, owner, b, lb, i);
    }

    /** log_write once the slot is known: one write, to log block i. */
    method Append(b: nat, i: nat) returns (o: Outcome)
      requires Ok(0) && !recovering && HeadN(bc.disk[start]) == 0 && bc.disk[..start] == committed
      requires b < |bc.bufs| && Snap().Mine(owner, b) && bc.bufs[b].sector < start
      requires HomeHeld(owner, start, Snap())
      requires i <= n < LOGSIZE && n < size - 1 && sectors[i] == bc.bufs[b].sector
      requires i == n ==> !Has(sectors, 0, n, bc.bufs[b].sector)
      modifies this`n, this`history, bc
      ensures |bc.disk| == |old(bc.disk)| && bc.disk[..start] == old(bc.disk)[..start]
      ensures bc.disk[start] == old(bc.disk)[start]
      ensures HistoryOk(bc.trace, history, start, size)
      ensures Grown(old(bc.trace), old(history), bc.trace, history, committed)
      ensures !o.Sleep? && (o.Panic? ==> o.why == NoBuffer)
      ensures o.Panic? ==> OutOfBuffers()
      ensures bc.trace == old(bc.trace) || bc.trace == old(bc.trace) + [bc.disk]
      ensures o.Done? ==>
        && Ok(0) && n < NBUF && n == old(n) + (if i < old(n) then 0 else 1)
        && SameHeld(owner, old(Snap()), Snap(), b) && bc.bufs[b] == old(bc.bufs)[b].(dirty := true)
        && Home() == old(Home())[bc.bufs[b].sector := bc.bufs[b].data]
    {
      hide ListOk; hide TableOk; hide CleanOk; hide HeldOk; hide PinnedOk; hide Kept; hide Spared;
      hide Install; hide Has; hide Recovered; hide LogOk; hide HistoryOk; hide Current; hide Grown;
      hide HomeHeld;
      ghost var m1 := Snap();
      GrownSelf(bc.trace, history, committed);
      LogBlockFree(m1, start, size, owner, 0, start + i + 1);
      var r := Bread(start + i + 1, 0);
      if r.NoBuffers? {
        SparedOwn(owner, m1, Snap());
        return Panic(NoBuffer);
      }
      AcquiredKeeps(owner, m1, Snap(), r.buf, start + i + 1);
      RoomForLog(Snap(), start, size, owner, b, r.buf, i);
      Record(b, r.buf, i);
      return Done;
    }

    /**
     * log_write.  The block's new contents are what the running system sees from now on; home on
     * disk does not change, and neither does what a crash would leave.
     */
    method LogWrite(b: nat) returns (o: Outcome)
      requires Valid() && b < |bc.bufs| && b in bc.holder && (busy ==> Snap().Mine(owner, b))
      modifies this, bc
      ensures owner == old(owner) && busy == old(busy) && committed == old(committed)
      ensures |bc.disk| == |old(bc.disk)| > start && bc.disk[..start] == old(bc.disk)[..start]
      ensures HeadN(bc.disk[start]) == 0 && (bc.trace == old(bc.trace) || bc.trace == old(bc.trace) + [bc.disk])
      ensures HistoryOk(bc.trace, history, start, size)
      ensures Grown(old(bc.trace), old(history), bc.trace, history, committed)
      ensures !o.Sleep? && (o == Panic(TooBig) <==> old(n) >= LOGSIZE || old(n) >= size - 1)
      ensures o == Panic(OutsideTrans) <==> !busy && size > 1
      ensures o.Panic? ==> o.why == TooBig || o.why == OutsideTrans || o.why == NoBuffer
      ensures o == Panic(NoBuffer) ==> OutOfBuffers()
      ensures o.Done? ==>
        && Valid() && SameHeld(owner, old(Snap()), Snap(), b) && bc.bufs[b] == old(bc.bufs)[b].(dirty := true)
        && Home() == old(Home())[bc.bufs[b].sector := bc.bufs[b].data]
        && n < NBUF && n == old(n) + (if Has(old(sectors), 0, old(n), bc.bufs[b].sector) then 0 else 1)
        && |sectors| == |old(sectors)| == LOGSIZE && (forall i | 0 <= i < old(n) :: sectors[i] == old(sectors)[i])
        && (n > old(n) ==> sectors[old(n)] == bc.bufs[b].sector)
    {
      hide ListOk; hide TableOk; hide CleanOk; hide HeldOk; hide PinnedOk; hide Kept; hide Spared;
      hide Install; hide Recovered; hide LogOk; hide HistoryOk; hide Current;
      if n >= LOGSIZE || n >= size - 1 {
        return Panic(TooBig);
      }
      if !busy {
        return Panic(OutsideTrans);
      }
      var i := FindSlot(bc.bufs[b].sector);
      SlotInv(Snap(), start, size, owner, i, bc.bufs[b].sector);
      HasSame(sectors, sectors[i := bc.bufs[b].sector], 0, n);
      sectors := sectors[i := bc.bufs[b].sector];
      o := Append(b, i);
      if o.Done? { SameHeldHome(owner, start, old(Snap()), Snap(), b); }
    }

    ghost predicate HoldsNone()
      reads this, bc
    {
      forall c | c in bc.holder :: bc.holder[c] != owner
    }

    /** The loop of write_head: the header block with the first n entries overwritten. */
    method Head(old_h: Block) returns (h: Block)
      requires |sectors| == LOGSIZE && n <= LOGSIZE && forall i | 0 <= i < n :: sectors[i] < UINT
      ensures Lists(h, n, sectors)
    {
      h := SetWord(old_h, 0, n);
      var i := 0;
      while i < n
        invariant i <= n && HeadN(h) == n && forall j | 0 <= j < i :: HeadSector(h, j) == sectors[j]
      {
        h := SetWord(h, i + 1, sectors[i]);
        i := i + 1;
      }
    }

    /** write_head: the one block write that makes home, as the running system sees it, the committed state. */
    method WriteHead(ghost k: nat) returns (o: Outcome)
      requires Ok(k) && HoldsNone()
      modifies bc, `history, `committed
      ensures o == Done || o == Panic(NoBuffer)
      ensures o.Panic? ==> !recovering && Scarce(Snap(), owner, n)
      ensures o.Done? ==>
        && Ok(k) && HoldsNone() && Home() == old(Home()) && committed == Home()
        && Lists(bc.disk[start], n, sectors) && bc.disk == old(bc.disk)[start := bc.disk[start]]
        && bc.trace == old(bc.trace) + [bc.disk] && history == old(history) + [committed]
      ensures o.Panic? ==>
        && HistoryOk(bc.trace, history, start, size) && bc.trace == old(bc.trace)
        && history == old(history) && committed == old(committed)
    {
      hide ListOk; hide TableOk; hide CleanOk; hide HeldOk; hide PinnedOk; hide Kept; hide Spared;
      hide Install; hide Has; hide Recovered; hide LogOk; hide HistoryOk; hide Current;
      ghost var m0 := Snap();
      LogBlockFree(m0, start, size, owner, k, start);
      NoneHeld(m0, owner);
      var r := Bread(start, k);
      if r.NoBuffers? {
        OneHeld(m0, Snap(), owner, n, 0);
        return Panic(NoBuffer);
      }
      ghost var m := Snap();
      AcquiredKeeps(owner, m0, m, r.buf, start);
      var h := Head(bc.bufs[r.buf].data);
      PutHead(r.buf, h, k);
      return Done;
    }

    method PutHead(lb: nat, h: Block, ghost k: nat)
      requires Ok(k) && lb < |bc.bufs| && Snap().Mine(owner, lb) && bc.bufs[lb].valid && bc.bufs[lb].sector == start
      requires Lists(h, n, sectors)
      modifies bc, `history, `committed
      ensures Ok(k) && Home() == old(Home()) && committed == Home()
      ensures bc.disk == old(bc.disk)[start := h] && bc.holder == old(bc.holder) - {lb}
      ensures bc.trace == old(bc.trace) + [bc.disk] && history == old(history) + [committed]
    {
      hide ListOk; hide TableOk; hide CleanOk; hide HeldOk; hide PinnedOk; hide Kept; hide Install; hide Has;
      hide Recovered; hide LogOk; hide HistoryOk; hide Current;
      ghost var m := Snap();
      SparedSelf(owner, m);
      bc.WriteBack(owner, lb, h);
      HeadInv(m, Snap(), start, size, owner, k, lb, h);
      HeadRecovers(m, start, size, h);
      committed := Home();
      Grow(old(bc.trace), history, bc.disk, committed, start, size);
      history := history + [committed];
    }

    /** The two breads of install_trans: a logged block and its home. */
    method FetchPair(tail: nat) returns (o: Outcome, l: nat, d: nat)
      requires Ok(tail) && HoldsNone() && tail < n
      modifies bc`bufs, bc`next, bc`prev, bc`order, bc`released, bc`clock, bc`where, bc`holder
      ensures o == Done || o == Panic(NoBuffer)
      ensures o.Panic? ==> !recovering && Scarce(Snap(), owner, n)
      ensures o.Done? ==> Ok(tail) && l < |bc.bufs| && d < |bc.bufs| && l != d
      ensures o.Done? ==> Snap().Mine(owner, l) && bc.bufs[l].valid && bc.bufs[l].sector == start + 1 + tail
      ensures o.Done? ==> Snap().Mine(owner, d) && bc.bufs[d].valid && bc.bufs[d].sector == sectors[tail]
      ensures o.Done? ==> bc.bufs[l].data == bc.disk[start + 1 + tail]
      ensures o.Done? ==> forall c | c in bc.holder && bc.holder[c] == owner :: c == l || c == d
    {
      hide ListOk; hide TableOk; hide CleanOk; hide HeldOk; hide PinnedOk; hide Kept; hide Spared;
      hide Install; hide Has; hide HistoryOk; hide Current; hide Crowded; hide Scarce; hide Full;
      l, d := 0, 0;
      ghost var m0 := Snap();
      LogBlockFree(m0, start, size, owner, tail, start + tail + 1);
      NoneHeld(m0, owner);
      var r := Bread(start + tail + 1, tail);
      if r.NoBuffers? {
        OneHeld(m0, Snap(), owner, n, 0);
        return Panic(NoBuffer), l, d;
      }
      l := r.buf;
      ghost var m1 := Snap();
      AcquiredKeeps(owner, m0, m1, l, start + tail + 1);
      HomeBlockFree(m1, start, size, owner, tail, sectors[tail]);
      assert !m1.Mine(owner, if l == 0 then 1 else 0);
      r := Bread(sectors[tail], tail);
      if r.NoBuffers? {
        OneHeld(m1, Snap(), owner, n, l);
        return Panic(NoBuffer), l, d;
      }
      d := r.buf;
      AcquiredKeeps(owner, m1, Snap(), d, sectors[tail]);
      o := Done;
    }

    /** One turn of install_trans's loop. */
    method InstallOne(tail: nat) returns (o: Outcome)
      requires Ok(tail) && HoldsNone() && tail < n && Lists(bc.disk[start], n, sectors)
      modifies bc, `history
      ensures o == Done || o == Panic(NoBuffer)
      ensures o.Panic? ==> !recovering && Scarce(Snap(), owner, n)
      ensures HistoryOk(bc.trace, history, start, size)
      ensures Grown(old(bc.trace), old(history), bc.trace, history, committed)
      ensures o.Done? ==> Ok(tail + 1) && HoldsNone() && Home() == old(Home())
      ensures o.Done? ==> bc.disk == old(bc.disk)[sectors[tail] := old(bc.disk)[start + 1 + tail]]
      ensures bc.trace == if o.Done? then old(bc.trace) + [bc.disk] else old(bc.trace)
    {
      hide ListOk; hide TableOk; hide CleanOk; hide HeldOk; hide PinnedOk; hide Kept; hide Spared;
      hide Install; hide Has; hide Recovered; hide LogOk; hide HistoryOk; hide Current; hide Grown;
      GrownSelf(bc.trace, history, committed);
      var l, d;
      o, l, d := FetchPair(tail);
      if o.Panic? {
        return;
      }
      ghost var m := Snap();
      CopyHome(tail, l, d);
      InstalledInv(m, Snap(), start, size, owner, tail, l, d);
    }

    /** memmove, bwrite and the two brelses of install_trans. */
    method CopyHome(tail: nat, l: nat, d: nat)
      requires Ok(tail) && tail < n && Lists(bc.disk[start], n, sectors)
      requires Snap().Mine(owner, l) && Snap().Mine(owner, d) && l < |bc.bufs| && d < |bc.bufs| && l != d
      requires bc.bufs[l].sector == start + 1 + tail && bc.bufs[d].sector == sectors[tail]
      requires bc.bufs[l].valid && bc.bufs[d].valid && bc.bufs[l].data == bc.disk[start + 1 + tail]
      modifies bc, `history
      ensures bc.Valid() && Installed(old(Snap()), Snap(), start, tail, l, d)
      ensures HistoryOk(bc.trace, history, start, size)
      ensures Grown(old(bc.trace), old(history), bc.trace, history, committed)
      ensures bc.trace == old(bc.trace) + [bc.disk] && history[|history| - 1] == committed
    {
      hide ListOk; hide TableOk; hide CleanOk; hide HeldOk; hide PinnedOk; hide Kept; hide Spared;
      hide Install; hide Has; hide Current; hide HistoryOk; hide Recovered;
      LastState(bc.trace, history, start, size);
      SparedSelf(owner, Snap());
      bc.Transfer(owner, l, d);
      InstallStep(old(bc.disk), start, size, tail, old(bc.disk)[start + 1 + tail]);
      Grow(old(bc.trace), history, bc.disk, committed, start, size);
      history := history + [committed];
    }

    /** install_trans: every logged block is copied home, and at no moment would recovery end up elsewhere. */
    method InstallTrans() returns (o: Outcome)
      requires Ok(0) && HoldsNone() && Lists(bc.disk[start], n, sectors)
      modifies bc, `history
      ensures o == Done || o == Panic(NoBuffer)
      ensures o.Panic? ==> !recovering && Scarce(Snap(), owner, n)
      ensures HistoryOk(bc.trace, history, start, size)
      ensures Grown(old(bc.trace), old(history), bc.trace, history, committed)
      ensures o.Done? ==> Ok(n) && HoldsNone() && Home() == old(Home()) && |bc.trace| == |old(bc.trace)| + n
      ensures LogOk(old(bc.disk), start, size) && Copies(old(bc.disk), bc.trace, |old(bc.trace)|, start, size)
      ensures o.Done? ==> bc.disk == CopiedHome(old(bc.disk), start, size, n)
    {
      hide ListOk; hide TableOk; hide CleanOk; hide HeldOk; hide PinnedOk; hide Install; hide HistoryOk;
      hide Recovered; hide LogOk; hide Has;
      hide CopiedHome; hide Grown; hide Spared; hide HomeHeld; hide View; hide Copies; hide Scarce;
      LastState(bc.trace, history, start, size);
      CopyNone(bc.disk, start, size);
      GrownSelf(bc.trace, history, committed);
      CopiesNone(bc.disk, bc.trace, start, size);
      var tail := 0;
      while tail < n
        invariant tail <= n && |bc.trace| == |old(bc.trace)| + tail
        invariant bc.disk == CopiedHome(old(bc.disk), start, size, tail)
        invariant Copies(old(bc.disk), bc.trace, |old(bc.trace)|, start, size)
        invariant Ok(tail) && HoldsNone() && Home() == old(Home()) && Lists(bc.disk[start], n, sectors)
        invariant Grown(old(bc.trace), old(history), bc.trace, history, committed)
      {
        ghost var t, hs := bc.trace, history;
        o := InstallOne(tail);
        GrownTransitive(old(bc.trace), old(history), t, hs, bc.trace, history, committed);
        if o.Panic? {
          return;
        }
        CopyStep(old(bc.disk), start, size, tail);
        CopiesGrow(old(bc.disk), t, |old(bc.trace)|, start, size);
        tail := tail + 1;
      }
      return Done;
    }

    /** Forgetting the logged blocks in memory once all are home. */
    method Forget()
      requires Ok(n) && HoldsNone()
      modifies `n
      ensures n == 0 && Ok(0) && HoldsNone() && Home() == old(Home()) && bc.disk[..start] == Home()
    {
      hide ListOk; hide TableOk; hide CleanOk; hide HeldOk; hide PinnedOk; hide Install; hide HistoryOk;
      hide Recovered; hide LogOk; hide Has;
      ForgetInv(Snap(), start, size, owner);
      n := 0;
    }

    /** The part of commit_trans that runs when something was logged. */
    method CommitLogged() returns (o: Outcome)
      requires Ok(0) && !recovering && HoldsNone()
      modifies bc, `n, `history, `committed
      ensures o == Done || o == Panic(NoBuffer)
      ensures o.Panic? ==> Scarce(Snap(), owner, old(n))
      ensures o.Done? ==>
        && Ok(0) && HoldsNone() && n == 0 && Home() == committed == old(Home()) == bc.disk[..start]
        && HeadN(bc.disk[start]) == 0 && |bc.trace| == |old(bc.trace)| + old(n) + 2
      ensures HistoryOk(bc.trace, history, start, size)
      ensures Grown(old(bc.trace), old(history), bc.trace, history, old(Home()))
      ensures |bc.trace| > |old(bc.trace)| ==> Lists(bc.trace[|old(bc.trace)|][start], old(n), sectors)
    {
      hide ListOk; hide TableOk; hide CleanOk; hide HeldOk; hide PinnedOk; hide Install; hide HistoryOk;
      hide Recovered; hide LogOk; hide Has; hide View;
      GrownSelf(bc.trace, history, Home());
      o := WriteHead(0);
      if o.Panic? {
        return;
      }
      ghost var t1, h1 := bc.trace, history;
      o := InstallTrans();
      GrownTransitive(old(bc.trace), old(history), t1, h1, bc.trace, history, committed);
      if o.Panic? {
        return;
      }
      Forget();
      ghost var t2, h2 := bc.trace, history;
      o := WriteHead(0);
      GrownTransitive(old(bc.trace), old(history), t2, h2, bc.trace, history, committed);
    }

    /**
     * commit_trans.  The first block write is the header; from then on every state of the disk
     * recovers to home as the transaction left it, and when it is over home on disk is just that.
     */
    method CommitTrans() returns (o: Outcome)
      requires Valid() && busy && HoldsNone()
      modifies this, bc
      ensures o == Done || o == Panic(NoBuffer)
      ensures o.Panic? ==> Scarce(Snap(), owner, old(n))
      ensures o.Done? ==> Valid() && !busy && n == 0 && HoldsNone() && owner == old(owner)
      ensures o.Done? ==> Home() == committed == old(Home()) == bc.disk[..start]
      ensures HistoryOk(bc.trace, history, start, size)
      ensures Grown(old(bc.trace), old(history), bc.trace, history, old(Home()))
      ensures |bc.trace| > |old(bc.trace)| ==>
        && old(n) > 0 && Lists(bc.trace[|old(bc.trace)|][start], old(n), old(sectors))
      ensures o.Done? && old(n) > 0 ==> |bc.trace| == |old(bc.trace)| + old(n) + 2
    {
      hide ListOk; hide TableOk; hide CleanOk; hide HeldOk; hide PinnedOk; hide HistoryOk; hide Recovered;
      hide LogOk; hide Has;
      o := Done;
      GrownSelf(bc.trace, history, Home());
      if n > 0 {
        o := CommitLogged();
        if o.Panic? {
          return;
        }
      }
      busy := false;
    }

    /** The loop of read_head. */
    method ReadList(h: Block) returns (secs: seq<nat>)
      requires HeadN(h) <= LOGSIZE == |sectors|
      ensures |secs| == LOGSIZE && Lists(h, HeadN(h), secs)
    {
      secs := sectors;
      var i := 0;
      while i < HeadN(h)
        invariant i <= HeadN(h) && |secs| == LOGSIZE && forall j | 0 <= j < i :: secs[j] == HeadSector(h, j)
      {
        secs := secs[i := HeadSector(h, i)];
        i := i + 1;
      }
    }

    /** bread and brelse of the header block. */
    method FetchHead() returns (h: Block)
      requires Ok(0) && recovering && HoldsNone()
      modifies bc
      ensures bc.disk == old(bc.disk) && bc.trace == old(bc.trace)
      ensures Ok(0) && HoldsNone() && h == bc.disk[start]
    {
      hide ListOk; hide TableOk; hide CleanOk; hide HeldOk; hide PinnedOk; hide Kept; hide Spared;
      hide Install; hide HistoryOk; hide Recovered; hide Current; hide Has; hide LogOk; hide View;
      ghost var m0 := Snap();
      LogBlockFree(m0, start, size, owner, 0, start);
      NoneHeld(m0, owner);
      var r := Bread(start, 0);
      ghost var m := Snap();
      AcquiredKeeps(owner, m0, m, r.buf, start);
      h := bc.bufs[r.buf].data;
      var _ := bc.Brelse(owner, r.buf);
      GiveInv(m, Snap(), start, size, owner, 0, owner, r.buf);
    }

    /** read_head: the in-memory header becomes what the disk lists. */
    method ReadHead()
      requires Ok(0) && recovering && n == 0 && HoldsNone()
      modifies bc, `n, `sectors
      ensures bc.disk == old(bc.disk) && bc.trace == old(bc.trace)
      ensures Ok(0) && HoldsNone() && Lists(bc.disk[start], n, sectors) && Home() == committed
    {
      hide ListOk; hide TableOk; hide CleanOk; hide HeldOk; hide PinnedOk; hide Kept; hide Spared;
      hide Install; hide HistoryOk; hide Recovered; hide Current; hide Has; hide View;
      var h := FetchHead();
      LastState(bc.trace, history, start, size);
      var secs := ReadList(h);
      ReadHeadInv(Snap(), start, size, owner, secs, h);
      hide LogOk;
      n, sectors := HeadN(h), secs;
      HeadRecovers(Snap(), start, size, h);
      assert bc.disk[start := h] == bc.disk;
    }

    /** read_head and install_trans: the blocks that the header on disk lists are copied home. */
    method Replay()
      requires Ok(0) && recovering && n == 0 && HoldsNone()
      modifies bc, `n, `sectors, `history
      ensures Ok(n) && HoldsNone() && Home() == committed
      ensures Grown(old(bc.trace), old(history), bc.trace, history, committed)
      ensures LogOk(old(bc.disk), start, size) && n == HeadN(old(bc.disk)[start])
      ensures bc.disk == CopiedHome(old(bc.disk), start, size, n)
      ensures forall j | |old(bc.trace)| <= j < |bc.trace| :: Passes(old(bc.disk), bc.trace[j], start, size)
    {
      hide ListOk; hide TableOk; hide CleanOk; hide HeldOk; hide PinnedOk; hide Install; hide HistoryOk;
      hide Recovered; hide LogOk; hide Has; hide View; hide CopiedHome; hide Grown; hide Passes; hide Copies;
      hide Scarce;
      LastState(bc.trace, history, start, size);
      ReadHead();
      var o := InstallTrans();
      CopiesPass(old(bc.disk), bc.trace, |old(bc.trace)|, start, size);
    }

    /**
     * recover_from_log on a freshly booted system.  Home becomes what was committed when the disk was
     * left, and a crash at any moment of recovery leaves a disk that recovers to the same home.
     */
    method RecoverFromLog() returns (o: Outcome)
      requires Ok(0) && recovering && !busy && n == 0 && HoldsNone()
      modifies this, bc
      ensures o == Done && committed == old(committed)
      ensures Valid() && !busy && Home() == committed == bc.disk[..start]
      ensures HistoryOk(bc.trace, history, start, size)
      ensures Grown(old(bc.trace), old(history), bc.trace, history, committed)
      ensures LogOk(old(bc.disk), start, size)
      ensures forall j | |old(bc.trace)| <= j < |bc.trace| :: Passes(old(bc.disk), bc.trace[j], start, size)
    {
      hide ListOk; hide TableOk; hide CleanOk; hide HeldOk; hide PinnedOk; hide Install; hide HistoryOk;
      hide Recovered; hide LogOk; hide Has; hide View; hide CopiedHome; hide Grown; hide Passes; hide Copies;
      hide Scarce;
      Replay();
      Forget();
      ghost var t2, h2 := bc.trace, history;
      o := WriteHead(0);
      GrownTransitive(old(bc.trace), old(history), t2, h2, bc.trace, history, committed);
      ClearPasses(old(bc.disk), bc.disk, start, size);
      RecoveredInv(Snap(), start, size, owner);
      recovering := false;
    }

    /** The transaction's bread of a home block it does not already hold. */
    method BreadHome(s: nat) returns (r: Lookup)
      requires Valid() && busy && s < start && (s in bc.where ==> !Snap().Mine(owner, bc.where[s]))
      modifies bc`bufs, bc`next, bc`prev, bc`order, bc`released, bc`clock, bc`where, bc`holder
      ensures Valid() && (r.Held? || r.NoBuffers?) && Home() == old(Home())
      ensures r.Held? ==> Acquired(owner, old(Snap()), Snap(), r.buf, s) && bc.bufs[r.buf].data == Home()[s]
      ensures r.NoBuffers? ==> Spared(owner, old(Snap()), Snap()) && Full(Snap()) && Crowded(Snap(), owner, n)
    {
      hide ListOk; hide TableOk; hide CleanOk; hide HeldOk; hide PinnedOk; hide Kept; hide Spared;
      hide Install; hide HistoryOk; hide Has;
      ghost var m := Snap();
      r := Bread(s, 0);
      AcquiredHome(owner, start, m, Snap(), if r.Held? then r.buf else NBUF, s);
      if r.Held? { AcquiredKeeps(owner, m, Snap(), r.buf, s); }
    }

    /** The transaction changes a block it holds. */
    method Modify(b: nat, data: Block)
      requires Valid() && b < |bc.bufs| && Snap().Mine(owner, b)
      modifies bc`bufs
      ensures Valid() && Home() == old(Home()) && SameHeld(owner, old(Snap()), Snap(), b)
      ensures bc.bufs == old(bc.bufs)[b := old(bc.bufs)[b].(data := data)]
    {
      hide ListOk; hide TableOk; hide CleanOk; hide HeldOk; hide PinnedOk; hide Kept; hide Spared;
      hide Install; hide HistoryOk; hide Has;
      ghost var m := Snap();
      SparedSelf(owner, m);
      LogBlockFree(m, start, size, owner, 0, start);
      bc.Store(owner, b, data);
      ModifyInv(m, Snap(), start, size, owner, b, data);
      SameHeldHome(owner, start, m, Snap(), b);
    }

    /** The transaction's brelse of a block whose changes, if any, it has logged. */
    method Release(b: nat)
      requires Valid() && b < |bc.bufs| && Snap().Mine(owner, b) && bc.bufs[b].sector < start
      requires bc.bufs[b].data == Home()[bc.bufs[b].sector]
      modifies bc`bufs, bc`next, bc`prev, bc`order, bc`released, bc`clock, bc`holder
      ensures Valid() && Home() == old(Home()) && bc.holder == old(bc.holder) - {b}
      ensures bc.bufs == old(bc.bufs)[b := old(bc.bufs)[b].(busy := false)] && bc.where == old(bc.where)
    {
      hide ListOk; hide TableOk; hide CleanOk; hide HeldOk; hide PinnedOk; hide Kept; hide Spared;
      hide Install; hide HistoryOk; hide Has;
      ghost var m := Snap();
      SparedSelf(owner, m);
      LogBlockFree(m, start, size, owner, 0, start);
      ReleaseReady(m, start, size, owner, b);
      var _ := bc.Brelse(owner, b);
      GiveInv(m, Snap(), start, size, owner, 0, owner, b);
    }

    /** Sectors already listed stay where they are, and s is listed. */
    twostate predicate ListedToo(s: nat)
      reads this
    {
      && |sectors| == |old(sectors)| == LOGSIZE && old(n) <= LOGSIZE && n <= LOGSIZE
      && n == old(n) + (if Has(old(sectors), 0, old(n), s) then 0 else 1)
      && (forall i | 0 <= i < old(n) :: sectors[i] == old(sectors)[i])
      && (n > old(n) ==> sectors[old(n)] == s)
    }

    /** Changing a held block and logging it. */
    method ModifyAndLog(b: nat, data: Block) returns (o: Outcome)
      requires Valid() && b < |bc.bufs| && Snap().Mine(owner, b)
      modifies this, bc
      ensures owner == old(owner) && busy == old(busy) && committed == old(committed)
      ensures HistoryOk(bc.trace, history, start, size)
      ensures Grown(old(bc.trace), old(history), bc.trace, history, committed)
      ensures |bc.disk| > start && HeadN(bc.disk[start]) == 0
      ensures bc.trace == old(bc.trace) || bc.trace == old(bc.trace) + [bc.disk]
      ensures !o.Sleep? && (o == Panic(TooBig) <==> old(n) >= LOGSIZE || old(n) >= size - 1)
      ensures o.Panic? ==> o.why == TooBig || o.why == NoBuffer
      ensures o == Panic(NoBuffer) ==> OutOfBuffers()
      ensures o.Done? ==>
        && Valid() && SameHeld(owner, old(Snap()), Snap(), b)
        && bc.bufs[b] == old(bc.bufs)[b].(data := data, dirty := true)
        && Home() == old(Home())[bc.bufs[b].sector := data] && ListedToo(bc.bufs[b].sector) && n < NBUF
    {
      hide ListOk; hide TableOk; hide CleanOk; hide HeldOk; hide PinnedOk; hide Kept; hide Spared;
      hide Install; hide HomeHeld; hide HistoryOk; hide Has; hide View; hide Grown;
      Modify(b, data);
      o := LogWrite(b);
    }
  }
}
