/**
 * filewrite of file.c: a write cut into chunks, one transaction each.
 */
module FileWrite {
  import opened Common
  import opened Blocks
  import opened DiskLayout
  import opened Ownership
  import opened FileContent
  import opened FileSystem
  import opened Log
  import opened Transactions
  import opened Truncate
  import LogSpec

  const MAXCHUNK: nat := (LogSpec.LOGSIZE - 1 - 1 - 2) / 2 * 512

  lemma SplicedTwice(f: seq<byte>, off: nat, a: seq<byte>, b: seq<byte>)
    requires off <= |f|
    ensures off + |a| <= |Spliced(f, off, a)|
    ensures Spliced(Spliced(f, off, a), off + |a|, b) == Spliced(f, off, a + b)
  {
  }

  /** Two writes, the second where the first ended, are one write. */
  lemma WroteTwice(sb: Super, b0: Disk, t0: seq<Dinode>, b1: Disk, t1: seq<Dinode>, b2: Disk, t2: seq<Dinode>,
      inum: nat, off: nat, s1: seq<byte>, s2: seq<byte>)
    requires Wrote(sb, b0, t0, b1, t1, inum, off, s1) && Wrote(sb, b1, t1, b2, t2, inum, off + |s1|, s2)
    ensures Wrote(sb, b0, t0, b2, t2, inum, off, s1 + s2)
  {
    hide FsOk; hide OnDisk; hide FileBytes; hide Spliced;
    BytesLength(b0, t0[inum]);
    SplicedTwice(FileBytes(b0, t0[inum]), off, s1, s2);
    assert NewSize(NewSize(t0[inum].size, off, |s1|), off + |s1|, |s2|) == NewSize(t0[inum].size, off, |s1 + s2|);
    OthersTransitive(b0, b1, b2, t0, t1, inum);
  }

  lemma BytesLength(blocks: Disk, d: Dinode)
    ensures |FileBytes(blocks, d)| == d.size
  {
  }

  /** When the bitmap fits one block, one chunk logs at most seven blocks. */
  lemma SmallTransaction(sb: Super, logged: set<nat>, inum: nat, ind: set<nat>, dat: set<nat>, off: nat, n: nat)
    requires WriteLogged(sb, logged, {}, inum, ind, dat, Touched(off, n)) && n <= MAXCHUNK && sb.size <= BPB
    ensures |logged| <= 7
  {
    assert Touched(off, n) <= 4;
    var one: set<nat> := {sb.BitBlock(0)};
    forall x | x in Bitmaps(sb) ensures x in one { var b: nat :| b < sb.size && x == sb.BitBlock(b); OneBitmap(sb, b); }
    SubsetCount(Bitmaps(sb), one);
    var all := {} + Bitmaps(sb) + ind + dat + {sb.InodeBlock(inum)};
    UnionSize(Bitmaps(sb), ind);
    UnionSize(Bitmaps(sb) + ind, dat);
    UnionSize(Bitmaps(sb) + ind + dat, {sb.InodeBlock(inum)});
    assert all == Bitmaps(sb) + ind + dat + {sb.InodeBlock(inum)};
    SubsetCount(logged, all);
  }

  lemma OneBitmap(sb: Super, b: nat)
    requires b < sb.size <= BPB
    ensures sb.BitBlock(b) == sb.BitBlock(0)
  {
    assert b / BPB == 0;
  }

  /** Home h, with inodes t, is what the disk holds when exactly the first c bytes of data have been written at off. */
  ghost predicate At(sb: Super, b0: Disk, t0: seq<Dinode>, h: Disk, t: seq<Dinode>, inum: nat, off: nat,
      data: seq<byte>, c: nat)
  {
    c <= |data| && ((c == 0 && h == b0 && t == t0) || Wrote(sb, b0, t0, h, t, inum, off, data[..c]))
  }

  ghost predicate Reached(sb: Super, b0: Disk, t0: seq<Dinode>, h: Disk, inum: nat, off: nat, data: seq<byte>, c: nat)
  {
    exists t: seq<Dinode> :: At(sb, b0, t0, h, t, inum, off, data, c)
  }

  /** Every disk state from index lo on recovers to home with some whole chunks of data written, in order. */
  ghost predicate PrefixesOnly(sb: Super, b0: Disk, t0: seq<Dinode>, history: seq<Disk>, lo: nat, inum: nat,
      off: nat, data: seq<byte>)
  {
    forall j | lo <= j < |history| :: SomePrefix(sb, b0, t0, history[j], inum, off, data)
  }

  ghost predicate SomePrefix(sb: Super, b0: Disk, t0: seq<Dinode>, h: Disk, inum: nat, off: nat, data: seq<byte>)
  {
    exists c: nat :: Reached(sb, b0, t0, h, inum, off, data, c) && (c % MAXCHUNK == 0 || c == |data|)
  }

  lemma AtStep(sb: Super, b0: Disk, t0: seq<Dinode>, h: Disk, t: seq<Dinode>, h': Disk, t': seq<Dinode>,
      inum: nat, off: nat, data: seq<byte>, i: nat, m: nat)
    requires At(sb, b0, t0, h, t, inum, off, data, i) && i + m <= |data|
    requires Wrote(sb, h, t, h', t', inum, off + i, data[i..i + m])
    ensures At(sb, b0, t0, h', t', inum, off, data, i + m)
  {
    hide Wrote;
    if i == 0 && h == b0 && t == t0 {
      assert data[0..m] == data[..m];
    } else {
      WroteTwice(sb, b0, t0, h, t, h', t', inum, off, data[..i], data[i..i + m]);
      assert data[..i] + data[i..i + m] == data[..i + m];
    }
  }

  /** Chunk by chunk, no disk state recovers to anything but a prefix of the write. */
  lemma PrefixStep(sb: Super, b0: Disk, t0: seq<Dinode>, h: Disk, t: seq<Dinode>, history: seq<Disk>,
      history': seq<Disk>, lo: nat, inum: nat, off: nat, data: seq<byte>, i: nat, m: nat)
    requires PrefixesOnly(sb, b0, t0, history, lo, inum, off, data) && history <= history' && lo <= |history|
    requires At(sb, b0, t0, h, t, inum, off, data, i) && i + m <= |data|
    requires i % MAXCHUNK == 0 && (m == MAXCHUNK || i + m == |data|)
    requires AllOrNothing(sb, h, t, history', |history|, inum, off + i, data[i..i + m])
    ensures PrefixesOnly(sb, b0, t0, history', lo, inum, off, data)
  {
    hide At; hide Wrote;
    assert (i + MAXCHUNK) % MAXCHUNK == 0;
    forall j | lo <= j < |history'|
      ensures SomePrefix(sb, b0, t0, history'[j], inum, off, data)
    {
      if j < |history| {
        assert history'[j] == history[j];
      } else if history'[j] == h {
        assert Reached(sb, b0, t0, history'[j], inum, off, data, i);
      } else {
        var t' :| Wrote(sb, h, t, history'[j], t', inum, off + i, data[i..i + m]);
        AtStep(sb, b0, t0, h, t, history'[j], t', inum, off, data, i, m);
        assert Reached(sb, b0, t0, history'[j], inum, off, data, i + m);
      }
    }
  }

  /** An idle log whose committed home is a well-formed file system with the given inodes. */
  ghost predicate Ready(log: RedoLog, sb: Super, pid: nat, table: seq<Dinode>)
    reads log, log.bc
  {
    && log.Valid() && !log.busy && sb.nlog <= sb.size && log.start == sb.LogStart() && log.size == sb.nlog
    && FsOk(sb, log.committed, table) && OnDisk(sb, log.committed, table, -1)
    && forall b: nat :: !log.Snap().Mine(pid, b)
  }

  /** struct file, as far as writing goes. */
  class File {
    const ip: Inode
    var off: word

    constructor (ip: Inode, off: word)
      ensures this.ip == ip && this.off == off
    {
      this.ip := ip;
      this.off := off;
    }
  }

  /** Each disk state from index lo on recovers to home as it was or with the whole of piece written. */
  ghost predicate AllOrNothing(sb: Super, b0: Disk, t0: seq<Dinode>, history: seq<Disk>, lo: nat, inum: nat,
      off: nat, piece: seq<byte>)
  {
    forall j | lo <= j < |history| :: history[j] == b0 || WroteBy(sb, b0, t0, history[j], inum, off, piece)
  }

  ghost predicate WroteBy(sb: Super, b0: Disk, t0: seq<Dinode>, h: Disk, inum: nat, off: nat, piece: seq<byte>)
  {
    exists t: seq<Dinode> :: Wrote(sb, b0, t0, h, t, inum, off, piece)
  }

  /** The states before the commit and those from the commit on. */
  lemma ChunkStates(sb: Super, b0: Disk, t0: seq<Dinode>, tr0: seq<Disk>, h0: seq<Disk>, tr1: seq<Disk>,
      h1: seq<Disk>, tr2: seq<Disk>, h2: seq<Disk>,
                    c: Disk, inum: nat, off: nat, piece: seq<byte>)
    requires Grown(tr0, h0, tr1, h1, b0) && Grown(tr1, h1, tr2, h2, c)
    requires c == b0 || WroteBy(sb, b0, t0, c, inum, off, piece)
    ensures AllOrNothing(sb, b0, t0, h2, |h0|, inum, off, piece) && h0 <= h2
  {
    hide Wrote; hide WroteBy;
    forall j | |h0| <= j < |h2|
      ensures h2[j] == b0 || WroteBy(sb, b0, t0, h2[j], inum, off, piece)
    {
      if j < |h1| { assert h2[j] == h1[j]; }
    }
  }

  /** A finished transaction leaves its process holding nothing. */
  lemma Idle(m: Mem, me: nat)
    requires forall c | c in m.holder :: m.holder[c] != me
    ensures forall b: nat :: !m.Mine(me, b)
  {
  }

  lemma WroteOk(sb: Super, b0: Disk, t0: seq<Dinode>, b: Disk, t: seq<Dinode>, inum: nat, off: nat, src: seq<byte>)
    requires Wrote(sb, b0, t0, b, t, inum, off, src)
    ensures FsOk(sb, b, t) && OnDisk(sb, b, t, -1) && |t| == |t0|
  {
  }

  /** begin_trans and writei. */
  method Transact(log: RedoLog, sb: Super, ip: Inode, off: word, piece: seq<byte>, pid: nat,
      ghost table: seq<Dinode>)
    returns (o: Outcome, r: IoResult, st: Store)
    requires Ready(log, sb, pid, table) && ip.inum < |table| && table[ip.inum] == ip.Copy() && |piece| <= MAXCHUNK
    modifies log, log.bc, ip`addrs, ip`size
    ensures fresh(st) && st.log == log && !o.Sleep? && st.Safe() && st.pid == pid
    ensures st.home == old(log.committed) && st.trace0 == old(log.bc.trace) && st.history0 == old(log.history)
    ensures o == Panic(TooBig) ==> !(sb.size <= BPB && sb.nlog >= 9)
    ensures o == Panic(NoBuffer) && sb.size <= BPB ==> Foreign(log.Snap(), log.owner) != {}
    ensures o.Panic? ==> o.why == TooBig || o.why == NoBuffer || o.why == OutOfBlocks || o.why == IntoLog
    ensures sb.size <= BPB ==> |st.logged| <= 7
    ensures r.Failed? <==> ip.kind != T_DEV && (off > old(ip.size) || off + |piece| > MAXFILE * BSIZE)
    ensures r.Device? <==> ip.kind == T_DEV
    ensures o.Done? ==> st.Valid() && st.held == {}
    ensures o.Done? && !r.Count? ==> ip.Copy() == old(ip.Copy()) && st.view == old(log.committed)
    ensures o.Done? && r.Count? ==>
      r.n == |piece| && Wrote(sb, old(log.committed), table, st.view, table[ip.inum := ip.Copy()], ip.inum, off, piece)
  {
    hide Store.Valid; hide Store.Safe; hide FsOk; hide OnDisk; hide Wrote; hide WriteLogged;
    st := new Store.Begin(log, pid);
    hide RedoLog.Valid;
    var fs := new FileSystem(sb, st);
    ghost var ind, dat;
    o, r, ind, dat := fs.Writei(ip, piece, off, table);
    if sb.size <= BPB {
      SmallTransaction(sb, st.logged, ip.inum, ind, dat, off, |piece|);
    }
  }

  /**
   * One chunk: begin_trans, writei, commit_trans.  Every disk state on the way recovers to home without
   * the chunk or with all of it.
   */
  method WriteChunk(log: RedoLog, sb: Super, ip: Inode, off: word, piece: seq<byte>, pid: nat,
      ghost table: seq<Dinode>)
    returns (o: Outcome, r: IoResult)
    requires Ready(log, sb, pid, table) && ip.inum < |table| && table[ip.inum] == ip.Copy() && |piece| <= MAXCHUNK
    modifies log, log.bc, ip`addrs, ip`size
    ensures !o.Sleep? && HistoryOk(log.bc.trace, log.history, log.start, log.size) && old(log.history) <= log.history
    ensures o == Panic(TooBig) ==> !(sb.size <= BPB && sb.nlog >= 9)
    ensures o == Panic(NoBuffer) && sb.size <= BPB ==> Foreign(log.Snap(), log.owner) != {}
    ensures o.Panic? ==> o.why == TooBig || o.why == NoBuffer || o.why == OutOfBlocks || o.why == IntoLog
    ensures AllOrNothing(sb, old(log.committed), table, log.history, |old(log.history)|, ip.inum, off, piece)
    ensures r.Failed? <==> ip.kind != T_DEV && (off > old(ip.size) || off + |piece| > MAXFILE * BSIZE)
    ensures r.Device? <==> ip.kind == T_DEV
    ensures o.Done? ==> Ready(log, sb, pid, table[ip.inum := ip.Copy()])
    ensures o.Done? && !r.Count? ==> ip.Copy() == old(ip.Copy()) && log.committed == old(log.committed)
    ensures o.Done? && r.Count? ==>
      && r.n == |piece|
      && Wrote(sb, old(log.committed), table, log.committed, table[ip.inum := ip.Copy()], ip.inum, off, piece)
  {
    hide RedoLog.Valid; hide Store.Valid; hide HistoryOk; hide FsOk; hide OnDisk; hide Wrote;
    hide AllOrNothing; hide Grown; hide View;
    ghost var h0, t0 := log.committed, log.history;
    var st;
    o, r, st := Transact(log, sb, ip, off, piece, pid, table);
    ghost var tr1, h1 := log.bc.trace, log.history;
    GrownSelf(tr1, h1, h0);
    ChunkStates(sb, h0, table, old(log.bc.trace), old(log.history), tr1, h1, tr1, h1, h0, ip.inum, off, piece);
    if o.Panic? {
      return;
    }
    ghost var view, t := st.view, table[ip.inum := ip.Copy()];
    if !r.Count? { assert t == table; }
    o := st.Commit();
    assert r.Count? ==> WroteBy(sb, h0, table, view, ip.inum, off, piece);
    ChunkStates(sb, h0, table, old(log.bc.trace), old(log.history), tr1, h1, log.bc.trace, log.history, view, ip.inum,
      off, piece);
    if o.Panic? {
      return;
    }
    if r.Count? { WroteOk(sb, h0, table, view, t, ip.inum, off, piece); }
    Idle(log.Snap(), pid);
  }

  lemma AtStart(log: RedoLog, sb: Super, pid: nat, table: seq<Dinode>, ip: Inode, off: nat, data: seq<byte>)
    requires Ready(log, sb, pid, table) && ip.inum < |table| && table[ip.inum] == ip.Copy()
    ensures At(sb, log.committed, table, log.committed, table, ip.inum, off, data, 0)
    ensures table[ip.inum := ip.Copy()] == table
    ensures HistoryOk(log.bc.trace, log.history, log.start, log.size)
    ensures PrefixesOnly(sb, log.committed, table, log.history, |log.history|, ip.inum, off, data)
  {
  }

  lemma ChunkSize(sb: Super, b0: Disk, t0: seq<Dinode>, b: Disk, t: seq<Dinode>, inum: nat, off: nat, src: seq<byte>)
    requires Wrote(sb, b0, t0, b, t, inum, off, src)
    ensures off <= t0[inum].size && t[inum].size == NewSize(t0[inum].size, off, |src|) && off + |src| <= MAXFILE * BSIZE
  {
    hide FileBytes; hide OnDisk;
  }

  /**
   * filewrite.  The chunks together write exactly data at the file's offset, or all of them up to the
   * first that goes beyond the largest file; a crash at any moment leaves a prefix of the write that
   * consists of whole chunks; and when the bitmap fits one block the log is never overrun, and the cache
   * runs out of buffers only if other processes hold some.
   */
  method Filewrite(log: RedoLog, sb: Super, f: File, data: seq<byte>, pid: nat, ghost table: seq<Dinode>)
    returns (o: Outcome, r: IoResult, ghost written: nat)
    requires Ready(log, sb, pid, table) && f.ip.inum < |table| && table[f.ip.inum] == f.ip.Copy()
    modifies log, log.bc, f.ip`addrs, f.ip`size, f`off
    ensures !o.Sleep? && HistoryOk(log.bc.trace, log.history, log.start, log.size) && old(log.history) <= log.history
    ensures PrefixesOnly(sb, old(log.committed), table, log.history, |old(log.history)|, f.ip.inum, old(f.off), data)
    ensures o == Panic(TooBig) ==> !(sb.size <= BPB && sb.nlog >= 9)
    ensures o == Panic(NoBuffer) && sb.size <= BPB ==> Foreign(log.Snap(), log.owner) != {}
    ensures o.Panic? ==> o.why == TooBig || o.why == NoBuffer || o.why == OutOfBlocks || o.why == IntoLog
    ensures o.Done? ==>
      && Ready(log, sb, pid, table[f.ip.inum := f.ip.Copy()]) && written <= |data| && f.off == old(f.off) + written
      && At(sb, old(log.committed), table, log.committed, table[f.ip.inum := f.ip.Copy()], f.ip.inum,
            old(f.off), data, written)
    ensures o.Done? && r.Count? ==> r.n == |data| == written
    ensures o.Done? && r.Failed? ==>
      && |data| > 0 && (old(f.off) > old(f.ip.size) || old(f.off) + |data| > MAXFILE * BSIZE)
      && f.ip.kind != T_DEV && written < |data| && written % MAXCHUNK == 0
      && (if old(f.off) > old(f.ip.size) then written == 0
          else old(f.off) + (if |data| - written > MAXCHUNK then written + MAXCHUNK else |data|) > MAXFILE * BSIZE)
    ensures o.Done? && r.Device? ==> f.ip.kind == T_DEV && written == 0
  {
    hide RedoLog.Valid; hide HistoryOk; hide FsOk; hide OnDisk; hide Wrote; hide AllOrNothing;
    hide PrefixesOnly; hide At; hide Foreign; hide Ready;
    var ip := f.ip;
    var i := 0;
    ghost var t := table;
    written := 0;
    r := Count(0);
    o := Done;
    AtStart(log, sb, pid, table, ip, f.off, data);
    while i < |data|
      invariant i <= |data| && (i % MAXCHUNK == 0 || i == |data|) && o.Done? && r.Count? && written == i
      invariant f.off == old(f.off) + i && t == table[ip.inum := ip.Copy()]
      invariant Ready(log, sb, pid, t) && HistoryOk(log.bc.trace, log.history, log.start, log.size)
      invariant old(log.history) <= log.history
      invariant At(sb, old(log.committed), table, log.committed, t, ip.inum, old(f.off), data, i)
      invariant PrefixesOnly(sb, old(log.committed), table, log.history, |old(log.history)|, ip.inum, old(f.off), data)
      invariant i == 0 ==> ip.size == old(ip.size)
      invariant i > 0 ==> ip.kind != T_DEV && old(f.off) <= old(ip.size) && f.off <= ip.size
    {
      var n1 := if |data| - i > MAXCHUNK then MAXCHUNK else |data| - i;
      ghost var h, h1, t1 := log.committed, log.history, t;
      o, r := WriteChunk(log, sb, ip, f.off, data[i..i + n1], pid, t);
      PrefixStep(sb, old(log.committed), table, h, t1, h1, log.history, |old(log.history)|, ip.inum, old(f.off), data,
        i, n1);
      if o.Panic? {
        return;
      }
      t := table[ip.inum := ip.Copy()];
      assert t1[ip.inum := ip.Copy()] == t;
      if !r.Count? {
        break;
      }
      AtStep(sb, old(log.committed), table, h, t1, log.committed, t, ip.inum, old(f.off), data, i, n1);
      ChunkSize(sb, h, t1, log.committed, t, ip.inum, f.off, data[i..i + n1]);
      f.off := f.off + n1;
      i := i + n1;
      written := i;
    }
    if r.Count? { r := Count(|data|); }
  }
}
