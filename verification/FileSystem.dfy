/**
 * fs.c over the transaction layer: the block allocator, the block map of an inode, truncation, and
 * reading and writing a file.
 */
module FileSystem {
  import opened Common
  import opened Blocks
  import opened DiskLayout
  import opened Ownership
  import opened BlockMap
  import opened FileContent
  import opened Truncate
  import opened Log
  import opened Transactions
  import LogSpec

  /** The in-memory copy of an inode, locked by the caller. */
  class Inode {
    const inum: nat
    var kind: half
    var major: half
    var minor: half
    var nlink: half
    var size: word
    var addrs: Addrs

    constructor (inum: nat, d: Dinode)
      ensures this.inum == inum && Copy() == d
    {
      this.inum := inum;
      kind, major, minor, nlink, size, addrs := d.kind, d.major, d.minor, d.nlink, d.size, d.addrs;
    }

    ghost function Copy(): Dinode
      reads this
    {
      Dinode(kind, major, minor, nlink, size, addrs)
    }
  }

  const T_DEV: nat := 3

  /** The result of readi and writei: a byte count, -1, or whatever the device driver says. */
  datatype IoResult = Count(n: nat) | Failed | Device

  /** Blocks a caller may be holding when it allocates or frees: data blocks marked in use. */
  ghost predicate HoldsData(sb: Super, blocks: Disk, held: set<nat>)
    requires sb.nlog <= sb.size
  {
    forall s | s in held :: InData(sb, s) && Used(sb, blocks, s)
  }

  lemma ProgressOk(sb: Super, b0: Disk, t0: seq<Dinode>, b: Disk, t: seq<Dinode>, inum: nat, off0: nat, off: nat,
      src: seq<byte>)
    requires Progress(sb, b0, t0, b, t, inum, off0, off, src)
    ensures FsOk(sb, b, t) && |t| == |t0| && inum < |t| && OnDisk(sb, b, t, inum)
  {
  }

  lemma SizeBound(sb: Super, blocks: Disk, table: seq<Dinode>, inum: nat)
    requires FsOk(sb, blocks, table) && inum < |table|
    ensures table[inum].size <= MAXFILE * BSIZE
    ensures forall off: nat :: Touched(off, 0) == 0
  {
  }

  lemma FileSlot(sb: Super, blocks: Disk, table: seq<Dinode>, inum: nat, off: nat)
    requires FsOk(sb, blocks, table) && inum < |table| && off < table[inum].size
    ensures off / BSIZE < MAXFILE && Addr(blocks, table[inum], DataSlot(off / BSIZE)) != 0
    ensures Addr(blocks, table[inum], DataSlot(off / BSIZE)) < |blocks|
  {
    BackedAt(blocks, table[inum], table[inum].size, off);
    SlotData(sb, blocks, table, inum, DataSlot(off / BSIZE));
  }

  lemma PieceRead(blocks: Disk, d: Dinode, off: nat, m: nat)
    requires off + m <= d.size && off % BSIZE + m <= BSIZE && off / BSIZE < MAXFILE
    requires 0 < Addr(blocks, d, DataSlot(off / BSIZE)) < |blocks|
    ensures blocks[Addr(blocks, d, DataSlot(off / BSIZE))][off % BSIZE..off % BSIZE + m] ==
      FileBytes(blocks, d)[off..off + m]
  {
    hide Addr;
    forall p: nat | off <= p < off + m
      ensures FileBytes(blocks, d)[p] == blocks[Addr(blocks, d, DataSlot(off / BSIZE))][off % BSIZE + (p - off)]
    {
      SameBlock(off, p, m);
    }
  }

  lemma TurnIndirect(sb: Super, b0: Disk, t0: seq<Dinode>, b: Disk, t: seq<Dinode>, inum: nat, off: nat,
      piece: seq<byte>)
    requires Turn(sb, b0, t0, b, t, inum, off, piece)
    ensures t0[inum].addrs[NDIRECT] != 0 ==> t[inum].addrs[NDIRECT] == t0[inum].addrs[NDIRECT]
  {
  }

  ghost function Bitmaps(sb: Super): set<nat>
  {
    set b: nat | b < sb.size :: sb.BitBlock(b)
  }

  /** What bmap and its callers may log besides the inode: bitmap blocks, the indirect block, the data block. */
  ghost predicate LoggedOnly(sb: Super, logged: set<nat>, was: set<nat>, ind: set<nat>, dat: set<nat>)
  {
    logged <= was + Bitmaps(sb) + ind + dat && |ind| <= 1 && |dat| <= 1
  }

  /** The blocks logged by a write that has reached into some blocks of an inode with the given indirect block. */
  ghost predicate LoopLogged(sb: Super, logged: set<nat>, was: set<nat>, ind: set<nat>, dat: set<nat>,
      indirect: nat, blocks: nat)
  {
    && logged <= was + Bitmaps(sb) + ind + dat && |dat| <= blocks
    && ind <= {indirect} && (indirect == 0 ==> ind == {}) && |ind| <= 1
  }

  /** What a write may log: the inode, bitmap blocks, one indirect block and as many data blocks as it reaches into. */
  ghost predicate WriteLogged(sb: Super, logged: set<nat>, was: set<nat>, inum: nat, ind: set<nat>,
      dat: set<nat>, blocks: nat)
  {
    logged <= was + Bitmaps(sb) + ind + dat + {sb.InodeBlock(inum)} && |ind| <= 1 && |dat| <= blocks
  }

  lemma TurnLogged(sb: Super, was: set<nat>, l1: set<nat>, l2: set<nat>, ind: set<nat>, dat: set<nat>,
      ind1: set<nat>, dat1: set<nat>,
                   i1: nat, i2: nat, b1: nat, b2: nat, inum: nat)
    requires LoopLogged(sb, l1, was, ind, dat, i1, b1) && LoggedOnly(sb, l2, l1, ind1, dat1) && b1 + 1 <= b2
    requires i1 != 0 ==> ind1 <= {i1}
    ensures WriteLogged(sb, l2, was, inum, ind + ind1, dat + dat1, b2)
    ensures ind1 <= {i2} && (i2 == 0 ==> ind1 == {}) && (i1 != 0 ==> i2 == i1) ==>
      LoopLogged(sb, l2, was, ind + ind1, dat + dat1, i2, b1 + 1)
  {
    hide Bitmaps;
    OneIndirect(ind, ind1, i1);
    UnionSize(dat, dat1);
  }

  lemma Aligned(b: nat)
    ensures b % BPB == 0 ==> (b + BPB) % BPB == 0
  {
  }

  /** The superblock, the bitmap and free blocks are not among the data blocks a caller may hold. */
  lemma NotHeld(sb: Super, blocks: Disk, table: seq<Dinode>, held: set<nat>)
    requires FsOk(sb, blocks, table) && HoldsData(sb, blocks, held)
    ensures 1 !in held
    ensures forall b: nat | b < sb.size :: sb.BitBlock(b) !in held && (!Used(sb, blocks, b) ==> b !in held)
  {
    LayoutFacts(sb);
  }

  lemma LogStart(sb: Super, logged: set<nat>, indirect: nat)
    ensures LoopLogged(sb, logged, logged, {}, {}, indirect, 0)
  {
  }

  lemma LogEnd(sb: Super, logged: set<nat>, was: set<nat>, inum: nat, ind: set<nat>, dat: set<nat>,
      indirect: nat, blocks: nat)
    requires LoopLogged(sb, logged, was, ind, dat, indirect, blocks)
    ensures WriteLogged(sb, logged, was, inum, ind, dat, blocks)
  {
  }

  lemma NothingLogged(sb: Super, logged: set<nat>, inum: nat, blocks: nat)
    ensures WriteLogged(sb, logged, logged, inum, {}, {}, blocks)
  {
  }

  lemma AlsoInode(sb: Super, l1: set<nat>, l2: set<nat>, was: set<nat>, inum: nat, ind: set<nat>, dat: set<nat>,
      blocks: nat)
    requires WriteLogged(sb, l1, was, inum, ind, dat, blocks) && l2 <= l1 + {sb.InodeBlock(inum)}
    ensures WriteLogged(sb, l2, was, inum, ind, dat, blocks)
  {
  }

  lemma BitmapIn(sb: Super, b: nat)
    ensures b < sb.size ==> sb.BitBlock(b) in Bitmaps(sb)
  {
  }

  lemma BitsUsed(sb: Super, blocks: Disk, b: nat, bi: nat)
    requires b % BPB == 0 && bi <= BPB && sb.BitBlock(b) < |blocks| && AllUsed(sb, blocks, b)
    requires forall c: nat | c < bi :: GetBit(blocks[sb.BitBlock(b)], c)
    ensures AllUsed(sb, blocks, b + bi)
    ensures bi < BPB ==> sb.BitBlock(b + bi) == sb.BitBlock(b) && (b + bi) % BPB == bi
    ensures bi < BPB && !GetBit(blocks[sb.BitBlock(b)], bi) ==> !Used(sb, blocks, b + bi)
  {
    hide GetBit;
    forall c: nat | b <= c < b + bi
      ensures Used(sb, blocks, c)
    {
      assert c / BPB == b / BPB && c % BPB == c - b;
    }
    if bi < BPB { assert (b + bi) / BPB == b / BPB && (b + bi) % BPB == bi; }
  }

  class FileSystem {
    const sb: Super
    const st: Store

    constructor (sb: Super, st: Store)
      ensures this.sb == sb && this.st == st
    {
      this.sb := sb;
      this.st := st;
    }

    /** A transaction on a well-formed disk. */
    ghost predicate Good(table: seq<Dinode>)
      reads st, st.log, st.log.bc
    {
      st.Valid() && FsOk(sb, st.view, table)
    }

    /** readsb. */
    method Readsb(ghost table: seq<Dinode>) returns (o: Outcome, super: Super)
      requires Good(table) && 1 !in st.held
      modifies st, st.log, st.log.bc
      ensures st.Safe() && (o == Done || (o == Panic(NoBuffer) && st.Short(|old(st.held)|)))
      ensures st.logged == old(st.logged)
      ensures o.Done? ==> st.Valid() && st.view == old(st.view) && st.held == old(st.held) && super == sb
    {
      hide Store.Valid; hide Store.Safe; hide OwnOk; hide UniqueOk; hide SizesOk; hide ReservedOk; hide GetWord;
      var data;
      o, data := st.Bread(1);
      if o.Panic? {
        return o, sb;
      }
      super := Super(GetWord(data, 0), GetWord(data, 2), GetWord(data, 3));
      st.Brelse(1);
    }

    ghost predicate Full()
      reads st, st.log
    {
      |st.logged| >= LogSpec.LOGSIZE || |st.logged| >= st.log.size - 1
    }

    /** The reasons for which an operation that allocates nothing and holds h buffers can bring the kernel down. */
    ghost predicate LogHalts(o: Outcome, h: nat)
      reads st, st.log, st.log.bc
    {
      o.Panic? ==> (o.why == TooBig && Full()) || (o.why == NoBuffer && st.Short(h))
    }

    /** The reasons for which one that allocates can. */
    ghost predicate Halts(o: Outcome, h: nat)
      reads st, st.log, st.log.bc
    {
      LogHalts(o, h) || (o.Panic? && (o.why == OutOfBlocks || o.why == IntoLog))
    }

    /** Changing and logging a block that is not held yet. */
    method Overwrite(x: nat, data: Block) returns (o: Outcome)
      requires st.Valid() && x < |st.view| && x !in st.held
      modifies st, st.log, st.log.bc
      ensures st.Safe() && LogHalts(o, |old(st.held)| + 1) && !o.Sleep?
      ensures st.logged <= old(st.logged) + {x}
      ensures o.Done? ==>
        && st.Valid() && st.view == old(st.view)[x := data] && st.held == old(st.held)
        && st.logged == old(st.logged) + {x}
    {
      hide Store.Valid; hide Store.Safe;
      var was;
      o, was := st.Bread(x);
      if o.Panic? {
        return;
      }
      o := st.LogWrite(x, data);
      if o.Panic? {
        return;
      }
      st.Brelse(x);
    }

    /** The inner loop of balloc: the first clear bit of a bitmap block among those of existing blocks. */
    method ScanBits(data: Block, b: nat, size: nat) returns (bi: nat)
      ensures bi <= BPB && (bi < BPB ==> b + bi >= size || !GetBit(data, bi))
      ensures forall c: nat | c < bi :: b + c < size && GetBit(data, c)
    {
      bi := 0;
      while bi < BPB && b + bi < size && GetBit(data, bi)
        invariant bi <= BPB && forall c: nat | c < bi :: b + c < size && GetBit(data, c)
      {
        bi := bi + 1;
      }
    }

    /** One turn of balloc's outer loop: stop at the first clear bit, holding its bitmap block. */
    method ScanBlock(b: nat, size: nat, ghost table: seq<Dinode>) returns (o: Outcome, found: bool, f: nat, data: Block)
      requires Good(table) && size == sb.size && b < size && b % BPB == 0 && AllUsed(sb, st.view, b)
      requires sb.BitBlock(b) !in st.held
      modifies st, st.log, st.log.bc
      ensures st.Safe() && (o == Done || (o == Panic(NoBuffer) && st.Short(|old(st.held)|)))
      ensures st.logged == old(st.logged)
      ensures o.Done? ==> st.Valid() && st.view == old(st.view) && f <= size && AllUsed(sb, st.view, f)
      ensures o.Done? && found ==>
        && f < size && !Used(sb, st.view, f) && sb.BitBlock(f) < |st.view|
        && data == st.view[sb.BitBlock(f)] && sb.BitBlock(f) !in old(st.held)
        && st.held == old(st.held) + {sb.BitBlock(f)}
      ensures o.Done? && !found ==> st.held == old(st.held) && (f == size || f == b + BPB)
    {
      hide Store.Valid; hide Store.Safe; hide OwnOk; hide UniqueOk; hide SizesOk; hide ReservedOk;
      hide GetWord; hide GetBit; hide Used;
      found, f := false, 0;
      LayoutFacts(sb);
      o, data := st.Bread(sb.BitBlock(b));
      if o.Panic? {
        return;
      }
      hide FsOk;
      var bi := ScanBits(data, b, size);
      BitsUsed(sb, st.view, b, bi);
      if bi < BPB && b + bi < size {
        found, f := true, b + bi;
        return;
      }
      st.Brelse(sb.BitBlock(b));
      f := if size < b + BPB then size else b + BPB;
    }

    /** balloc. */
    method Balloc(ghost table: seq<Dinode>) returns (o: Outcome, b: nat)
      requires Good(table) && HoldsData(sb, st.view, st.held)
      modifies st, st.log, st.log.bc
      ensures st.Safe() && !o.Sleep? && Halts(o, |old(st.held)| + 1)
      ensures o.Panic? ==>
        || o.why == TooBig || o.why == NoBuffer
        || (o.why == OutOfBlocks && AllUsed(sb, old(st.view), sb.size))
        || (o.why == IntoLog && AllUsed(sb, old(st.view), sb.LogStart()) && !AllUsed(sb, old(st.view), sb.size))
      ensures AllUsed(sb, old(st.view), sb.LogStart()) && !AllUsed(sb, old(st.view), sb.size) ==>
        o == Panic(IntoLog) || o == Panic(NoBuffer)
      ensures b < sb.size ==> st.logged <= old(st.logged) + {sb.BitBlock(b), b}
      ensures b >= sb.size ==> st.logged == old(st.logged)
      ensures o.Done? ==>
        && st.Valid() && Allocated(sb, old(st.view), st.view, table, b) && st.held == old(st.held)
        && st.logged == old(st.logged) + {sb.BitBlock(b), b}
    {
      hide Store.Valid; hide Store.Safe; hide Used; hide FlipBit; hide Allocated;
      var super;
      NotHeld(sb, st.view, table, st.held);
      hide FsOk; hide HoldsData; hide Super.BitBlock;
      o, super := Readsb(table);
      b := sb.size;
      if o.Panic? {
        return;
      }
      var f := 0;
      while f < super.size
        invariant f <= sb.size && (f < sb.size ==> f % BPB == 0) && AllUsed(sb, st.view, f)
        invariant st.Safe() && st.Valid() && st.view == old(st.view) && st.held == old(st.held)
        invariant st.logged == old(st.logged)
      {
        var found, data;
        ghost var f0 := f;
        o, found, f, data := ScanBlock(f, super.size, table);
        if o.Panic? {
          return;
        }
        if found {
          if f >= sb.LogStart() {
            o := Panic(IntoLog);
            return;
          }
          AllocatedOk(sb, st.view, table, f);
          b := f;
          o := Claim(b, data, table);
          return;
        }
        Aligned(f0);
      }
      o := Panic(OutOfBlocks);
    }

    /** Marking the block found, and bzero. */
    method Claim(b: nat, data: Block, ghost table: seq<Dinode>) returns (o: Outcome)
      requires Good(table) && b < sb.LogStart() && !Used(sb, st.view, b) && AllUsed(sb, st.view, b)
      requires sb.BitBlock(b) < |st.view| && sb.BitBlock(b) in st.held && b !in st.held
      requires data == st.view[sb.BitBlock(b)]
      modifies st, st.log, st.log.bc
      ensures st.Safe() && LogHalts(o, |old(st.held)|) && !o.Sleep?
      ensures st.logged <= old(st.logged) + {sb.BitBlock(b), b}
      ensures o.Done? ==>
        && st.Valid() && Allocated(sb, old(st.view), st.view, table, b) && st.held == old(st.held) - {sb.BitBlock(b)}
        && st.logged == old(st.logged) + {sb.BitBlock(b), b}
    {
      hide Store.Valid; hide Store.Safe; hide Allocated; hide FsOk; hide GetBit; hide FlipBit; hide Used;
      AllocatedOk(sb, st.view, table, b);
      o := st.LogWrite(sb.BitBlock(b), FlipBit(data, b % BPB));
      if o.Panic? {
        return;
      }
      st.Brelse(sb.BitBlock(b));
      o := Overwrite(b, ZeroBlock());
    }

    /** bmap for ip->addrs[k]: a direct block, or the indirect block itself. */
    method FillDirect(ip: Inode, k: nat, ghost table: seq<Dinode>) returns (o: Outcome, b: nat)
      requires Good(table) && st.held == {} && k <= NDIRECT && ip.inum < |table| && table[ip.inum] == ip.Copy()
      requires ip.addrs[k] == 0
      modifies ip`addrs, st, st.log, st.log.bc
      ensures st.Safe() && !o.Sleep? && Halts(o, 2) && LoggedOnly(sb, st.logged, old(st.logged), {}, {b})
      ensures o.Done? ==>
        && st.Valid() && st.held == {} && 0 < b < UINT && ip.addrs == old(ip.addrs)[k := b]
        && Grew(sb, old(st.view), table, st.view, table[ip.inum := ip.Copy()], ip.inum, {k})
      ensures o.Panic? ==> ip.addrs == old(ip.addrs)
    {
      hide Store.Valid; hide Store.Safe; hide Grew; hide Used; hide OwnOk; hide UniqueOk; hide SizesOk;
      hide ReservedOk; hide GetWord; hide Unowned; hide SameSlots;
      o, b := Balloc(table);
      BitmapIn(sb, b);
      if o.Panic? {
        return;
      }
      SizeFits(sb, b);
      GrewDirect(sb, old(st.view), st.view, table, ip.inum, k, b);
      ip.addrs := ip.addrs[k := b];
      assert ip.Copy() == SetAddr(old(ip.Copy()), k, b);
    }

    /** bmap for entry j of the indirect block. */
    method FillIndirect(ip: Inode, j: nat, ghost table: seq<Dinode>) returns (o: Outcome, b: nat)
      requires Good(table) && st.held == {} && j < NINDIRECT && ip.inum < |table| && table[ip.inum] == ip.Copy()
      requires ip.addrs[NDIRECT] != 0
      modifies st, st.log, st.log.bc
      ensures st.Safe() && !o.Sleep? && Halts(o, 2)
      ensures LoggedOnly(sb, st.logged, old(st.logged), {ip.addrs[NDIRECT]}, {b})
      ensures Addr(old(st.view), ip.Copy(), NDIRECT + 1 + j) != 0 ==> o.Done? || o == Panic(NoBuffer)
      ensures o.Done? ==>
        && st.Valid() && st.held == {} && b != 0 && b == Addr(st.view, ip.Copy(), NDIRECT + 1 + j)
        && Grew(sb, old(st.view), table, st.view, table, ip.inum, {NDIRECT + 1 + j})
        && (Addr(old(st.view), ip.Copy(), NDIRECT + 1 + j) != 0 ==>
          st.view == old(st.view) && st.logged == old(st.logged))
    {
      hide Store.Valid; hide Store.Safe; hide Grew; hide Used; hide OwnOk; hide UniqueOk; hide SizesOk;
      hide ReservedOk; hide GetWord; hide SetWord;
      var a := ip.addrs[NDIRECT];
      SlotData(sb, st.view, table, ip.inum, NDIRECT);
      var data;
      o, data := st.Bread(a);
      if o.Panic? {
        return o, 0;
      }
      b := GetWord(data, j);
      if b == 0 {
        o, b := Balloc(table);
        BitmapIn(sb, b);
        if o.Panic? {
          return;
        }
        GrewIndirect(sb, old(st.view), st.view, table, ip.inum, j, b);
        SizeFits(sb, b);
        o := st.LogWrite(a, SetWord(data, j, b));
        if o.Panic? {
          return;
        }
      } else {
        GrewNothing(sb, st.view, table, ip.inum);
        GrewMore(sb, st.view, table, st.view, table, ip.inum, {}, {NDIRECT + 1 + j});
      }
      st.Brelse(a);
    }

    /** What bmap promises: the block behind position bn is there, and nothing else about any file has changed. */
    twostate predicate Mapped(ip: Inode, bn: nat, new table: seq<Dinode>, addr: nat, ind: set<nat>, dat: set<nat>)
      reads ip, st, st.log, st.log.bc
      requires bn < MAXFILE && ip.inum < |table|
    {
      && st.Valid() && st.held == {} && addr != 0 && addr == Addr(st.view, ip.Copy(), DataSlot(bn))
      && Grew(sb, old(st.view), table, st.view, table[ip.inum := ip.Copy()], ip.inum, {DataSlot(bn), NDIRECT})
      && ind <= {ip.addrs[NDIRECT] as nat} && (ip.addrs[NDIRECT] == 0 ==> ind == {}) && dat <= {addr}
      && (Addr(old(st.view), old(ip.Copy()), DataSlot(bn)) != 0 ==>
            st.view == old(st.view) && st.logged == old(st.logged) && ip.addrs == old(ip.addrs))
    }

    method BmapDirect(ip: Inode, bn: nat, ghost table: seq<Dinode>) returns (o: Outcome, addr: nat, ghost dat: set<nat>)
      requires Good(table) && st.held == {} && ip.inum < |table| && table[ip.inum] == ip.Copy() && bn < NDIRECT
      modifies ip`addrs, st, st.log, st.log.bc
      ensures st.Safe() && !o.Sleep? && Halts(o, 2) && LoggedOnly(sb, st.logged, old(st.logged), {}, dat)
      ensures Addr(old(st.view), old(ip.Copy()), DataSlot(bn)) != 0 ==> o.Done?
      ensures o.Done? ==> Mapped(ip, bn, table, addr, {}, dat)
    {
      hide Store.Valid; hide Store.Safe; hide Grew; hide FsOk; hide GetWord;
      dat := {};
      addr := ip.addrs[bn];
      if addr == 0 {
        o, addr := FillDirect(ip, bn, table);
        dat := {addr};
        if o.Done? {
          GrewMore(sb, old(st.view), table, st.view, table[ip.inum := ip.Copy()], ip.inum, {bn}, {bn, NDIRECT});
        }
      } else {
        StayPut(sb, st.view, table, ip.inum, bn);
        ValidSafe();
        o := Done;
      }
    }

    method BmapIndirect(ip: Inode, bn: nat, ghost table: seq<Dinode>)
      returns (o: Outcome, addr: nat, ghost ind: set<nat>, ghost dat: set<nat>)
      requires Good(table) && st.held == {} && ip.inum < |table| && table[ip.inum] == ip.Copy()
      requires NDIRECT <= bn < MAXFILE
      modifies ip`addrs, st, st.log, st.log.bc
      ensures st.Safe() && !o.Sleep? && Halts(o, 2)
      ensures Addr(old(st.view), old(ip.Copy()), DataSlot(bn)) != 0 ==> o.Done? || o == Panic(NoBuffer)
      ensures LoggedOnly(sb, st.logged, old(st.logged), ind, dat)
      ensures (old(ip.addrs)[NDIRECT] != 0 ==> ind <= {old(ip.addrs)[NDIRECT] as nat})
      ensures o.Done? ==> Mapped(ip, bn, table, addr, ind, dat)
    {
      hide Store.Valid; hide Store.Safe; hide Grew; hide FsOk; hide GetWord; hide Bitmaps;
      ghost var table1 := table;
      ind, dat := {}, {};
      addr := 0;
      if ip.addrs[NDIRECT] == 0 {
        var a;
        o, a := FillDirect(ip, NDIRECT, table);
        if o.Panic? {
          ind := {a};
          return;
        }
        ind := {ip.addrs[NDIRECT]};
        table1 := table[ip.inum := ip.Copy()];
        GrewOk(sb, old(st.view), table, st.view, table1, ip.inum, {NDIRECT});
      } else {
        GrewNothing(sb, st.view, table, ip.inum);
        GrewMore(sb, st.view, table, st.view, table, ip.inum, {}, {NDIRECT});
        ind := {ip.addrs[NDIRECT]};
      }
      ghost var view1 := st.view;
      assert table1 == table[ip.inum := ip.Copy()];
      o, addr := FillIndirect(ip, bn - NDIRECT, table1);
      dat := {addr};
      if o.Done? {
        GrewTransitive(sb, old(st.view), table, view1, table1, st.view, table1, ip.inum, {NDIRECT}, {bn + 1});
        assert {NDIRECT as nat} + {bn + 1} == {DataSlot(bn), NDIRECT};
      }
    }

    /** bmap: the block behind position bn of the file, allocated on demand. */
    method Bmap(ip: Inode, bn: nat, ghost table: seq<Dinode>)
      returns (o: Outcome, addr: nat, ghost ind: set<nat>, ghost dat: set<nat>)
      requires Good(table) && st.held == {} && ip.inum < |table| && table[ip.inum] == ip.Copy()
      modifies ip`addrs, st, st.log, st.log.bc
      ensures st.Safe() && !o.Sleep? && (o == Panic(BmapOutOfRange) <==> bn >= MAXFILE)
      ensures (bn < MAXFILE ==> Halts(o, 2))
      ensures bn < MAXFILE && Addr(old(st.view), old(ip.Copy()), DataSlot(bn)) != 0 ==> o.Done? || o == Panic(NoBuffer)
      ensures LoggedOnly(sb, st.logged, old(st.logged), ind, dat)
      ensures (old(ip.addrs)[NDIRECT] != 0 ==> ind <= {old(ip.addrs)[NDIRECT] as nat})
      ensures o.Done? ==> Mapped(ip, bn, table, addr, ind, dat)
    {
      hide Store.Valid; hide Store.Safe; hide Grew; hide FsOk; hide Addr;
      ind, dat := {}, {};
      if bn < NDIRECT {
        o, addr, dat := BmapDirect(ip, bn, table);
      } else if bn < MAXFILE {
        o, addr, ind, dat := BmapIndirect(ip, bn, table);
      } else {
        ValidSafe();
        o, addr := Panic(BmapOutOfRange), 0;
      }
    }

    /** One turn of writei's loop: piece goes to byte off of the file. */
    method WriteBlock(ip: Inode, off: nat, piece: seq<byte>, ghost table: seq<Dinode>)
      returns (o: Outcome, ghost ind: set<nat>, ghost dat: set<nat>)
      requires Good(table) && st.held == {} && ip.inum < |table| && table[ip.inum] == ip.Copy()
      requires OnDisk(sb, st.view, table, ip.inum)
      requires off / BSIZE < MAXFILE && off % BSIZE + |piece| <= BSIZE
      modifies ip`addrs, st, st.log, st.log.bc
      ensures st.Safe() && !o.Sleep? && Halts(o, 2) && LoggedOnly(sb, st.logged, old(st.logged), ind, dat)
      ensures old(ip.addrs)[NDIRECT] != 0 ==> ind <= {old(ip.addrs)[NDIRECT] as nat}
      ensures o.Done? ==>
        && st.Valid() && st.held == {}
        && Turn(sb, old(st.view), table, st.view, table[ip.inum := ip.Copy()], ip.inum, off, piece)
        && ind <= {ip.addrs[NDIRECT] as nat} && (ip.addrs[NDIRECT] == 0 ==> ind == {})
        && (Addr(old(st.view), old(ip.Copy()), DataSlot(off / BSIZE)) != 0 ==> ip.addrs == old(ip.addrs))
    {
      hide Store.Valid; hide Store.Safe; hide FsOk; hide Grew; hide Addr; hide Turn; hide OnDisk;
      var addr;
      o, addr, ind, dat := Bmap(ip, off / BSIZE, table);
      if o.Panic? {
        return;
      }
      TurnOk(sb, old(st.view), table, st.view, table[ip.inum := ip.Copy()], ip.inum, {DataSlot(off / BSIZE), NDIRECT},
        off, piece);
      var data;
      o, data := st.Bread(addr);
      if o.Panic? {
        return;
      }
      o := st.LogWrite(addr, Patched(data, off % BSIZE, piece));
      dat := {addr};
      if o.Panic? {
        return;
      }
      st.Brelse(addr);
    }

    /** The part of ilock that loads the inode: it then equals what iupdate last stored. */
    method Iload(ip: Inode, ghost table: seq<Dinode>) returns (o: Outcome)
      requires Good(table) && ip.inum < |table| && OnDisk(sb, st.view, table, -1) && sb.InodeBlock(ip.inum) !in st.held
      modifies st, st.log, st.log.bc, ip
      ensures st.Safe() && st.logged == old(st.logged) && (o == Done || o == Panic(NoBuffer) || o == Panic(NoType))
      ensures o != Panic(NoBuffer) ==>
        && st.Valid() && st.view == old(st.view) && st.held == old(st.held) && ip.Copy() == table[ip.inum]
      ensures o == Panic(NoBuffer) ==> st.Short(|old(st.held)|)
      ensures o != Panic(NoBuffer) ==> (o == Panic(NoType) <==> table[ip.inum].kind == 0)
    {
      hide Store.Valid; hide Store.Safe; hide ReservedOk; hide OwnOk; hide UniqueOk; hide SizesOk;
      hide GetWord; hide DecodeInode;
      LayoutFacts(sb);
      assert InodeAt(sb, st.view, ip.inum) == table[ip.inum];
      var data;
      o, data := st.Bread(sb.InodeBlock(ip.inum));
      if o.Panic? {
        return;
      }
      var dip := DecodeInode(data, ip.inum % IPB);
      ip.kind, ip.major, ip.minor, ip.nlink, ip.size, ip.addrs :=
        dip.kind, dip.major, dip.minor, dip.nlink, dip.size, dip.addrs;
      st.Brelse(sb.InodeBlock(ip.inum));
      if ip.kind == 0 {
        o := Panic(NoType);
      }
    }

    /** iupdate. */
    method Iupdate(ip: Inode, ghost table: seq<Dinode>) returns (o: Outcome)
      requires Good(table) && st.held == {} && ip.inum < |table| && table[ip.inum] == ip.Copy()
      requires OnDisk(sb, st.view, table, ip.inum)
      modifies st, st.log, st.log.bc
      ensures st.Safe() && !o.Sleep? && LogHalts(o, 2) && st.logged <= old(st.logged) + {sb.InodeBlock(ip.inum)}
      ensures o.Done? ==>
        && st.held == {} && Good(table) && OnDisk(sb, st.view, table, -1)
        && (forall c: nat | c < sb.size :: Used(sb, st.view, c) <==> Used(sb, old(st.view), c))
        && forall i: nat | i < |table| :: FileBytes(st.view, table[i]) == FileBytes(old(st.view), table[i])
    {
      hide Store.Valid; hide Store.Safe; hide ReservedOk; hide OwnOk; hide UniqueOk; hide SizesOk;
      hide GetWord; hide OnDisk; hide EncodeInode; hide FileBytes; hide Used;
      UpdateOk(sb, st.view, table, ip.inum);
      var data;
      o, data := st.Bread(sb.InodeBlock(ip.inum));
      if o.Panic? {
        return;
      }
      o := st.LogWrite(sb.InodeBlock(ip.inum), EncodeInode(data, ip.inum % IPB, Dinode(ip.kind, ip.major, ip.minor,
        ip.nlink, ip.size, ip.addrs)));
      if o.Panic? {
        return;
      }
      st.Brelse(sb.InodeBlock(ip.inum));
    }

    /** What holds whenever tot bytes of a write that began on view0 have been stored. */
    ghost predicate Writing(ip: Inode, view0: Disk, was: set<nat>, table: seq<Dinode>, src: seq<byte>, off0: nat,
        tot: nat, ind: set<nat>, dat: set<nat>)
      reads ip, st, st.log, st.log.bc
    {
      && st.Safe() && st.Valid() && st.held == {} && ip.inum < |table|
      && Progress(sb, view0, table, st.view, table[ip.inum := ip.Copy()], ip.inum, off0, off0 + tot, src)
      && LoopLogged(sb, st.logged, was, ind, dat, ip.addrs[NDIRECT], Touched(off0, tot))
    }

    /** One turn of the loop. */
    method WriteTurn(ip: Inode, ghost view0: Disk, ghost was: set<nat>, ghost table: seq<Dinode>, src: seq<byte>,
        off0: nat, tot: nat, ghost ind: set<nat>, ghost dat: set<nat>)
      returns (o: Outcome, m: nat, ghost ind': set<nat>, ghost dat': set<nat>)
      requires Writing(ip, view0, was, table, src, off0, tot, ind, dat) && table[ip.inum].size <= MAXFILE * BSIZE
      requires tot < |src| && off0 + |src| <= MAXFILE * BSIZE && (tot == 0 || (off0 + tot) % BSIZE == 0)
      modifies ip`addrs, st, st.log, st.log.bc
      ensures st.Safe() && !o.Sleep? && Halts(o, 2)
      ensures WriteLogged(sb, st.logged, was, ip.inum, ind', dat', Touched(off0, |src|))
      ensures 0 < m && tot + m <= |src| && (tot + m == |src| || (off0 + tot + m) % BSIZE == 0)
      ensures o.Done? ==> Writing(ip, view0, was, table, src, off0, tot + m, ind', dat')
    {
      hide Store.Valid; hide Store.Safe; hide FsOk; hide GetWord; hide OnDisk; hide Addr; hide Progress;
      hide Turn; hide Piece; hide Touched; hide LoopLogged; hide LoggedOnly; hide WriteLogged;
      var off := off0 + tot;
      m := Piece(off, |src| - tot);
      TouchedStep(off0, tot, m);
      TouchedMonotone(off0, tot + m, |src|);
      ghost var view1, t, i1, l1 := st.view, table[ip.inum := ip.Copy()], ip.addrs[NDIRECT], st.logged;
      ProgressOk(sb, view0, table, view1, t, ip.inum, off0, off, src);
      ghost var ind1, dat1;
      o, ind1, dat1 := WriteBlock(ip, off, src[tot..tot + m], t);
      TurnLogged(sb, was, l1, st.logged, ind, dat, ind1, dat1, i1, ip.addrs[NDIRECT], Touched(off0, tot),
        Touched(off0, |src|), ip.inum);
      ind', dat' := ind + ind1, dat + dat1;
      if o.Panic? {
        return;
      }
      ghost var t2 := table[ip.inum := ip.Copy()];
      assert t[ip.inum := ip.Copy()] == t2;
      ProgressStep(sb, view0, table, view1, t, st.view, t2, ip.inum, off0, off, src, m);
      TurnIndirect(sb, view1, t, st.view, t2, ip.inum, off, src[tot..tot + m]);
    }

    /** The loop of writei. */
    method WriteLoop(ip: Inode, src: seq<byte>, off0: nat, ghost table: seq<Dinode>)
      returns (o: Outcome, ghost ind: set<nat>, ghost dat: set<nat>)
      requires Good(table) && st.held == {} && ip.inum < |table| && table[ip.inum] == ip.Copy()
      requires OnDisk(sb, st.view, table, -1)
      requires off0 <= ip.size && off0 + |src| <= MAXFILE * BSIZE
      modifies ip`addrs, st, st.log, st.log.bc
      ensures st.Safe() && !o.Sleep? && Halts(o, 2)
      ensures WriteLogged(sb, st.logged, old(st.logged), ip.inum, ind, dat, Touched(off0, |src|))
      ensures o.Done? ==> Writing(ip, old(st.view), old(st.logged), table, src, off0, |src|, ind, dat)
    {
      hide Store.Valid; hide Store.Safe; hide Progress; hide LoopLogged; hide WriteLogged;
      ind, dat := {}, {};
      LogStart(sb, st.logged, ip.addrs[NDIRECT]);
      ProgressStart(sb, st.view, table, ip.inum, off0, src);
      assert table == table[ip.inum := ip.Copy()];
      SizeBound(sb, st.view, table, ip.inum);
      ValidSafe();
      hide FsOk; hide OnDisk; hide Touched; hide Bitmaps;
      o := Done;
      var tot := 0;
      while tot < |src|
        invariant tot <= |src| && (tot == 0 || tot == |src| || (off0 + tot) % BSIZE == 0) && o.Done?
        invariant Writing(ip, old(st.view), old(st.logged), table, src, off0, tot, ind, dat)
      {
        var m;
        o, m, ind, dat := WriteTurn(ip, old(st.view), old(st.logged), table, src, off0, tot, ind, dat);
        if o.Panic? {
          return;
        }
        tot := tot + m;
      }
      LogEnd(sb, st.logged, old(st.logged), ip.inum, ind, dat, ip.addrs[NDIRECT], Touched(off0, |src|));
    }

    /** writei. */
    method Writei(ip: Inode, src: seq<byte>, off: word, ghost table: seq<Dinode>)
      returns (o: Outcome, r: IoResult, ghost ind: set<nat>, ghost dat: set<nat>)
      requires Good(table) && st.held == {} && ip.inum < |table| && table[ip.inum] == ip.Copy()
      requires OnDisk(sb, st.view, table, -1)
      requires |src| < UINT
      modifies ip`addrs, ip`size, st, st.log, st.log.bc
      ensures st.Safe() && !o.Sleep? && Halts(o, 2)
      ensures WriteLogged(sb, st.logged, old(st.logged), ip.inum, ind, dat, Touched(off, |src|))
      ensures r.Device? <==> ip.kind == T_DEV
      ensures r.Failed? <==> ip.kind != T_DEV && (off > old(ip.size) || off + |src| > MAXFILE * BSIZE)
      ensures !r.Count? ==>
        && o.Done? && st.Valid() && st.view == old(st.view) && st.held == {} && st.logged == old(st.logged)
        && ip.Copy() == old(ip.Copy())
      ensures o.Done? && r.Count? ==>
        && r.n == |src| && st.Valid() && st.held == {}
        && Wrote(sb, old(st.view), table, st.view, table[ip.inum := ip.Copy()], ip.inum, off, src)
    {
      hide Store.Valid; hide Store.Safe; hide Progress; hide Wrote; hide WriteLogged; hide OnDisk;
      hide FileBytes; hide Spliced; hide FsOk; hide Touched;
      ind, dat := {}, {};
      NothingLogged(sb, st.logged, ip.inum, Touched(off, |src|));
      ValidSafe();
      assert table[ip.inum := ip.Copy()] == table;
      if ip.kind == T_DEV {
        return Done, Device, ind, dat;
      }
      if off > ip.size || (off + |src|) % UINT < off {
        return Done, Failed, ind, dat;
      }
      if (off + |src|) % UINT > MAXFILE * BSIZE {
        return Done, Failed, ind, dat;
      }
      r := Count(|src|);
      o, ind, dat := WriteLoop(ip, src, off, table);
      if o.Panic? {
        return;
      }
      ghost var view1, t1 := st.view, table[ip.inum := ip.Copy()];
      if |src| > 0 && off + |src| > ip.size {
        WroteBeyond(sb, old(st.view), table, view1, t1, ip.inum, off, src);
        ip.size := off + |src|;
        ghost var t2 := table[ip.inum := ip.Copy()];
        assert t2 == t1[ip.inum := t1[ip.inum].(size := off + |src|)];
        ghost var l1 := st.logged;
        o := Iupdate(ip, t2);
        AlsoInode(sb, l1, st.logged, old(st.logged), ip.inum, ind, dat, Touched(off, |src|));
        if o.Panic? {
          return;
        }
        WroteStored(sb, old(st.view), table, view1, t1, st.view, t2, ip.inum, off, src);
      } else {
        WroteInside(sb, old(st.view), table, view1, t1, ip.inum, off, src);
      }
    }

    /** One turn of readi's loop. */
    method ReadBlock(ip: Inode, off: nat, m: nat, ghost table: seq<Dinode>) returns (o: Outcome, piece: seq<byte>)
      requires Good(table) && st.held == {} && ip.inum < |table| && table[ip.inum] == ip.Copy()
      requires off + m <= ip.size && off % BSIZE + m <= BSIZE && 0 < m
      modifies ip`addrs, st, st.log, st.log.bc
      ensures st.Safe() && (o == Done || (o == Panic(NoBuffer) && st.Short(2)))
      ensures o.Done? ==>
        && Good(table) && st.held == {} && st.view == old(st.view) && st.logged == old(st.logged)
        && ip.Copy() == old(ip.Copy())
      ensures o.Done? ==> piece == FileBytes(st.view, ip.Copy())[off..off + m]
    {
      hide Store.Valid; hide Store.Safe; hide FsOk; hide Grew; hide Addr; hide FileBytes;
      piece := [];
      SizeBound(sb, st.view, table, ip.inum);
      FileSlot(sb, st.view, table, ip.inum, off);
      var addr;
      ghost var ind, dat;
      o, addr, ind, dat := Bmap(ip, off / BSIZE, table);
      if o.Panic? {
        return;
      }
      var data;
      o, data := st.Bread(addr);
      if o.Panic? {
        return;
      }
      piece := data[off % BSIZE..off % BSIZE + m];
      PieceRead(st.view, ip.Copy(), off, m);
      st.Brelse(addr);
    }

    /** readi: the requested part of the file, cut off at its end.  Nothing is allocated or logged. */
    method Readi(ip: Inode, off: word, n: word, ghost table: seq<Dinode>)
      returns (o: Outcome, r: IoResult, dst: seq<byte>)
      requires Good(table) && st.held == {} && ip.inum < |table| && table[ip.inum] == ip.Copy()
      modifies ip`addrs, st, st.log, st.log.bc
      ensures st.Safe() && (o == Done || (o == Panic(NoBuffer) && st.Short(2)))
      ensures r.Device? <==> ip.kind == T_DEV
      ensures r.Failed? <==> ip.kind != T_DEV && (off > ip.size || off + n >= UINT)
      ensures o.Done? ==>
        && Good(table) && st.held == {} && st.view == old(st.view) && st.logged == old(st.logged)
        && ip.Copy() == old(ip.Copy())
      ensures o.Done? && r.Count? ==>
        && r.n == (if off + n > ip.size then ip.size - off else n)
        && dst == FileBytes(st.view, ip.Copy())[off..off + r.n]
    {
      hide Store.Valid; hide Store.Safe; hide FsOk; hide FileBytes;
      dst := [];
      o := Done;
      ValidSafe();
      if ip.kind == T_DEV {
        return o, Device, dst;
      }
      if off > ip.size || (off + n) % UINT < off {
        return o, Failed, dst;
      }
      assert (off + n) % UINT == off + n;
      var n1 := if (off + n) % UINT > ip.size then ip.size - off else n;
      r := Count(n1);
      var tot := 0;
      while tot < n1
        invariant tot <= n1 && o.Done? && st.Safe() && Good(table) && st.held == {} && st.view == old(st.view)
        invariant st.logged == old(st.logged)
        invariant ip.Copy() == old(ip.Copy()) && dst == FileBytes(st.view, ip.Copy())[off..off + tot]
      {
        var m := Piece(off + tot, n1 - tot);
        var piece;
        o, piece := ReadBlock(ip, off + tot, m, table);
        if o.Panic? {
          return;
        }
        dst := dst + piece;
        tot := tot + m;
      }
    }

    /** bfree of a block in nobody's slot: the panic is exactly for a block that is already free. */
    method Bfree(b: nat, ghost table: seq<Dinode>) returns (o: Outcome)
      requires Good(table) && InData(sb, b) && Unowned(st.view, table, b) && HoldsData(sb, st.view, st.held)
      modifies st, st.log, st.log.bc
      ensures st.Safe() && !o.Sleep? && (o != Panic(FreeingFreeBlock) ==> LogHalts(o, |old(st.held)| + 1))
      ensures o.Panic? ==>
        || o.why == TooBig || o.why == NoBuffer
        || (o.why == FreeingFreeBlock && !Used(sb, old(st.view), b))
      ensures st.logged <= old(st.logged) + Bitmaps(sb)
      ensures o.Done? ==>
        && Used(sb, old(st.view), b) && st.Valid() && st.held == old(st.held) && sb.BitBlock(b) < |old(st.view)|
        && st.view == old(st.view)[sb.BitBlock(b) := FlipBit(old(st.view)[sb.BitBlock(b)], b % BPB)]
    {
      hide Store.Valid; hide Store.Safe; hide FlipBit; hide GetBit;
      var super;
      BitmapIn(sb, b);
      NotHeld(sb, st.view, table, st.held);
      LayoutFacts(sb);
      hide FsOk; hide HoldsData; hide Bitmaps;
      o, super := Readsb(table);
      if o.Panic? {
        return;
      }
      var data;
      o, data := st.Bread(super.BitBlock(b));
      if o.Panic? {
        return;
      }
      if !GetBit(data, b % BPB) {
        return Panic(FreeingFreeBlock);
      }
      o := st.LogWrite(super.BitBlock(b), FlipBit(data, b % BPB));
      if o.Panic? {
        return;
      }
      st.Brelse(super.BitBlock(b));
    }

    /** The first loop of itrunc. */
    method FreeDirect(ip: Inode, ghost table: seq<Dinode>) returns (o: Outcome, ghost freed: set<nat>)
      requires Good(table) && st.held == {} && ip.inum < |table| && table[ip.inum] == ip.Copy()
      modifies ip`addrs, st, st.log, st.log.bc
      ensures st.Safe() && !o.Sleep? && LogHalts(o, 2) && st.logged <= old(st.logged) + Bitmaps(sb)
      ensures o.Done? ==>
        && st.Valid() && st.held == {} && freed == OwnedIn(old(st.view), old(ip.Copy()), 0, NDIRECT)
        && Truncating(sb, old(st.view), table, st.view, ip.inum, ip.Copy().(size := 0), freed)
        && ip.addrs[NDIRECT] == old(ip.addrs)[NDIRECT] && forall k | 0 <= k < NDIRECT :: ip.addrs[k] == 0
    {
      hide Store.Valid; hide Store.Safe; hide FsOk; hide Truncating; hide Used; hide FlipBit; hide GetWord;
      hide OwnedIn; hide Bitmaps; hide InData;
      freed := {};
      TruncateStart(sb, st.view, table, ip.inum);
      ValidSafe();
      o := Done;
      var i := 0;
      while i < NDIRECT
        invariant i <= NDIRECT && o.Done? && st.Safe() && st.Valid() && st.held == {}
        invariant st.logged <= old(st.logged) + Bitmaps(sb)
        invariant freed == OwnedIn(old(st.view), old(ip.Copy()), 0, i)
        invariant Truncating(sb, old(st.view), table, st.view, ip.inum, ip.Copy().(size := 0), freed)
        invariant forall k | 0 <= k < i :: ip.addrs[k] == 0
        invariant forall k | i <= k <= NDIRECT :: ip.addrs[k] == old(ip.addrs)[k]
      {
        OwnedStep(old(st.view), old(ip.Copy()), 0, i);
        if ip.addrs[i] != 0 {
          ghost var d := ip.Copy().(size := 0);
          DirectFree(sb, old(st.view), table, st.view, ip.inum, d, freed, i);
          o := Bfree(ip.addrs[i], table[ip.inum := SetAddr(d, i, 0)]);
          if o.Panic? {
            return;
          }
          freed := freed + {ip.addrs[i] as nat};
          ip.addrs := ip.addrs[i := 0];
          assert ip.Copy().(size := 0) == SetAddr(d, i, 0);
        }
        i := i + 1;
      }
    }

    /** The second loop of itrunc: the blocks listed in the indirect block, which is held meanwhile. */
    method FreeListed(data: Block, ghost b0: Disk, ghost table: seq<Dinode>, ghost inum: nat, ghost d: Dinode,
        ghost freed0: set<nat>)
      returns (o: Outcome, ghost freed: set<nat>)
      requires st.Valid() && inum < |table| && d.addrs[NDIRECT] != 0
      requires Listing(sb, b0, table, st.view, inum, d, freed0, NDIRECT + 1)
      requires d.addrs[NDIRECT] < |b0| && data == b0[d.addrs[NDIRECT]] && st.held == {d.addrs[NDIRECT] as nat}
      modifies st, st.log, st.log.bc
      ensures st.Safe() && !o.Sleep? && LogHalts(o, 2) && st.logged <= old(st.logged) + Bitmaps(sb)
      ensures o.Done? ==>
        && st.Valid() && st.held == old(st.held) && Listing(sb, b0, table, st.view, inum, d, freed, SLOTS)
        && freed == freed0 + OwnedIn(b0, d, NDIRECT + 1, SLOTS)
    {
      hide Store.Valid; hide Store.Safe; hide FsOk; hide Listing; hide Used; hide FlipBit; hide GetWord;
      hide OwnedIn; hide Bitmaps; hide InData; hide Addr;
      freed := freed0;
      OwnedAll(b0, d);
      ValidSafe();
      o := Done;
      var j := 0;
      while j < NINDIRECT
        invariant j <= NINDIRECT && o.Done? && st.Safe() && st.Valid() && st.held == old(st.held)
        invariant st.logged <= old(st.logged) + Bitmaps(sb)
        invariant Listing(sb, b0, table, st.view, inum, d, freed, NDIRECT + 1 + j)
        invariant freed == freed0 + OwnedIn(b0, d, NDIRECT + 1, NDIRECT + 1 + j)
      {
        OwnedStep(b0, d, NDIRECT + 1, NDIRECT + 1 + j);
        ListingRead(sb, b0, table, st.view, inum, d, freed, j);
        ListingAddr(sb, b0, table, st.view, inum, d, freed, NDIRECT + 1 + j);
        var w := GetWord(data, j);
        if w != 0 {
          ListingFree(sb, b0, table, st.view, inum, d, freed, NDIRECT + 1 + j);
          o := Bfree(w, table[inum := SetAddr(d, NDIRECT, 0)]);
          if o.Panic? {
            return;
          }
          freed := freed + {w as nat};
        }
        j := j + 1;
      }
    }

    /** The indirect half of itrunc. */
    method FreeIndirect(ip: Inode, ghost b0: Disk, ghost table: seq<Dinode>, ghost freed0: set<nat>)
      returns (o: Outcome, ghost freed: set<nat>)
      requires st.Valid() && st.held == {} && ip.inum < |table| && ip.addrs[NDIRECT] != 0
      requires Truncating(sb, b0, table, st.view, ip.inum, ip.Copy().(size := 0), freed0)
      modifies ip`addrs, st, st.log, st.log.bc
      ensures st.Safe() && !o.Sleep? && LogHalts(o, 2) && st.logged <= old(st.logged) + Bitmaps(sb)
      ensures o.Done? ==>
        && st.Valid() && st.held == {} && ip.addrs == old(ip.addrs)[NDIRECT := 0]
        && freed == freed0 + OwnedIn(b0, old(ip.Copy()), NDIRECT, SLOTS)
        && Truncating(sb, b0, table, st.view, ip.inum, ip.Copy().(size := 0), freed)
    {
      hide Store.Valid; hide Store.Safe; hide FsOk; hide Listing; hide Used; hide FlipBit; hide GetWord;
      hide OwnedIn; hide Bitmaps; hide InData; hide Truncating;
      freed := freed0;
      ghost var d := ip.Copy().(size := 0);
      var a := ip.addrs[NDIRECT];
      OwnedSame(b0, ip.Copy(), d);
      OwnedAll(b0, d);
      ListingStart(sb, b0, table, st.view, ip.inum, d, freed0);
      hide Addr;
      var data;
      o, data := st.Bread(a);
      if o.Panic? {
        return;
      }
      o, freed := FreeListed(data, b0, table, ip.inum, d, freed0);
      if o.Panic? {
        return;
      }
      st.Brelse(a);
      ListingEnd(sb, b0, table, st.view, ip.inum, d, freed);
      o := Bfree(a, table[ip.inum := SetAddr(d, NDIRECT, 0)]);
      if o.Panic? {
        return;
      }
      freed := freed + {a as nat};
      ip.addrs := ip.addrs[NDIRECT := 0];
      assert ip.Copy().(size := 0) == SetAddr(d, NDIRECT, 0);
      assert Addr(b0, d, NDIRECT) == a by { DirectAddr(b0, d, NDIRECT); }
    }

    /** itrunc. */
    method Itrunc(ip: Inode, ghost table: seq<Dinode>) returns (o: Outcome)
      requires Good(table) && st.held == {} && ip.inum < |table| && table[ip.inum] == ip.Copy()
      requires OnDisk(sb, st.view, table, -1)
      modifies ip`addrs, ip`size, st, st.log, st.log.bc
      ensures st.Safe() && !o.Sleep? && LogHalts(o, 2)
      ensures st.logged <= old(st.logged) + Bitmaps(sb) + {sb.InodeBlock(ip.inum)}
      ensures o.Done? ==>
        && st.Valid() && st.held == {}
        && Truncated(sb, old(st.view), table, st.view, table[ip.inum := ip.Copy()], ip.inum)
    {
      hide Store.Valid; hide Store.Safe; hide FsOk; hide Truncating; hide Truncated; hide OnDisk; hide OwnedIn;
      hide Bitmaps; hide Used;
      ghost var freed;
      o, freed := FreeDirect(ip, table);
      if o.Panic? {
        return;
      }
      OwnedAll(old(st.view), table[ip.inum]);
      if ip.addrs[NDIRECT] != 0 {
        OwnedSame(old(st.view), table[ip.inum], ip.Copy());
        o, freed := FreeIndirect(ip, old(st.view), table, freed);
        if o.Panic? {
          return;
        }
      }
      ip.size := 0;
      ghost var t, view1 := table[ip.inum := ip.Copy()], st.view;
      TruncateEnd(sb, old(st.view), table, st.view, ip.inum, ip.Copy(), freed);
      o := Iupdate(ip, t);
      if o.Panic? {
        return;
      }
      TruncateDone(sb, old(st.view), table, view1, st.view, ip.inum, ip.Copy(), t, freed);
    }

    lemma ValidSafe()
      requires st.Valid()
      ensures st.Safe()
    {
    }
  }
}
