/**
 * A file as a sequence of bytes, and what changes to blocks and slots do to it.
 */
module FileContent {
  import opened Common
  import opened Blocks
  import opened DiskLayout
  import opened Ownership
  import opened BlockMap

  /** Byte p of the blocks an inode lists. */
  ghost function ByteAt(blocks: Disk, d: Dinode, p: nat): byte
  {
    if p / BSIZE < MAXFILE && 0 < Addr(blocks, d, DataSlot(p / BSIZE)) < |blocks|
    then blocks[Addr(blocks, d, DataSlot(p / BSIZE))][p % BSIZE] else 0
  }

  /** The file: as many bytes as the inode's size says. */
  ghost function FileBytes(blocks: Disk, d: Dinode): (r: seq<byte>)
    ensures |r| == d.size && forall p: nat | p < d.size :: r[p] == ByteAt(blocks, d, p)
  {
    Bytes(blocks, d, d.size)
  }

  ghost function Bytes(blocks: Disk, d: Dinode, n: nat): (r: seq<byte>)
    ensures |r| == n && forall p: nat | p < n :: r[p] == ByteAt(blocks, d, p)
  {
    if n == 0 then [] else Bytes(blocks, d, n - 1) + [ByteAt(blocks, d, n - 1)]
  }

  /** Bytes off.. overwritten by src, and the sequence extended if src reaches beyond its end. */
  function Spliced(s: seq<byte>, off: nat, src: seq<byte>): (r: seq<byte>)
    requires off <= |s|
  {
    s[..off] + src + if off + |src| < |s| then s[off + |src|..] else []
  }

  /** No inode but inum has a different file. */
  ghost predicate OthersKept(blocks: Disk, blocks': Disk, table: seq<Dinode>, inum: nat)
  {
    forall i | 0 <= i < |table| && i != inum :: FileBytes(blocks', table[i]) == FileBytes(blocks, table[i])
  }

  lemma BackedAt(blocks: Disk, d: Dinode, size: nat, p: nat)
    requires Backed(blocks, d, size) && p < size && p / BSIZE < MAXFILE
    ensures Addr(blocks, d, DataSlot(p / BSIZE)) != 0
  {
    assert p / BSIZE * BSIZE <= p;
  }

  /** bmap changes no byte of any file. */
  lemma GrewContent(sb: Super, blocks: Disk, table: seq<Dinode>, blocks': Disk, table': seq<Dinode>, inum: nat,
      slots: set<nat>, i: nat, p: nat)
    requires Grew(sb, blocks, table, blocks', table', inum, slots) && i < |table|
    requires p / BSIZE < MAXFILE && Addr(blocks, table[i], DataSlot(p / BSIZE)) != 0
    ensures ByteAt(blocks', table'[i], p) == ByteAt(blocks, table[i], p)
  {
    hide Addr; hide FsOk;
    var k := DataSlot(p / BSIZE);
    assert SlotOf(table, i, k);
    assert SlotKept(blocks, table, blocks', table', inum, slots, i, k);
  }

  lemma GrewOthers(sb: Super, blocks: Disk, table: seq<Dinode>, blocks': Disk, table': seq<Dinode>, inum: nat,
      slots: set<nat>)
    requires FsOk(sb, blocks, table) && Grew(sb, blocks, table, blocks', table', inum, slots)
    ensures OthersKept(blocks, blocks', table, inum)
  {
    forall i | 0 <= i < |table| && i != inum
      ensures FileBytes(blocks', table[i]) == FileBytes(blocks, table[i])
    {
      assert table'[i] == table[i];
      forall p: nat | p < table[i].size
        ensures ByteAt(blocks', table[i], p) == ByteAt(blocks, table[i], p)
      {
        BackedAt(blocks, table[i], table[i].size, p);
        GrewContent(sb, blocks, table, blocks', table', inum, slots, i, p);
      }
    }
  }

  ghost predicate Poked(blocks: Disk, blocks': Disk, table: seq<Dinode>, inum: nat, bn: nat, data: Block)
  {
    forall i: nat, p: nat {:trigger ByteAt(blocks', table[i], p)} | i < |table| && p / BSIZE < MAXFILE ::
      ByteAt(blocks', table[i], p) ==
        if i == inum && p / BSIZE == bn then data[p % BSIZE] else ByteAt(blocks, table[i], p)
  }

  /** Writing the block behind position bn of inode inum changes those bytes of that file and nothing else. */
  lemma PokeOk(sb: Super, blocks: Disk, table: seq<Dinode>, inum: nat, bn: nat, data: Block)
    requires FsOk(sb, blocks, table) && inum < |table| && bn < MAXFILE && Addr(blocks, table[inum], DataSlot(bn)) != 0
    ensures Addr(blocks, table[inum], DataSlot(bn)) < |blocks|
    ensures var blocks' := blocks[Addr(blocks, table[inum], DataSlot(bn)) := data];
      && FsOk(sb, blocks', table) && SameSlots(blocks, table, blocks', table)
      && Poked(blocks, blocks', table, inum, bn, data)
  {
    hide GetWord; hide Used; hide ReservedOk; hide SizesOk;
    var k := DataSlot(bn);
    var a := Addr(blocks, table[inum], k);
    assert SlotOf(table, inum, k);
    var blocks' := blocks[a := data];
    forall i | 0 <= i < |table|
      ensures table[i].addrs[NDIRECT] != a
    {
      assert SlotOf(table, i, NDIRECT) && Addr(blocks, table[i], NDIRECT) == table[i].addrs[NDIRECT];
    }
    InertOk(sb, blocks, table, a, data);
    hide FsOk; hide Inert;
    forall i: nat, p: nat {:trigger ByteAt(blocks', table[i], p)} | i < |table| && p / BSIZE < MAXFILE
      ensures ByteAt(blocks', table[i], p) ==
        if i == inum && p / BSIZE == bn then data[p % BSIZE] else ByteAt(blocks, table[i], p)
    {
      PokeByte(sb, blocks, table, inum, bn, data, i, p);
    }
  }

  lemma PokeByte(sb: Super, blocks: Disk, table: seq<Dinode>, inum: nat, bn: nat, data: Block, i: nat, p: nat)
    requires FsOk(sb, blocks, table) && inum < |table| && bn < MAXFILE && Addr(blocks, table[inum], DataSlot(bn)) != 0
    requires Addr(blocks, table[inum], DataSlot(bn)) < |blocks| && i < |table| && p / BSIZE < MAXFILE
    requires SameSlots(blocks, table, blocks[Addr(blocks, table[inum], DataSlot(bn)) := data], table)
    ensures ByteAt(blocks[Addr(blocks, table[inum], DataSlot(bn)) := data], table[i], p)
         == if i == inum && p / BSIZE == bn then data[p % BSIZE] else ByteAt(blocks, table[i], p)
  {
    hide GetWord; hide Used; hide ReservedOk; hide SizesOk;
    assert SlotOf(table, i, DataSlot(p / BSIZE)) && SlotOf(table, inum, DataSlot(bn));
  }

  lemma PokeOthers(sb: Super, blocks: Disk, table: seq<Dinode>, inum: nat, bn: nat, data: Block)
    requires FsOk(sb, blocks, table) && inum < |table| && bn < MAXFILE && Addr(blocks, table[inum], DataSlot(bn)) != 0
    ensures Addr(blocks, table[inum], DataSlot(bn)) < |blocks|
    ensures OthersKept(blocks, blocks[Addr(blocks, table[inum], DataSlot(bn)) := data], table, inum)
  {
    PokeOk(sb, blocks, table, inum, bn, data);
    hide Addr; hide ByteAt;
    var blocks' := blocks[Addr(blocks, table[inum], DataSlot(bn)) := data];
    assert Poked(blocks, blocks', table, inum, bn, data);
    forall i | 0 <= i < |table| && i != inum
      ensures FileBytes(blocks', table[i]) == FileBytes(blocks, table[i])
    {
      assert forall p: nat | p < table[i].size ::
        p / BSIZE < MAXFILE && ByteAt(blocks', table[i], p) == ByteAt(blocks, table[i], p);
    }
  }

  /** Rewriting an inode block moves no file's bytes. */
  lemma MetaContent(sb: Super, blocks: Disk, table: seq<Dinode>, x: nat, data: Block)
    requires FsOk(sb, blocks, table) && 1 < x < sb.ninodes / IPB + 3
    ensures FsOk(sb, blocks[x := data], table)
    ensures forall c: nat | c < sb.size :: Used(sb, blocks[x := data], c) <==> Used(sb, blocks, c)
    ensures forall i: nat, p: nat | i < |table| :: ByteAt(blocks[x := data], table[i], p) == ByteAt(blocks, table[i], p)
  {
    hide GetWord; hide Used; hide ReservedOk; hide SizesOk; hide UniqueOk;
    forall i | 0 <= i < |table|
      ensures table[i].addrs[NDIRECT] != x
    {
      assert SlotOf(table, i, NDIRECT) && Addr(blocks, table[i], NDIRECT) == table[i].addrs[NDIRECT];
    }
    InertOk(sb, blocks, table, x, data);
    forall i: nat, p: nat | i < |table|
      ensures ByteAt(blocks[x := data], table[i], p) == ByteAt(blocks, table[i], p)
    {
      if p / BSIZE < MAXFILE { assert SlotOf(table, i, DataSlot(p / BSIZE)); }
    }
  }

  /** iupdate: afterwards every inode on disk is the one in the table. */
  lemma UpdateOk(sb: Super, blocks: Disk, table: seq<Dinode>, inum: nat)
    requires FsOk(sb, blocks, table) && inum < |table| && OnDisk(sb, blocks, table, inum)
    ensures 1 < sb.InodeBlock(inum) < sb.ninodes / IPB + 3 && sb.InodeBlock(inum) < |blocks|
    ensures
      var x := sb.InodeBlock(inum);
      var blocks' := blocks[x := EncodeInode(blocks[x], inum % IPB, table[inum])];
      && FsOk(sb, blocks', table) && OnDisk(sb, blocks', table, -1)
      && (forall c: nat | c < sb.size :: Used(sb, blocks', c) <==> Used(sb, blocks, c))
      && forall i: nat | i < |table| :: FileBytes(blocks', table[i]) == FileBytes(blocks, table[i])
  {
    hide GetWord; hide Used; hide ReservedOk; hide SizesOk; hide UniqueOk; hide OwnOk; hide DecodeInode;
    hide EncodeInode;
    LayoutFacts(sb);
    var x := sb.InodeBlock(inum);
    var data := EncodeInode(blocks[x], inum % IPB, table[inum]);
    var blocks' := blocks[x := data];
    MetaContent(sb, blocks, table, x, data);
    forall i: nat | i < |table|
      ensures InodeAt(sb, blocks', i) == table[i]
    {
      EncodeDecode(blocks[x], inum % IPB, table[inum], i % IPB);
      if sb.InodeBlock(i) == x && i % IPB == inum % IPB {
        assert i / IPB == inum / IPB;
        assert i == IPB * (i / IPB) + i % IPB && inum == IPB * (inum / IPB) + inum % IPB;
      }
    }
    forall i: nat | i < |table|
      ensures FileBytes(blocks', table[i]) == FileBytes(blocks, table[i])
    {
      hide ByteAt;
      assert forall p: nat | p < table[i].size :: ByteAt(blocks', table[i], p) == ByteAt(blocks, table[i], p);
    }
  }

  /** How far a write has got: off0..off has the new bytes, everything else the old ones. */
  ghost predicate Written(blocks0: Disk, d0: Dinode, blocks: Disk, d: Dinode, off0: nat, off: nat, src: seq<byte>)
  {
    && off0 <= off <= off0 + |src|
    && forall p: nat | p < d0.size || p < off ::
         ByteAt(blocks, d, p) == if off0 <= p < off then src[p - off0] else ByteAt(blocks0, d0, p)
  }

  /** The finished write is a splice. */
  lemma WrittenSplice(blocks0: Disk, d0: Dinode, blocks: Disk, d: Dinode, off: nat, src: seq<byte>)
    requires off <= d0.size && Written(blocks0, d0, blocks, d, off, off + |src|, src)
    requires d.size == if off + |src| > d0.size && |src| > 0 then off + |src| else d0.size
    ensures FileBytes(blocks, d) == Spliced(FileBytes(blocks0, d0), off, src)
  {
    hide ByteAt;
    var f, g := FileBytes(blocks0, d0), FileBytes(blocks, d);
    forall p: nat | p < d.size
      ensures g[p] == Spliced(f, off, src)[p]
    {
      assert g[p] == ByteAt(blocks, d, p);
      if p < off || p >= off + |src| { assert f[p] == ByteAt(blocks0, d0, p); }
    }
  }

  function Max(a: nat, b: nat): nat { if a < b then b else a }

  /** Overwriting part of one block: piece is at off, the other bytes that were there still are. */
  ghost predicate Stepped(blocks: Disk, d: Dinode, blocks': Disk, d': Dinode, off: nat, piece: seq<byte>)
  {
    forall p: nat {:trigger ByteAt(blocks', d', p)} |
      p / BSIZE < MAXFILE && (Addr(blocks, d, DataSlot(p / BSIZE)) != 0 || off <= p < off + |piece|) ::
      ByteAt(blocks', d', p) == if off <= p < off + |piece| then piece[p - off] else ByteAt(blocks, d, p)
  }

  function Patched(data: Block, at: nat, piece: seq<byte>): Block
    requires at + |piece| <= BSIZE
  {
    data[..at] + piece + data[at + |piece|..]
  }

  /** One turn of writei: bmap, then memmove into the block. */
  lemma StepOk(sb: Super, b0: Disk, t0: seq<Dinode>, b1: Disk, t1: seq<Dinode>, inum: nat, slots: set<nat>,
      off: nat, piece: seq<byte>)
    requires FsOk(sb, b0, t0) && Grew(sb, b0, t0, b1, t1, inum, slots)
    requires off / BSIZE < MAXFILE && off % BSIZE + |piece| <= BSIZE && Addr(b1, t1[inum], DataSlot(off / BSIZE)) != 0
    ensures Addr(b1, t1[inum], DataSlot(off / BSIZE)) < |b1|
    ensures var a := Addr(b1, t1[inum], DataSlot(off / BSIZE));
      var b2 := b1[a := Patched(b1[a], off % BSIZE, piece)];
      && FsOk(sb, b2, t1) && OthersKept(b0, b2, t0, inum) && Stepped(b0, t0[inum], b2, t1[inum], off, piece)
      && SameSlots(b1, t1, b2, t1)
  {
    var bn := off / BSIZE;
    SlotData(sb, b1, t1, inum, DataSlot(bn));
    var a := Addr(b1, t1[inum], DataSlot(bn));
    var data := Patched(b1[a], off % BSIZE, piece);
    var b2 := b1[a := data];
    PokeOk(sb, b1, t1, inum, bn, data);
    PokeOthers(sb, b1, t1, inum, bn, data);
    GrewOthers(sb, b0, t0, b1, t1, inum, slots);
    OthersTransitive(b0, b1, b2, t0, t1, inum);
    hide FsOk; hide SameSlots; hide OthersKept;
    forall p: nat {:trigger ByteAt(b2, t1[inum], p)} |
      p / BSIZE < MAXFILE && (Addr(b0, t0[inum], DataSlot(p / BSIZE)) != 0 || off <= p < off + |piece|)
      ensures ByteAt(b2, t1[inum], p) == if off <= p < off + |piece| then piece[p - off] else ByteAt(b0, t0[inum], p)
    {
      StepByte(sb, b0, t0, b1, t1, b2, inum, slots, off, piece, p);
    }
  }

  lemma StepByte(sb: Super, b0: Disk, t0: seq<Dinode>, b1: Disk, t1: seq<Dinode>, b2: Disk, inum: nat,
      slots: set<nat>, off: nat, piece: seq<byte>, p: nat)
    requires Grew(sb, b0, t0, b1, t1, inum, slots) && off / BSIZE < MAXFILE && off % BSIZE + |piece| <= BSIZE
    requires 0 < Addr(b1, t1[inum], DataSlot(off / BSIZE)) < |b1|
    requires Poked(b1, b2, t1, inum, off / BSIZE,
                   Patched(b1[Addr(b1, t1[inum], DataSlot(off / BSIZE))], off % BSIZE, piece))
    requires p / BSIZE < MAXFILE && (Addr(b0, t0[inum], DataSlot(p / BSIZE)) != 0 || off <= p < off + |piece|)
    ensures ByteAt(b2, t1[inum], p) == if off <= p < off + |piece| then piece[p - off] else ByteAt(b0, t0[inum], p)
  {
    hide FsOk; hide Addr;
    var a := Addr(b1, t1[inum], DataSlot(off / BSIZE));
    var data := Patched(b1[a], off % BSIZE, piece);
    assert ByteAt(b2, t1[inum], p) == if p / BSIZE == off / BSIZE then data[p % BSIZE] else ByteAt(b1, t1[inum], p);
    if off <= p < off + |piece| {
      SameBlock(off, p, |piece|);
    } else {
      GrewContent(sb, b0, t0, b1, t1, inum, slots, inum, p);
      if p / BSIZE == off / BSIZE {
        assert p - off == p % BSIZE - off % BSIZE;
        assert data[p % BSIZE] == b1[a][p % BSIZE];
      }
    }
  }

  lemma SameBlock(off: nat, p: nat, m: nat)
    requires off <= p < off + m && off % BSIZE + m <= BSIZE
    ensures p / BSIZE == off / BSIZE && p % BSIZE == off % BSIZE + (p - off)
  {
  }

  lemma OthersTransitive(b0: Disk, b1: Disk, b2: Disk, t0: seq<Dinode>, t1: seq<Dinode>, inum: nat)
    requires |t1| == |t0| && (forall i | 0 <= i < |t0| && i != inum :: t1[i] == t0[i])
    requires OthersKept(b0, b1, t0, inum) && OthersKept(b1, b2, t1, inum)
    ensures OthersKept(b0, b2, t0, inum)
  {
    hide FileBytes;
    forall i | 0 <= i < |t0| && i != inum
      ensures FileBytes(b2, t0[i]) == FileBytes(b0, t0[i])
    {
      assert FileBytes(b2, t1[i]) == FileBytes(b1, t1[i]);
    }
  }

  /** The bytes written so far grow by the piece just stored. */
  lemma WrittenStep(b0: Disk, d0: Dinode, b1: Disk, d1: Dinode, b2: Disk, d2: Dinode, off0: nat, off: nat,
      piece: seq<byte>, src: seq<byte>)
    requires Written(b0, d0, b1, d1, off0, off, src) && Stepped(b1, d1, b2, d2, off, piece)
    requires Backed(b1, d1, Max(d0.size, off)) && Max(d0.size, off + |piece|) <= MAXFILE * BSIZE
    requires off + |piece| <= off0 + |src| && piece == src[off - off0..off - off0 + |piece|]
    ensures Written(b0, d0, b2, d2, off0, off + |piece|, src)
  {
    forall p: nat | p < d0.size || p < off + |piece|
      ensures ByteAt(b2, d2, p) == if off0 <= p < off + |piece| then src[p - off0] else ByteAt(b0, d0, p)
    {
      assert p / BSIZE < MAXFILE;
      if p < Max(d0.size, off) { BackedAt(b1, d1, Max(d0.size, off), p); }
      hide ByteAt; hide Addr;
      assert ByteAt(b2, d2, p) == if off <= p < off + |piece| then piece[p - off] else ByteAt(b1, d1, p);
    }
  }

  lemma BackedStep(sb: Super, b0: Disk, t0: seq<Dinode>, b1: Disk, t1: seq<Dinode>, b2: Disk, inum: nat,
      slots: set<nat>, size: nat, off: nat, m: nat)
    requires Grew(sb, b0, t0, b1, t1, inum, slots) && SameSlots(b1, t1, b2, t1) && Backed(b0, t0[inum], size)
    requires off <= size && off / BSIZE < MAXFILE && off % BSIZE + m <= BSIZE
    requires Addr(b1, t1[inum], DataSlot(off / BSIZE)) != 0
    ensures Backed(b2, t1[inum], Max(size, off + m))
  {
    hide Addr; hide FsOk;
    forall bn | 0 <= bn < MAXFILE && bn * BSIZE < Max(size, off + m)
      ensures Addr(b2, t1[inum], DataSlot(bn)) != 0
    {
      assert SlotOf(t0, inum, DataSlot(bn)) && SlotOf(t1, inum, DataSlot(bn));
      assert SlotKept(b0, t0, b1, t1, inum, slots, inum, DataSlot(bn));
      if bn * BSIZE >= size { assert bn == off / BSIZE; }
    }
  }

  /** Inodes on disk are untouched by growing a file and writing one of its blocks. */
  lemma OnDiskStep(sb: Super, b0: Disk, t0: seq<Dinode>, b1: Disk, t1: seq<Dinode>, b2: Disk, inum: nat,
      slots: set<nat>, a: nat, data: Block)
    requires FsOk(sb, b0, t0) && Grew(sb, b0, t0, b1, t1, inum, slots) && OnDisk(sb, b0, t0, inum)
    requires InData(sb, a) && b2 == b1[a := data]
    ensures Geometry(sb, b2) && OnDisk(sb, b2, t1, inum) && sb.InodeBlock(inum) < |b0|
    ensures InodeAt(sb, b2, inum) == InodeAt(sb, b0, inum)
  {
    hide Addr; hide DecodeInode; hide GetWord; hide ReservedOk; hide OwnOk; hide UniqueOk; hide SizesOk; hide SlotKept;
    LayoutFacts(sb);
    forall i: nat | i < |t1| && i != inum
      ensures InodeAt(sb, b2, i) == t1[i]
    {
      assert InodeAt(sb, b0, i) == t0[i] && t1[i] == t0[i];
    }
  }

  /** Everything one turn of writei's loop does to the disk and to the inode. */
  ghost predicate Turn(sb: Super, b0: Disk, t0: seq<Dinode>, b2: Disk, t1: seq<Dinode>, inum: nat, off: nat,
      piece: seq<byte>)
  {
    && inum < |t0| == |t1| && |b0| == |b2| && FsOk(sb, b2, t1) && OnDisk(sb, b2, t1, inum)
    && OthersKept(b0, b2, t0, inum) && Stepped(b0, t0[inum], b2, t1[inum], off, piece)
    && (forall size: nat | off <= size && Backed(b0, t0[inum], size) :: Backed(b2, t1[inum], Max(size, off + |piece|)))
    && (t0[inum].addrs[NDIRECT] != 0 ==> t1[inum].addrs[NDIRECT] == t0[inum].addrs[NDIRECT])
    && sb.InodeBlock(inum) < |b0| && InodeAt(sb, b2, inum) == InodeAt(sb, b0, inum)
  }

  lemma TurnOk(sb: Super, b0: Disk, t0: seq<Dinode>, b1: Disk, t1: seq<Dinode>, inum: nat, slots: set<nat>,
      off: nat, piece: seq<byte>)
    requires FsOk(sb, b0, t0) && Grew(sb, b0, t0, b1, t1, inum, slots) && OnDisk(sb, b0, t0, inum)
    requires off / BSIZE < MAXFILE && off % BSIZE + |piece| <= BSIZE && Addr(b1, t1[inum], DataSlot(off / BSIZE)) != 0
    ensures Addr(b1, t1[inum], DataSlot(off / BSIZE)) < |b1|
    ensures var a := Addr(b1, t1[inum], DataSlot(off / BSIZE));
      Turn(sb, b0, t0, b1[a := Patched(b1[a], off % BSIZE, piece)], t1, inum, off, piece)
  {
    StepOk(sb, b0, t0, b1, t1, inum, slots, off, piece);
    var a := Addr(b1, t1[inum], DataSlot(off / BSIZE));
    var data := Patched(b1[a], off % BSIZE, piece);
    var b2 := b1[a := data];
    SlotAfter(sb, b0, t0, b1, t1, inum, slots, DataSlot(off / BSIZE));
    OnDiskStep(sb, b0, t0, b1, t1, b2, inum, slots, a, data);
    IndirectKept(sb, b0, t0, b1, t1, inum, slots);
    hide Addr; hide FsOk; hide OthersKept; hide Stepped; hide Backed; hide OnDisk; hide SlotKept;
    forall size: nat | off <= size && Backed(b0, t0[inum], size)
      ensures Backed(b2, t1[inum], Max(size, off + |piece|))
    {
      BackedStep(sb, b0, t0, b1, t1, b2, inum, slots, size, off, |piece|);
    }
  }

  /** The state of a write that has got to byte off. */
  ghost predicate Progress(sb: Super, b0: Disk, t0: seq<Dinode>, b: Disk, t: seq<Dinode>, inum: nat, off0: nat,
      off: nat, src: seq<byte>)
  {
    && inum < |t0| == |t| && |b0| == |b| && FsOk(sb, b, t) && OnDisk(sb, b, t, inum)
    && t == t0[inum := t0[inum].(addrs := t[inum].addrs)]
    && OthersKept(b0, b, t0, inum) && Written(b0, t0[inum], b, t[inum], off0, off, src)
    && Backed(b, t[inum], Max(t0[inum].size, off)) && (off <= t0[inum].size ==> t[inum].addrs == t0[inum].addrs)
    && sb.InodeBlock(inum) < |b| && InodeAt(sb, b, inum) == t0[inum]
  }

  lemma ProgressStart(sb: Super, blocks: Disk, table: seq<Dinode>, inum: nat, off: nat, src: seq<byte>)
    requires FsOk(sb, blocks, table) && inum < |table| && OnDisk(sb, blocks, table, -1) && off <= table[inum].size
    ensures Progress(sb, blocks, table, blocks, table, inum, off, off, src)
  {
    hide Addr; hide DecodeInode; hide GetWord;
    LayoutFacts(sb);
    assert table == table[inum := table[inum].(addrs := table[inum].addrs)];
  }

  lemma ProgressStep(sb: Super, b0: Disk, t0: seq<Dinode>, b1: Disk, t1: seq<Dinode>, b2: Disk, t2: seq<Dinode>,
                     inum: nat, off0: nat, off: nat, src: seq<byte>, m: nat)
    requires Progress(sb, b0, t0, b1, t1, inum, off0, off, src) && off - off0 + m <= |src|
    requires Turn(sb, b1, t1, b2, t2, inum, off, src[off - off0..off - off0 + m])
    requires t2 == t1[inum := t1[inum].(addrs := t2[inum].addrs)]
    requires m > 0 && off / BSIZE < MAXFILE && Max(t0[inum].size, off + m) <= MAXFILE * BSIZE
    requires Addr(b1, t1[inum], DataSlot(off / BSIZE)) != 0 ==> t2[inum].addrs == t1[inum].addrs
    ensures Progress(sb, b0, t0, b2, t2, inum, off0, off + m, src)
  {
    var piece := src[off - off0..off - off0 + m];
    WrittenStep(b0, t0[inum], b1, t1[inum], b2, t2[inum], off0, off, piece, src);
    OthersTransitive(b0, b1, b2, t0, t1, inum);
    if off + m <= t0[inum].size { BackedAt(b1, t1[inum], Max(t0[inum].size, off), off); }
    hide Addr; hide Written; hide OthersKept; hide Stepped; hide FsOk; hide OnDisk; hide InodeAt;
    assert Max(Max(t0[inum].size, off), off + |piece|) == Max(t0[inum].size, off + m);
  }

  lemma ProgressSynced(sb: Super, b0: Disk, t0: seq<Dinode>, b: Disk, t: seq<Dinode>, inum: nat, off0: nat,
      off: nat, src: seq<byte>)
    requires Progress(sb, b0, t0, b, t, inum, off0, off, src) && off <= t0[inum].size
    ensures OnDisk(sb, b, t, -1)
  {
    hide Addr; hide DecodeInode; hide Written; hide OthersKept; hide Backed;
  }

  /** min(left, BSIZE - off%BSIZE): a piece ends with its block or with the transfer. */
  function Piece(off: nat, left: nat): (m: nat)
    requires left > 0
    ensures 0 < m <= left && off % BSIZE + m <= BSIZE && (m == left || (off + m) % BSIZE == 0)
  {
    if left < BSIZE - off % BSIZE then left else BSIZE - off % BSIZE
  }

  /** How many blocks the bytes off..off+n reach into. */
  function Touched(off: nat, n: nat): nat
  {
    if n == 0 then 0 else (off + n - 1) / BSIZE - off / BSIZE + 1
  }

  lemma TouchedStep(off: nat, tot: nat, m: nat)
    requires tot == 0 || (off + tot) % BSIZE == 0
    requires 0 < m <= BSIZE - (off + tot) % BSIZE
    ensures Touched(off, tot + m) == Touched(off, tot) + 1
  {
    var q := (off + tot) / BSIZE;
    assert (off + tot + m - 1) / BSIZE == q;
    if tot > 0 { assert (off + tot - 1) / BSIZE == q - 1; }
  }

  lemma TouchedMonotone(off: nat, a: nat, b: nat)
    requires a <= b
    ensures Touched(off, a) <= Touched(off, b)
  {
  }

  lemma UnionSize(a: set<nat>, b: set<nat>)
    ensures |a + b| <= |a| + |b|
  {
    assert a + b == a + (b - a);
    SubsetCount(b - a, b);
  }

  /** A set that only ever holds the one indirect block. */
  lemma OneIndirect(i: set<nat>, ind: set<nat>, was: nat)
    requires i <= {was} && (was == 0 ==> i == {}) && |ind| <= 1 && (was != 0 ==> ind <= {was})
    ensures |i + ind| <= 1
  {
    if was == 0 {
      assert i + ind == ind;
    } else {
      SubsetCount(i + ind, {was});
    }
  }

  /** The size of a file after n bytes have been written at off. */
  function NewSize(size: nat, off: nat, n: nat): nat
  {
    if n > 0 && off + n > size then off + n else size
  }

  /** A finished write: this file is spliced, no other file has changed, and the disk has all inodes. */
  ghost predicate Wrote(sb: Super, b0: Disk, t0: seq<Dinode>, b: Disk, t: seq<Dinode>, inum: nat, off: nat,
      src: seq<byte>)
  {
    && inum < |t0| == |t| && FsOk(sb, b, t) && OnDisk(sb, b, t, -1) && off <= t0[inum].size
    && NewSize(t0[inum].size, off, |src|) < UINT
    && t == t0[inum := t0[inum].(addrs := t[inum].addrs, size := NewSize(t0[inum].size, off, |src|))]
    && OthersKept(b0, b, t0, inum)
    && FileBytes(b, t[inum]) == Spliced(FileBytes(b0, t0[inum]), off, src)
  }

  /** Raising an inode's size over blocks that are there. */
  lemma ResizeOk(sb: Super, blocks: Disk, table: seq<Dinode>, inum: nat, size: nat)
    requires FsOk(sb, blocks, table) && inum < |table| && size <= MAXFILE * BSIZE && Backed(blocks, table[inum], size)
    ensures FsOk(sb, blocks, table[inum := table[inum].(size := size)])
  {
    hide GetWord; hide Used;
    var t := table[inum := table[inum].(size := size)];
    forall i, k | SlotOf(t, i, k)
      ensures Addr(blocks, t[i], k) == Addr(blocks, table[i], k) && SlotOf(table, i, k)
    {
    }
    assert SizesOk(blocks, t) by {
      forall i | 0 <= i < |t|
        ensures t[i].size <= MAXFILE * BSIZE && Backed(blocks, t[i], t[i].size)
      {
        if i == inum {
          forall bn | 0 <= bn < MAXFILE && bn * BSIZE < size ensures Addr(blocks, t[i], DataSlot(bn)) != 0 {
            assert Addr(blocks, table[i], DataSlot(bn)) != 0;
          }
        }
      }
    }
  }

  lemma BytesNoSize(blocks: Disk, d: Dinode, size: nat, p: nat)
    requires size < UINT
    ensures ByteAt(blocks, d.(size := size), p) == ByteAt(blocks, d, p)
  {
  }

  /** A write that stayed within the file needs no iupdate. */
  lemma WroteInside(sb: Super, b0: Disk, t0: seq<Dinode>, b: Disk, t: seq<Dinode>, inum: nat, off: nat, src: seq<byte>)
    requires Progress(sb, b0, t0, b, t, inum, off, off + |src|, src) && off <= t0[inum].size
    requires NewSize(t0[inum].size, off, |src|) == t0[inum].size
    ensures Wrote(sb, b0, t0, b, t, inum, off, src)
  {
    ProgressSynced(sb, b0, t0, b, t, inum, off, off + |src|, src);
    WrittenSplice(b0, t0[inum], b, t[inum], off, src);
    assert t0[inum].(addrs := t[inum].addrs) == t0[inum].(addrs := t[inum].addrs, size := t0[inum].size);
  }

  /** A write that extended the file: the size is raised, then the inode is stored. */
  lemma WroteBeyond(sb: Super, b0: Disk, t0: seq<Dinode>, b1: Disk, t1: seq<Dinode>, inum: nat, off: nat,
      src: seq<byte>)
    requires Progress(sb, b0, t0, b1, t1, inum, off, off + |src|, src)
    requires off <= t0[inum].size < off + |src| <= MAXFILE * BSIZE
    ensures FsOk(sb, b1, t1[inum := t1[inum].(size := off + |src|)])
    ensures OnDisk(sb, b1, t1[inum := t1[inum].(size := off + |src|)], inum)
    ensures FileBytes(b1, t1[inum].(size := off + |src|)) == Spliced(FileBytes(b0, t0[inum]), off, src)
  {
    hide FsOk; hide OthersKept; hide Addr; hide DecodeInode; hide Written; hide ByteAt; hide Backed;
    hide OnDisk; hide FileBytes;
    ResizeOk(sb, b1, t1, inum, off + |src|);
    ResizeOnDisk(sb, b1, t1, inum, off + |src|);
    ResizeWritten(b0, t0[inum], b1, t1[inum], off, off + |src|, src);
    WrittenSplice(b0, t0[inum], b1, t1[inum].(size := off + |src|), off, src);
  }

  lemma ResizeOnDisk(sb: Super, blocks: Disk, table: seq<Dinode>, inum: nat, size: word)
    requires FsOk(sb, blocks, table) && inum < |table| && OnDisk(sb, blocks, table, inum)
    ensures OnDisk(sb, blocks, table[inum := table[inum].(size := size)], inum)
  {
  }

  lemma ResizeWritten(b0: Disk, d0: Dinode, b: Disk, d: Dinode, off: nat, size: word, src: seq<byte>)
    requires Written(b0, d0, b, d, off, off + |src|, src)
    ensures Written(b0, d0, b, d.(size := size), off, off + |src|, src)
  {
    hide ByteAt;
    forall p: nat | p < d0.size || p < off + |src|
      ensures ByteAt(b, d.(size := size), p) == if off <= p < off + |src| then src[p - off] else ByteAt(b0, d0, p)
    {
      BytesNoSize(b, d, size, p);
    }
  }

  lemma WroteStored(sb: Super, b0: Disk, t0: seq<Dinode>, b1: Disk, t1: seq<Dinode>, b2: Disk, t2: seq<Dinode>,
      inum: nat, off: nat, src: seq<byte>)
    requires Progress(sb, b0, t0, b1, t1, inum, off, off + |src|, src) && off <= t0[inum].size < off + |src| < UINT
    requires t2 == t1[inum := t1[inum].(size := off + |src|)] && FsOk(sb, b2, t2) && OnDisk(sb, b2, t2, -1)
    requires FileBytes(b1, t2[inum]) == Spliced(FileBytes(b0, t0[inum]), off, src)
    requires forall i: nat | i < |t2| :: FileBytes(b2, t2[i]) == FileBytes(b1, t2[i])
    ensures Wrote(sb, b0, t0, b2, t2, inum, off, src)
  {
    hide FsOk; hide OnDisk; hide FileBytes; hide Written; hide Backed; hide Spliced;
    forall i | 0 <= i < |t0| && i != inum
      ensures FileBytes(b2, t0[i]) == FileBytes(b0, t0[i])
    {
      assert t2[i] == t0[i];
    }
  }
}
