/** The disk mkfs makes, before any file is put on it: the file-system invariant holds of it. */
module Mkfs {
  import opened Common
  import opened Blocks
  import opened DiskLayout
  import opened Ownership
  import opened BlockMap
  import opened FileContent

  /** The bitmap block with the first n bits set. */
  ghost function FirstBits(n: nat): Block
    requires n <= BPB
  {
    if n == 0 then ZeroBlock() else FlipBit(FirstBits(n - 1), n - 1)
  }

  lemma ZeroBit(k: nat)
    requires k < BPB
    ensures !GetBit(ZeroBlock(), k)
  {
    ZeroBits(k % 8);
  }

  lemma {:induction false} ZeroBits(k: nat)
    ensures !BitOf(0, k)
  {
    if k > 0 {
      ZeroBits(k - 1);
    }
  }

  lemma {:induction false} FirstBitsAt(n: nat, k: nat)
    requires n <= BPB && k < BPB
    ensures GetBit(FirstBits(n), k) <==> k < n
  {
    hide GetBit; hide FlipBit;
    if n == 0 {
      ZeroBit(k);
    } else {
      FirstBitsAt(n - 1, k);
      FirstBitsAt(n - 1, n - 1);
      FlipBitOk(FirstBits(n - 1), n - 1, k);
    }
  }

  /** mkfs's balloc: the loop sets the first used bits and no other. */
  method Balloc(used: nat) returns (buf: Block)
    requires used < BPB
    ensures buf == FirstBits(used)
    ensures forall k: nat | k < BPB :: GetBit(buf, k) <==> k < used
  {
    buf := ZeroBlock();
    var i := 0;
    while i < used
      invariant i <= used && buf == FirstBits(i)
    {
      buf := FlipBit(buf, i);
      i := i + 1;
    }
    forall k: nat | k < BPB { FirstBitsAt(used, k); }
  }

  /** Numbers in the byte order of the disk. */
  function Xshort(x: half): seq<byte> { [x % 0x100, x / 0x100] }

  function Xint(x: word): seq<byte> {
    [x % 0x100, x / 0x100 % 0x100, x / 0x1_0000 % 0x100, x / 0x100_0000]
  }

  function Zeroes(n: nat): seq<byte> { seq(n, _ => 0) }

  lemma XintAt(b: Block, at: nat, x: word)
    requires at + 4 <= BSIZE && b[at..at + 4] == Xint(x)
    ensures LongAt(b, at) == x
  {
    WordBytes(x);
    assert b[at] == b[at..at + 4][0] && b[at + 1] == b[at..at + 4][1];
    assert b[at + 2] == b[at..at + 4][2] && b[at + 3] == b[at..at + 4][3];
  }

  /** The superblock as mkfs lays it out. */
  function SuperBlock(sb: Super): (b: Block)
    requires sb.Ok() && sb.ninodes < UINT
    ensures GetWord(b, 0) == sb.size && GetWord(b, 2) == sb.ninodes && GetWord(b, 3) == sb.nlog
  {
    var b: Block := Xint(sb.size) + Xint(sb.LogStart() - sb.MetaEnd()) + Xint(sb.ninodes) + Xint(sb.nlog) + Zeroes(496);
    XintAt(b, 0, sb.size);
    XintAt(b, 8, sb.ninodes);
    XintAt(b, 12, sb.nlog);
    b
  }

  /** Zeroes everywhere but in the superblock and in the first bitmap block. */
  ghost function Image(sb: Super, used: nat): (d: Disk)
    requires sb.Ok() && used < BPB && sb.ninodes < UINT
    ensures |d| == sb.LogStart()
  {
    seq(sb.LogStart(), _ => ZeroBlock())[1 := SuperBlock(sb)][sb.ninodes / IPB + 3 := FirstBits(used)]
  }

  function NoInode(): Dinode { Dinode(0, 0, 0, 0, 0, seq(13, _ => 0)) }

  lemma ImageUsed(sb: Super, used: nat, b: nat)
    requires sb.Ok() && used < BPB && sb.ninodes < UINT && b < sb.size
    ensures Used(sb, Image(sb, used), b) <==> b < used
  {
    LayoutFacts(sb);
    if b < BPB {
      FirstBitsAt(used, b);
    } else {
      ZeroBit(b % BPB);
    }
  }

  lemma ImageInode(sb: Super, used: nat, i: nat)
    requires sb.Ok() && used < BPB && sb.ninodes < UINT && i < sb.ninodes
    ensures sb.InodeBlock(i) < sb.LogStart() && InodeAt(sb, Image(sb, used), i) == NoInode()
  {
    LayoutFacts(sb);
    assert Image(sb, used)[sb.InodeBlock(i)] == ZeroBlock();
    var d := DecodeInode(ZeroBlock(), i % IPB);
    forall j: nat | j < WORDS ensures GetWord(ZeroBlock(), j) == 0 {
      ZeroWord(j);
    }
    hide GetWord;
    assert d.addrs == NoInode().addrs;
  }

  /**
   * The invariant that every file-system operation keeps holds of a new disk, for any geometry.
   * A block is marked exactly if it is among the first used; so those of the log are not.
   */
  lemma NewDisk(sb: Super, used: nat)
    requires sb.Ok() && sb.ninodes < UINT && sb.MetaEnd() <= used < BPB && used <= sb.LogStart()
    ensures
      var d, table := Image(sb, used), seq(sb.ninodes, _ => NoInode());
      && FsOk(sb, d, table) && OnDisk(sb, d, table, -1)
      && forall b: nat | b < sb.size :: Used(sb, d, b) <==> b < used
  {
    var d, table := Image(sb, used), seq(sb.ninodes, _ => NoInode());
    forall b: nat | b < sb.size { ImageUsed(sb, used, b); }
    forall i: nat | i < sb.ninodes { ImageInode(sb, used, i); }
    hide GetBit; hide FirstBits; hide DecodeInode; hide Used;
    assert Geometry(sb, d) by { LayoutFacts(sb); }
  }

  /** A disk whose data blocks are all in use: the next block that balloc finds lies in the log. */
  lemma FullDisk(sb: Super)
    requires sb.Ok() && sb.ninodes < UINT && sb.LogStart() < BPB
    ensures
      var d, table := Image(sb, sb.LogStart()), seq(sb.ninodes, _ => NoInode());
      FsOk(sb, d, table) && AllUsed(sb, d, sb.LogStart()) && !AllUsed(sb, d, sb.size)
  {
    LayoutFacts(sb);
    NewDisk(sb, sb.LogStart());
    hide Used; hide Image;
    assert !Used(sb, Image(sb, sb.LogStart()), sb.LogStart());
  }

  /** A new inode as the kernel reads it, and as mkfs lays it out. */
  function NewInode(kind: half): Dinode { Dinode(kind, 0, 0, 1, 0, seq(13, _ => 0)) }

  function NewBytes(kind: half): (r: seq<byte>)
    ensures |r| == 64
  {
    Xshort(kind) + Zeroes(4) + Xshort(1) + Xint(0) + Zeroes(52)
  }

  /** A block with the 64 bytes of one of its slots replaced. */
  function PutSlot(b: Block, slot: nat, din: seq<byte>): Block
    requires slot < IPB && |din| == 64
  {
    b[..64 * slot] + din + b[64 * slot + 64..]
  }

  /** The words of a slot, as the kernel would store them. */
  function NewWord(kind: half, j: nat): word { if j == 0 then kind else if j == 1 then 0x1_0000 else 0 }

  lemma PutWords(b: Block, slot: nat, kind: half, j: nat)
    requires slot < IPB && j < WORDS
    ensures
      GetWord(PutSlot(b, slot, NewBytes(kind)), j) ==
      if 16 * slot <= j < 16 * slot + 16 then NewWord(kind, j - 16 * slot) else GetWord(b, j)
  {
    var c, din, at := PutSlot(b, slot, NewBytes(kind)), NewBytes(kind), 4 * j - 64 * slot;
    if 16 * slot <= j < 16 * slot + 16 {
      assert c[4 * j] == din[at] && c[4 * j + 1] == din[at + 1];
      assert c[4 * j + 2] == din[at + 2] && c[4 * j + 3] == din[at + 3];
    }
  }

  lemma EncodedWords(b: Block, slot: nat, kind: half, j: nat)
    requires slot < IPB && j < WORDS
    ensures
      GetWord(EncodeInode(b, slot, NewInode(kind)), j) ==
      if 16 * slot <= j < 16 * slot + 16 then NewWord(kind, j - 16 * slot) else GetWord(b, j)
  {
    hide GetWord; hide SetWord; hide SetAddrs;
  }

  /** mkfs's bytes are what the kernel would store. */
  lemma NewSlot(b: Block, slot: nat, kind: half)
    requires slot < IPB
    ensures PutSlot(b, slot, NewBytes(kind)) == EncodeInode(b, slot, NewInode(kind))
  {
    hide GetWord; hide EncodeInode; hide PutSlot; hide NewBytes;
    var c, e := PutSlot(b, slot, NewBytes(kind)), EncodeInode(b, slot, NewInode(kind));
    forall j: nat | j < WORDS ensures GetWord(c, j) == GetWord(e, j) {
      PutWords(b, slot, kind, j);
      EncodedWords(b, slot, kind, j);
    }
    SameWords(c, e);
  }

  /** A free inode taken into use keeps the invariant. */
  lemma TakenOk(sb: Super, d: Disk, table: seq<Dinode>, inum: nat, kind: half)
    requires FsOk(sb, d, table) && inum < |table| && table[inum] == NoInode()
    ensures FsOk(sb, d, table[inum := NewInode(kind)])
  {
    var table' := table[inum := NewInode(kind)];
    assert table'[inum].addrs == NoInode().addrs;
    forall i, k | SlotOf(table', i, k) ensures SlotOf(table, i, k) && Addr(d, table'[i], k) == Addr(d, table[i], k) {
    }
  }

  /**
   * mkfs's ialloc of inode inum: the kernel reads there an empty file of that type with one link,
   * and finds every other inode, every mark and the invariant as they were.
   */
  method Ialloc(ghost sb: Super, d: Disk, ghost table: seq<Dinode>, inum: nat, kind: half) returns (d': Disk)
    requires FsOk(sb, d, table) && OnDisk(sb, d, table, -1) && inum < |table| && table[inum] == NoInode()
    ensures
      var table' := table[inum := NewInode(kind)];
      && FsOk(sb, d', table') && OnDisk(sb, d', table', -1)
      && forall c: nat | c < sb.size :: Used(sb, d', c) <==> Used(sb, d, c)
  {
    hide GetWord; hide EncodeInode; hide PutSlot; hide NewBytes; hide DecodeInode; hide Used;
    hide ReservedOk; hide OwnOk; hide UniqueOk; hide SizesOk;
    LayoutFacts(sb);
    var bn := inum / IPB + 2;
    d' := d[bn := PutSlot(d[bn], inum % IPB, NewBytes(kind))];
    NewSlot(d[bn], inum % IPB, kind);
    TakenOk(sb, d, table, inum, kind);
    UpdateOk(sb, d, table[inum := NewInode(kind)], inum);
  }
}
