/**
 * The on-disk format of fs.h: where inodes, bitmap bits and data blocks live, and which blocks an inode uses.
 */
module DiskLayout {
  import opened Common
  import opened Blocks

  const NDIRECT: nat := 12
  const NINDIRECT: nat := 128
  const MAXFILE: nat := 140
  const IPB: nat := 8
  const SLOTS: nat := 141   // NDIRECT direct blocks, the indirect block, NINDIRECT blocks it lists

  type Addrs = a: seq<word> | |a| == 13 witness seq(13, i => 0)

  datatype Super = Super(size: nat, ninodes: nat, nlog: nat)
  {
    function InodeBlock(i: nat): nat { i / IPB + 2 }
    function BitBlock(b: nat): nat { b / BPB + ninodes / IPB + 3 }
    function MetaEnd(): nat { ninodes / IPB + 3 + size / BPB + 1 }
    function LogStart(): nat requires nlog <= size { size - nlog }

    ghost predicate Ok()
    {
      0 < nlog < size < UINT && 0 < ninodes && MetaEnd() <= LogStart()
    }
  }

  /** struct dinode. */
  datatype Dinode = Dinode(kind: half, major: half, minor: half, nlink: half, size: word, addrs: Addrs)

  function GetAddrs(b: Block, base: nat): (r: Addrs)
    requires base + 13 <= WORDS
    ensures forall k | 0 <= k < 13 :: r[k] == GetWord(b, base + k)
  {
    [GetWord(b, base), GetWord(b, base + 1), GetWord(b, base + 2), GetWord(b, base + 3),
     GetWord(b, base + 4), GetWord(b, base + 5), GetWord(b, base + 6), GetWord(b, base + 7), GetWord(b, base + 8),
     GetWord(b, base + 9), GetWord(b, base + 10), GetWord(b, base + 11), GetWord(b, base + 12)]
  }

  function SetAddrs(b: Block, base: nat, a: Addrs, n: nat): (r: Block)
    requires base + 13 <= WORDS && n <= 13
    ensures forall j: nat | j < WORDS :: GetWord(r, j) == if base <= j < base + n then a[j - base] else GetWord(b, j)
  {
    if n == 0 then b else SetWord(SetAddrs(b, base, a, n - 1), base + n - 1, a[n - 1])
  }

  function DecodeInode(b: Block, slot: nat): Dinode
    requires slot < IPB
  {
    var w0, w1 := GetWord(b, 16 * slot), GetWord(b, 16 * slot + 1);
    Dinode(w0 % 0x1_0000, w0 / 0x1_0000, w1 % 0x1_0000, w1 / 0x1_0000,
           GetWord(b, 16 * slot + 2), GetAddrs(b, 16 * slot + 3))
  }

  /** What iupdate stores in the inode's slot of its block. */
  function EncodeInode(b: Block, slot: nat, d: Dinode): (r: Block)
    requires slot < IPB
  {
    var b1 := SetWord(b, 16 * slot, d.kind as int + 0x1_0000 * d.major as int);
    var b2 := SetWord(b1, 16 * slot + 1, d.minor as int + 0x1_0000 * d.nlink as int);
    SetAddrs(SetWord(b2, 16 * slot + 2, d.size), 16 * slot + 3, d.addrs, 13)
  }

  /** An inode read back after iupdate is the one that was stored, and the block's other inodes are as before. */
  lemma EncodeDecode(b: Block, slot: nat, d: Dinode, other: nat)
    requires slot < IPB && other < IPB
    ensures DecodeInode(EncodeInode(b, slot, d), other) == if other == slot then d else DecodeInode(b, other)
  {
    hide GetWord; hide SetWord; hide GetAddrs; hide SetAddrs;
    var r := EncodeInode(b, slot, d);
    if other == slot {
      assert DecodeInode(r, slot).addrs == d.addrs;
    } else {
      assert DecodeInode(r, other).addrs == DecodeInode(b, other).addrs;
    }
  }

  /** Where each field of the inode in a slot lies in its block. */
  lemma InodeBytes(b: Block, slot: nat)
    requires slot < IPB
    ensures
      var d, at := DecodeInode(b, slot), 64 * slot;
      && d.kind == ShortAt(b, at) && d.major == ShortAt(b, at + 2)
      && d.minor == ShortAt(b, at + 4) && d.nlink == ShortAt(b, at + 6)
      && d.size == LongAt(b, at + 8) && forall k :: 0 <= k < 13 ==> d.addrs[k] == LongAt(b, at + 12 + 4 * k)
  {
    WordHalves(b, 16 * slot);
    WordHalves(b, 16 * slot + 1);
  }

  lemma WordHalves(b: Block, i: nat)
    requires i < WORDS
    ensures GetWord(b, i) % 0x1_0000 == ShortAt(b, 4 * i) && GetWord(b, i) / 0x1_0000 == ShortAt(b, 4 * i + 2)
  {
    var lo: int, hi: int := ShortAt(b, 4 * i), ShortAt(b, 4 * i + 2);
    assert GetWord(b, i) == lo + 0x1_0000 * hi;
  }

  lemma SameBytes(b: Block, c: Block, i: nat)
    requires i < WORDS && GetWord(b, i) == GetWord(c, i)
    ensures b[4 * i] == c[4 * i] && b[4 * i + 1] == c[4 * i + 1]
    ensures b[4 * i + 2] == c[4 * i + 2] && b[4 * i + 3] == c[4 * i + 3]
  {
    WordHalves(b, i);
    WordHalves(c, i);
    hide GetWord;
  }

  /** Blocks are the same whose words are. */
  lemma SameWords(b: Block, c: Block)
    requires forall j: nat | j < WORDS :: GetWord(b, j) == GetWord(c, j)
    ensures b == c
  {
    forall k: nat | k < BSIZE ensures b[k] == c[k] {
      SameBytes(b, c, k / 4);
    }
  }

  ghost function InodeAt(sb: Super, blocks: Disk, i: nat): Dinode
    requires sb.InodeBlock(i) < |blocks|
  {
    DecodeInode(blocks[sb.InodeBlock(i)], i % IPB)
  }

  /** Is block b marked in use? */
  ghost predicate Used(sb: Super, blocks: Disk, b: nat)
  {
    sb.BitBlock(b) < |blocks| && GetBit(blocks[sb.BitBlock(b)], b % BPB)
  }

  /**
   * The block in slot k of an inode: a direct block, the indirect block, or one the indirect block
   * lists; 0 if none.
   */
  ghost function Addr(blocks: Disk, d: Dinode, k: nat): nat
    requires k < SLOTS
  {
    if k <= NDIRECT then d.addrs[k]
    else if d.addrs[NDIRECT] == 0 || d.addrs[NDIRECT] >= |blocks| then 0
    else GetWord(blocks[d.addrs[NDIRECT]], k - NDIRECT - 1)
  }

  /** Where an indirect block lists its blocks. */
  lemma IndirectBytes(blocks: Disk, d: Dinode, k: nat)
    requires NDIRECT < k < SLOTS && 0 < d.addrs[NDIRECT] < |blocks|
    ensures Addr(blocks, d, k) == LongAt(blocks[d.addrs[NDIRECT]], 4 * (k - NDIRECT - 1))
  {
  }

  function DataSlot(bn: nat): (k: nat)
    requires bn < MAXFILE
  {
    if bn < NDIRECT then bn else bn + 1
  }
}
