/**
 * Which block belongs to whom.  The table holds every inode, with the locked inode's in-memory copy
 * in place of the disk's.
 */
module Ownership {
  import opened Common
  import opened Blocks
  import opened DiskLayout

  /** The region balloc may hand out: behind the bitmap and before the log. */
  ghost predicate InData(sb: Super, b: nat)
    requires sb.nlog <= sb.size
  {
    sb.MetaEnd() <= b < sb.LogStart()
  }

  ghost predicate SlotOf(table: seq<Dinode>, i: int, k: int)
  {
    0 <= i < |table| && 0 <= k < SLOTS
  }

  ghost predicate Geometry(sb: Super, blocks: Disk)
  {
    && sb.Ok() && |blocks| == sb.LogStart()
    && GetWord(blocks[1], 0) == sb.size && GetWord(blocks[1], 2) == sb.ninodes && GetWord(blocks[1], 3) == sb.nlog
  }

  /** Every block before the data region is marked in use.  The log's need not be: mkfs leaves them clear. */
  ghost predicate ReservedOk(sb: Super, blocks: Disk)
    requires sb.nlog <= sb.size
  {
    forall b | 0 <= b < sb.MetaEnd() && b < sb.size :: Used(sb, blocks, b)
  }

  /** A block in some slot is a data block marked in use. */
  ghost predicate OwnOk(sb: Super, blocks: Disk, table: seq<Dinode>)
    requires sb.nlog <= sb.size
  {
    forall i, k | SlotOf(table, i, k) && Addr(blocks, table[i], k) != 0 ::
      InData(sb, Addr(blocks, table[i], k)) && Used(sb, blocks, Addr(blocks, table[i], k))
  }

  /** No block is in two slots. */
  ghost predicate UniqueOk(blocks: Disk, table: seq<Dinode>)
  {
    forall i, k, j, l | SlotOf(table, i, k) && SlotOf(table, j, l) && Addr(blocks, table[i], k) != 0
                        && Addr(blocks, table[i], k) == Addr(blocks, table[j], l) :: i == j && k == l
  }

  /** Every block below a file's size is there. */
  ghost predicate SizesOk(blocks: Disk, table: seq<Dinode>)
  {
    forall i | 0 <= i < |table| :: table[i].size <= MAXFILE * BSIZE && Backed(blocks, table[i], table[i].size)
  }

  ghost predicate Backed(blocks: Disk, d: Dinode, size: nat)
  {
    forall bn | 0 <= bn < MAXFILE && bn * BSIZE < size :: Addr(blocks, d, DataSlot(bn)) != 0
  }

  ghost predicate FsOk(sb: Super, blocks: Disk, table: seq<Dinode>)
  {
    && Geometry(sb, blocks) && |table| == sb.ninodes
    && ReservedOk(sb, blocks) && OwnOk(sb, blocks, table) && UniqueOk(blocks, table) && SizesOk(blocks, table)
  }

  /** The inodes on disk are those of the table, except perhaps the locked one. */
  ghost predicate OnDisk(sb: Super, blocks: Disk, table: seq<Dinode>, locked: int)
    requires Geometry(sb, blocks) && |table| == sb.ninodes
  {
    forall i: nat | i < |table| && i != locked :: InodeAt(sb, blocks, i) == table[i]
  }

  lemma LayoutFacts(sb: Super)
    requires sb.Ok()
    ensures forall b: nat | b < sb.size :: sb.ninodes / IPB + 3 <= sb.BitBlock(b) < sb.MetaEnd()
    ensures forall i: nat | i < sb.ninodes :: 2 <= sb.InodeBlock(i) < sb.ninodes / IPB + 3
  {
  }

  /** Flipping the bit of block b changes no other block's mark. */
  lemma FlipUsed(sb: Super, blocks: Disk, b: nat)
    requires Geometry(sb, blocks) && b < sb.size
    ensures sb.BitBlock(b) < sb.MetaEnd() <= |blocks|
    ensures forall c: nat | c < sb.size ::
      Used(sb, blocks[sb.BitBlock(b) := FlipBit(blocks[sb.BitBlock(b)], b % BPB)], c)
      <==> if c == b then !Used(sb, blocks, b) else Used(sb, blocks, c)
  {
    LayoutFacts(sb);
    hide GetBit; hide FlipBit; hide GetWord;
    forall c: nat | c < BPB { FlipBitOk(blocks[sb.BitBlock(b)], b % BPB, c); }
    forall c: nat | c < sb.size && c != b && sb.BitBlock(c) == sb.BitBlock(b)
      ensures c % BPB != b % BPB
    {
      assert c / BPB == b / BPB;
      assert c == BPB * (c / BPB) + c % BPB;
    }
  }

  /** Changing blocks that are nobody's indirect block leaves every slot as it was. */
  lemma SameAddr(sb: Super, blocks: Disk, blocks': Disk, table: seq<Dinode>)
    requires FsOk(sb, blocks, table) && |blocks'| == |blocks|
    requires forall i | 0 <= i < |table| && table[i].addrs[NDIRECT] != 0 && table[i].addrs[NDIRECT] < |blocks| ::
      blocks'[table[i].addrs[NDIRECT]] == blocks[table[i].addrs[NDIRECT]]
    ensures forall i, k | SlotOf(table, i, k) :: Addr(blocks', table[i], k) == Addr(blocks, table[i], k)
  {
    hide GetWord;
  }

  ghost predicate SameSlots(blocks: Disk, table: seq<Dinode>, blocks': Disk, table': seq<Dinode>)
  {
    && |table| == |table'|
    && forall i, k | SlotOf(table, i, k) :: Addr(blocks', table'[i], k) == Addr(blocks, table[i], k)
  }

  ghost predicate Unowned(blocks: Disk, table: seq<Dinode>, b: nat)
  {
    forall i, k | SlotOf(table, i, k) :: Addr(blocks, table[i], k) != b
  }

  /** A block that holds neither the superblock, nor bitmap bits, nor anyone's list of indirect blocks. */
  ghost predicate Inert(sb: Super, table: seq<Dinode>, x: nat)
    requires sb.nlog <= sb.size
  {
    && 1 < x < sb.LogStart() && (x < sb.ninodes / IPB + 3 || sb.MetaEnd() <= x)
    && forall i | 0 <= i < |table| :: table[i].addrs[NDIRECT] != x
  }

  lemma InertOk(sb: Super, blocks: Disk, table: seq<Dinode>, x: nat, data: Block)
    requires FsOk(sb, blocks, table) && Inert(sb, table, x)
    ensures FsOk(sb, blocks[x := data], table) && SameSlots(blocks, table, blocks[x := data], table)
    ensures forall b: nat | b < sb.size :: Used(sb, blocks[x := data], b) <==> Used(sb, blocks, b)
  {
    hide GetWord; hide GetBit;
    var blocks' := blocks[x := data];
    LayoutFacts(sb);
    SameAddr(sb, blocks, blocks', table);
    assert forall b: nat | b < sb.size :: Used(sb, blocks', b) <==> Used(sb, blocks, b);
    SlotsOk(sb, blocks, table, blocks', table);
  }

  /** Ownership depends only on the slots, the marks and the sizes. */
  lemma SlotsOk(sb: Super, blocks: Disk, table: seq<Dinode>, blocks': Disk, table': seq<Dinode>)
    requires FsOk(sb, blocks, table) && Geometry(sb, blocks') && SameSlots(blocks, table, blocks', table')
    requires forall i | 0 <= i < |table| :: table'[i].size == table[i].size
    requires forall b: nat | b < sb.size && Used(sb, blocks, b) ::
      Used(sb, blocks', b) || (InData(sb, b) && Unowned(blocks, table, b))
    ensures FsOk(sb, blocks', table')
  {
    hide GetWord; hide Used;
    assert OwnOk(sb, blocks', table') by {
      forall i, k | SlotOf(table', i, k) && Addr(blocks', table'[i], k) != 0
        ensures InData(sb, Addr(blocks', table'[i], k)) && Used(sb, blocks', Addr(blocks', table'[i], k))
      {
        assert SlotOf(table, i, k);
        assert Addr(blocks', table'[i], k) == Addr(blocks, table[i], k);
      }
    }
    hide OwnOk;
    assert UniqueOk(blocks', table') by {
      forall i, k, j, l | SlotOf(table', i, k) && SlotOf(table', j, l) && Addr(blocks', table'[i], k) != 0
                          && Addr(blocks', table'[i], k) == Addr(blocks', table'[j], l)
        ensures i == j && k == l
      {
        assert SlotOf(table, i, k) && SlotOf(table, j, l);
      }
    }
    hide UniqueOk;
    assert SizesOk(blocks', table') by {
      forall i | 0 <= i < |table'|
        ensures Backed(blocks', table'[i], table'[i].size)
      {
        forall bn | 0 <= bn < MAXFILE && bn * BSIZE < table'[i].size
          ensures Addr(blocks', table'[i], DataSlot(bn)) != 0
        {
          assert SlotOf(table, i, DataSlot(bn));
        }
      }
    }
  }

  /**
   * balloc's choice: a clear bit before the log means a data block that nobody owns, and setting it
   * keeps everything in order.
   */
  lemma MarkOk(sb: Super, blocks: Disk, table: seq<Dinode>, b: nat)
    requires FsOk(sb, blocks, table) && b < sb.LogStart() && !Used(sb, blocks, b)
    ensures InData(sb, b) && Unowned(blocks, table, b) && sb.BitBlock(b) < |blocks|
    ensures var blocks' := blocks[sb.BitBlock(b) := FlipBit(blocks[sb.BitBlock(b)], b % BPB)];
      && FsOk(sb, blocks', table) && SameSlots(blocks, table, blocks', table) && Used(sb, blocks', b)
  {
    hide GetWord; hide GetBit; hide FlipBit;
    var blocks' := blocks[sb.BitBlock(b) := FlipBit(blocks[sb.BitBlock(b)], b % BPB)];
    LayoutFacts(sb);
    FlipUsed(sb, blocks, b);
    hide Used;
    assert forall i, k | SlotOf(table, i, k) && Addr(blocks, table[i], k) != 0 :: InData(sb, Addr(blocks, table[i], k));
    assert forall i | 0 <= i < |table| ::
      SlotOf(table, i, NDIRECT) && Addr(blocks, table[i], NDIRECT) == table[i].addrs[NDIRECT];
    SameAddr(sb, blocks, blocks', table);
    SlotsOk(sb, blocks, table, blocks', table);
  }

  /** bfree of a block in nobody's slot. */
  lemma UnmarkOk(sb: Super, blocks: Disk, table: seq<Dinode>, b: nat)
    requires FsOk(sb, blocks, table) && InData(sb, b) && Used(sb, blocks, b) && Unowned(blocks, table, b)
    ensures sb.BitBlock(b) < |blocks|
    ensures var blocks' := blocks[sb.BitBlock(b) := FlipBit(blocks[sb.BitBlock(b)], b % BPB)];
      && FsOk(sb, blocks', table) && SameSlots(blocks, table, blocks', table) && !Used(sb, blocks', b)
      && forall c: nat | c < sb.size && c != b :: Used(sb, blocks', c) <==> Used(sb, blocks, c)
  {
    hide GetWord; hide GetBit; hide FlipBit;
    var blocks' := blocks[sb.BitBlock(b) := FlipBit(blocks[sb.BitBlock(b)], b % BPB)];
    LayoutFacts(sb);
    FlipUsed(sb, blocks, b);
    hide Used;
    assert forall i | 0 <= i < |table| ::
      SlotOf(table, i, NDIRECT) && Addr(blocks, table[i], NDIRECT) == table[i].addrs[NDIRECT];
    SameAddr(sb, blocks, blocks', table);
    SlotsOk(sb, blocks, table, blocks', table);
  }

  /** An empty slot receives a block that nobody owns. */
  lemma AttachOk(sb: Super, blocks: Disk, table: seq<Dinode>, blocks': Disk, table': seq<Dinode>, inum: nat,
      kk: nat, b: nat)
    requires FsOk(sb, blocks, table) && Geometry(sb, blocks') && |table'| == |table|
    requires SlotOf(table, inum, kk) && Addr(blocks, table[inum], kk) == 0 && b != 0 && InData(sb, b)
    requires Unowned(blocks, table, b)
    requires forall i, k | SlotOf(table, i, k) ::
      Addr(blocks', table'[i], k) == if i == inum && k == kk then b else Addr(blocks, table[i], k)
    requires forall i | 0 <= i < |table| :: table'[i].size == table[i].size
    requires Used(sb, blocks, b) && forall c: nat | c < sb.size :: Used(sb, blocks', c) <==> Used(sb, blocks, c)
    ensures FsOk(sb, blocks', table')
  {
    hide GetWord; hide Used;
    assert OwnOk(sb, blocks', table') by {
      forall i, k | SlotOf(table', i, k) && Addr(blocks', table'[i], k) != 0
        ensures InData(sb, Addr(blocks', table'[i], k)) && Used(sb, blocks', Addr(blocks', table'[i], k))
      {
        assert SlotOf(table, i, k);
      }
    }
    hide OwnOk;
    assert UniqueOk(blocks', table') by {
      forall i, k, j, l | SlotOf(table', i, k) && SlotOf(table', j, l) && Addr(blocks', table'[i], k) != 0
                          && Addr(blocks', table'[i], k) == Addr(blocks', table'[j], l)
        ensures i == j && k == l
      {
        assert SlotOf(table, i, k) && SlotOf(table, j, l);
      }
    }
    hide UniqueOk;
    assert SizesOk(blocks', table') by {
      forall i | 0 <= i < |table'|
        ensures Backed(blocks', table'[i], table'[i].size)
      {
        forall bn | 0 <= bn < MAXFILE && bn * BSIZE < table'[i].size
          ensures Addr(blocks', table'[i], DataSlot(bn)) != 0
        {
          assert SlotOf(table, i, DataSlot(bn));
        }
      }
    }
  }

  lemma ZeroWord(j: nat)
    requires j < WORDS
    ensures GetWord(ZeroBlock(), j) == 0
  {
  }

  function SetAddr(d: Dinode, k: nat, b: word): Dinode
    requires k <= NDIRECT
  {
    d.(addrs := d.addrs[k := b])
  }

  /** bmap stores a fresh block in ip->addrs[k]; a fresh indirect block lists nothing because it is zeroed. */
  lemma AttachDirect(sb: Super, blocks: Disk, table: seq<Dinode>, inum: nat, kk: nat, b: nat)
    requires FsOk(sb, blocks, table) && inum < |table| && kk <= NDIRECT && table[inum].addrs[kk] == 0
    requires b != 0 && InData(sb, b) && Unowned(blocks, table, b) && Used(sb, blocks, b)
    requires kk == NDIRECT ==> blocks[b] == ZeroBlock()
    ensures FsOk(sb, blocks, table[inum := SetAddr(table[inum], kk, b)])
    ensures forall i, k | SlotOf(table, i, k) ::
      Addr(blocks, table[inum := SetAddr(table[inum], kk, b)][i], k) ==
        if i == inum && k == kk then b else Addr(blocks, table[i], k)
  {
    hide GetWord; hide Used;
    forall j: nat | j < WORDS { ZeroWord(j); }
    var table' := table[inum := SetAddr(table[inum], kk, b)];
    forall i, k | SlotOf(table, i, k)
      ensures Addr(blocks, table'[i], k) == if i == inum && k == kk then b else Addr(blocks, table[i], k)
    {
    }
    AttachOk(sb, blocks, table, blocks, table', inum, kk, b);
  }

  /** bmap stores a fresh block in entry j of the indirect block. */
  lemma AttachIndirect(sb: Super, blocks: Disk, table: seq<Dinode>, inum: nat, j: nat, b: nat)
    requires FsOk(sb, blocks, table) && inum < |table| && j < NINDIRECT && table[inum].addrs[NDIRECT] != 0
    requires Addr(blocks, table[inum], NDIRECT + 1 + j) == 0
    requires b != 0 && InData(sb, b) && Unowned(blocks, table, b) && Used(sb, blocks, b)
    ensures InData(sb, table[inum].addrs[NDIRECT])
    ensures var a := table[inum].addrs[NDIRECT];
      var blocks' := blocks[a := SetWord(blocks[a], j, b)];
      && FsOk(sb, blocks', table)
      && forall i, k | SlotOf(table, i, k) ::
           Addr(blocks', table[i], k) == if i == inum && k == NDIRECT + 1 + j then b else Addr(blocks, table[i], k)
  {
    hide GetWord; hide SetWord; hide GetBit;
    var a := table[inum].addrs[NDIRECT];
    assert SlotOf(table, inum, NDIRECT) && Addr(blocks, table[inum], NDIRECT) == a;
    var blocks' := blocks[a := SetWord(blocks[a], j, b)];
    forall i, k | SlotOf(table, i, k)
      ensures Addr(blocks', table[i], k) == if i == inum && k == NDIRECT + 1 + j then b else Addr(blocks, table[i], k)
    {
      if i != inum {
        assert SlotOf(table, i, NDIRECT) && Addr(blocks, table[i], NDIRECT) == table[i].addrs[NDIRECT];
      }
    }
    LayoutFacts(sb);
    assert forall c: nat | c < sb.size :: Used(sb, blocks', c) <==> Used(sb, blocks, c);
    AttachOk(sb, blocks, table, blocks', table, inum, NDIRECT + 1 + j, b);
  }

  /** Emptying slots of an inode: what was in them is a used data block that is now nobody's. */
  lemma DetachOk(sb: Super, blocks: Disk, table: seq<Dinode>, inum: nat, d: Dinode)
    requires FsOk(sb, blocks, table) && inum < |table| && d.size == 0
    requires forall k | 0 <= k < SLOTS :: Addr(blocks, d, k) == Addr(blocks, table[inum], k) || Addr(blocks, d, k) == 0
    ensures FsOk(sb, blocks, table[inum := d])
    ensures forall k | 0 <= k < SLOTS && Addr(blocks, d, k) != Addr(blocks, table[inum], k) ::
      var b := Addr(blocks, table[inum], k);
      InData(sb, b) && Used(sb, blocks, b) && Unowned(blocks, table[inum := d], b)
  {
    hide GetWord; hide Used;
    var table' := table[inum := d];
    forall i, k | SlotOf(table', i, k)
      ensures Addr(blocks, table'[i], k) == Addr(blocks, table[i], k) || Addr(blocks, table'[i], k) == 0
      ensures SlotOf(table, i, k)
    {
    }
    forall k | 0 <= k < SLOTS && Addr(blocks, d, k) != Addr(blocks, table[inum], k)
      ensures Unowned(blocks, table', Addr(blocks, table[inum], k)) && SlotOf(table, inum, k)
    {
      forall i, l | SlotOf(table', i, l)
        ensures Addr(blocks, table'[i], l) != Addr(blocks, table[inum], k)
      {
        assert SlotOf(table, i, l) && SlotOf(table, inum, k);
      }
    }
    assert SizesOk(blocks, table') by {
      forall i | 0 <= i < |table'|
        ensures Backed(blocks, table'[i], table'[i].size)
      {
        assert i != inum ==> table'[i] == table[i];
      }
    }
  }
}
