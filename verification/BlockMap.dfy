/**
 * How an inode's slots grow: what one turn of bmap may change, and what it leaves alone.
 */
module BlockMap {
  import opened Common
  import opened Blocks
  import opened DiskLayout
  import opened Ownership

  ghost predicate AllUsed(sb: Super, blocks: Disk, n: nat)
  {
    forall c: nat | c < n :: Used(sb, blocks, c)
  }

  /** What balloc returns: the lowest free block, marked, zeroed and still nobody's. */
  ghost predicate Allocated(sb: Super, blocks: Disk, blocks': Disk, table: seq<Dinode>, b: nat)
    requires sb.nlog <= sb.size
  {
    && b < sb.size && !Used(sb, blocks, b) && AllUsed(sb, blocks, b)
    && InData(sb, b) && Unowned(blocks, table, b) && |blocks'| == |blocks| && b < |blocks|
    && FsOk(sb, blocks', table) && SameSlots(blocks, table, blocks', table)
    && Used(sb, blocks', b) && Unowned(blocks', table, b) && blocks'[b] == ZeroBlock()
    && sb.BitBlock(b) < sb.MetaEnd() && sb.ninodes / IPB + 3 <= sb.BitBlock(b)
    && (forall x: nat | x < |blocks| && x != b && x != sb.BitBlock(b) :: blocks'[x] == blocks[x])
    && (forall c: nat | c < sb.size :: Used(sb, blocks, c) ==> Used(sb, blocks', c))
  }

  lemma AllocatedOk(sb: Super, blocks: Disk, table: seq<Dinode>, b: nat)
    requires FsOk(sb, blocks, table) && b < sb.LogStart() && !Used(sb, blocks, b) && AllUsed(sb, blocks, b)
    ensures InData(sb, b) && sb.BitBlock(b) < sb.MetaEnd() <= b < |blocks|
    ensures FsOk(sb, blocks[sb.BitBlock(b) := FlipBit(blocks[sb.BitBlock(b)], b % BPB)], table)
    ensures Allocated(sb, blocks, blocks[sb.BitBlock(b) := FlipBit(blocks[sb.BitBlock(b)], b % BPB)][b := ZeroBlock()],
      table, b)
  {
    hide GetWord; hide GetBit; hide FlipBit;
    MarkOk(sb, blocks, table, b);
    LayoutFacts(sb);
    FlipUsed(sb, blocks, b);
    var blocks1 := blocks[sb.BitBlock(b) := FlipBit(blocks[sb.BitBlock(b)], b % BPB)];
    hide Used; hide ReservedOk; hide OwnOk; hide UniqueOk; hide SizesOk;
    assert forall i | 0 <= i < |table| ::
      SlotOf(table, i, NDIRECT) && Addr(blocks, table[i], NDIRECT) == table[i].addrs[NDIRECT];
    InertOk(sb, blocks1, table, b, ZeroBlock());
  }

  /**
   * Inode inum may have received blocks in some of its empty slots: full slots and the contents of
   * everyone's blocks stay, inodes on disk stay, and a new data block is zeroed.
   */
  ghost predicate Grew(sb: Super, blocks: Disk, table: seq<Dinode>, blocks': Disk, table': seq<Dinode>,
      inum: nat, slots: set<nat>)
  {
    && inum < |table| && |blocks'| == |blocks| && FsOk(sb, blocks', table') && |table'| == |table|
    && table' == table[inum := table[inum].(addrs := table'[inum].addrs)]
    && (forall x: nat | 1 <= x < sb.ninodes / IPB + 3 && x < |blocks| :: blocks'[x] == blocks[x])
    && (forall i, k | SlotOf(table, i, k) :: SlotKept(blocks, table, blocks', table', inum, slots, i, k))
  }

  ghost predicate SlotKept(blocks: Disk, table: seq<Dinode>, blocks': Disk, table': seq<Dinode>, inum: nat,
      slots: set<nat>, i: nat, k: nat)
    requires SlotOf(table, i, k) && |table'| == |table| && |blocks'| == |blocks|
  {
    var a, a' := Addr(blocks, table[i], k), Addr(blocks', table'[i], k);
    && (a != 0 ==> a' == a && a < |blocks| && ((i == inum && k == NDIRECT) || blocks'[a] == blocks[a]))
    && (a == 0 && !(i == inum && k in slots) ==> a' == 0)
    && (a == 0 && a' != 0 && k != NDIRECT ==> a' < |blocks| && blocks'[a'] == ZeroBlock())
  }

  lemma GrewNothing(sb: Super, blocks: Disk, table: seq<Dinode>, inum: nat)
    requires FsOk(sb, blocks, table) && inum < |table|
    ensures Grew(sb, blocks, table, blocks, table, inum, {})
  {
    hide GetWord;
    assert table[inum := table[inum].(addrs := table[inum].addrs)] == table;
  }

  lemma GrewTransitive(sb: Super, b0: Disk, t0: seq<Dinode>, b1: Disk, t1: seq<Dinode>, b2: Disk,
      t2: seq<Dinode>, inum: nat, s1: set<nat>, s2: set<nat>)
    requires Grew(sb, b0, t0, b1, t1, inum, s1) && Grew(sb, b1, t1, b2, t2, inum, s2)
    ensures Grew(sb, b0, t0, b2, t2, inum, s1 + s2)
  {
    hide Addr; hide FsOk;
    forall i, k | SlotOf(t0, i, k)
      ensures SlotKept(b0, t0, b2, t2, inum, s1 + s2, i, k)
    {
      assert SlotOf(t1, i, k);
      assert SlotKept(b0, t0, b1, t1, inum, s1, i, k);
      assert SlotKept(b1, t1, b2, t2, inum, s2, i, k);
    }
  }

  /** A fresh block goes into a direct slot, or becomes the indirect block. */
  lemma GrewDirect(sb: Super, blocks: Disk, blocks': Disk, table: seq<Dinode>, inum: nat, kk: nat, b: nat)
    requires FsOk(sb, blocks, table) && inum < |table| && kk <= NDIRECT && table[inum].addrs[kk] == 0
    requires Allocated(sb, blocks, blocks', table, b)
    ensures Grew(sb, blocks, table, blocks', table[inum := SetAddr(table[inum], kk, b)], inum, {kk})
  {
    hide GetWord; hide Used; hide FlipBit;
    var table' := table[inum := SetAddr(table[inum], kk, b)];
    AttachDirect(sb, blocks', table, inum, kk, b);
    hide UniqueOk; hide SizesOk; hide ReservedOk;
    forall i, k | SlotOf(table, i, k)
      ensures SlotKept(blocks, table, blocks', table', inum, {kk}, i, k)
    {
    }
  }

  /** A fresh block goes into entry j of the indirect block. */
  lemma GrewIndirect(sb: Super, blocks: Disk, blocks': Disk, table: seq<Dinode>, inum: nat, j: nat, b: nat)
    requires FsOk(sb, blocks, table) && inum < |table| && j < NINDIRECT && table[inum].addrs[NDIRECT] != 0
    requires Addr(blocks, table[inum], NDIRECT + 1 + j) == 0 && Allocated(sb, blocks, blocks', table, b)
    ensures table[inum].addrs[NDIRECT] < |blocks|
    ensures blocks'[table[inum].addrs[NDIRECT]] == blocks[table[inum].addrs[NDIRECT]]
    ensures Grew(sb, blocks, table,
                 blocks'[table[inum].addrs[NDIRECT] := SetWord(blocks'[table[inum].addrs[NDIRECT]], j, b)],
                 table, inum, {NDIRECT + 1 + j})
  {
    hide GetWord; hide SetWord; hide Used; hide FlipBit;
    var a := table[inum].addrs[NDIRECT];
    assert SlotOf(table, inum, NDIRECT) && SlotOf(table, inum, NDIRECT + 1 + j);
    AttachIndirect(sb, blocks', table, inum, j, b);
    var blocks2 := blocks'[a := SetWord(blocks'[a], j, b)];
    hide SizesOk; hide ReservedOk;
    forall i, k | SlotOf(table, i, k)
      ensures SlotKept(blocks, table, blocks2, table, inum, {NDIRECT + 1 + j}, i, k)
    {
    }
    assert table == table[inum := table[inum].(addrs := table[inum].addrs)];
  }

  lemma GrewMore(sb: Super, blocks: Disk, table: seq<Dinode>, blocks': Disk, table': seq<Dinode>, inum: nat,
      s1: set<nat>, s2: set<nat>)
    requires Grew(sb, blocks, table, blocks', table', inum, s1) && s1 <= s2
    ensures Grew(sb, blocks, table, blocks', table', inum, s2)
  {
    hide Addr; hide FsOk;
    forall i, k | SlotOf(table, i, k)
      ensures SlotKept(blocks, table, blocks', table', inum, s2, i, k)
    {
      assert SlotKept(blocks, table, blocks', table', inum, s1, i, k);
    }
  }

  lemma SlotData(sb: Super, blocks: Disk, table: seq<Dinode>, i: nat, k: nat)
    requires FsOk(sb, blocks, table) && SlotOf(table, i, k) && Addr(blocks, table[i], k) != 0
    ensures InData(sb, Addr(blocks, table[i], k)) && Used(sb, blocks, Addr(blocks, table[i], k))
    ensures Addr(blocks, table[i], k) < |blocks|
  {
  }

  lemma SizeFits(sb: Super, b: nat)
    requires sb.Ok() && b < sb.size
    ensures b < UINT
  {
  }

  lemma GrewOk(sb: Super, blocks: Disk, table: seq<Dinode>, blocks': Disk, table': seq<Dinode>, inum: nat,
      slots: set<nat>)
    requires Grew(sb, blocks, table, blocks', table', inum, slots)
    ensures FsOk(sb, blocks', table') && |table'| == |table|
  {
  }

  lemma StayPut(sb: Super, blocks: Disk, table: seq<Dinode>, inum: nat, bn: nat)
    requires FsOk(sb, blocks, table) && inum < |table| && bn < MAXFILE
    ensures table[inum := table[inum]] == table
    ensures Grew(sb, blocks, table, blocks, table, inum, {DataSlot(bn), NDIRECT})
  {
    GrewNothing(sb, blocks, table, inum);
    GrewMore(sb, blocks, table, blocks, table, inum, {}, {DataSlot(bn), NDIRECT});
  }

  lemma SlotAfter(sb: Super, blocks: Disk, table: seq<Dinode>, blocks': Disk, table': seq<Dinode>, inum: nat,
      slots: set<nat>, k: nat)
    requires Grew(sb, blocks, table, blocks', table', inum, slots) && k < SLOTS && Addr(blocks', table'[inum], k) != 0
    ensures sb.nlog <= sb.size && InData(sb, Addr(blocks', table'[inum], k))
  {
    assert SlotOf(table', inum, k);
  }

  /** An inode keeps its indirect block. */
  lemma IndirectKept(sb: Super, blocks: Disk, table: seq<Dinode>, blocks': Disk, table': seq<Dinode>, inum: nat,
      slots: set<nat>)
    requires Grew(sb, blocks, table, blocks', table', inum, slots)
    ensures table[inum].addrs[NDIRECT] != 0 ==> table'[inum].addrs[NDIRECT] == table[inum].addrs[NDIRECT]
  {
    assert SlotOf(table, inum, NDIRECT);
    assert SlotKept(blocks, table, blocks', table', inum, slots, inum, NDIRECT);
  }
}
