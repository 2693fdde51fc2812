/**
 * Giving an inode's blocks back: what itrunc frees, and what it leaves alone.
 */
module Truncate {
  import opened Common
  import opened Blocks
  import opened DiskLayout
  import opened Ownership
  import opened BlockMap
  import opened FileContent

  /** The blocks in slots lo..hi of an inode. */
  ghost function OwnedIn(blocks: Disk, d: Dinode, lo: nat, hi: nat): set<nat>
    requires hi <= SLOTS
  {
    set k: nat | lo <= k < hi && Addr(blocks, d, k) != 0 :: Addr(blocks, d, k)
  }

  /** The disk differs from b0 only in that the freed blocks are no longer marked. */
  ghost predicate Freed(sb: Super, b0: Disk, b: Disk, freed: set<nat>)
  {
    && |b| == |b0|
    && (forall x: nat | x < |b| && !(sb.ninodes / IPB + 3 <= x < sb.MetaEnd()) :: b[x] == b0[x])
    && (forall c: nat | c < sb.size :: Used(sb, b, c) <==> Used(sb, b0, c) && c !in freed)
  }

  lemma FreedMore(sb: Super, b0: Disk, b: Disk, table: seq<Dinode>, freed: set<nat>, x: nat)
    requires Freed(sb, b0, b, freed) && FsOk(sb, b, table) && InData(sb, x) && Used(sb, b, x) && Unowned(b, table, x)
    ensures sb.BitBlock(x) < |b|
    ensures Freed(sb, b0, b[sb.BitBlock(x) := FlipBit(b[sb.BitBlock(x)], x % BPB)], freed + {x})
  {
    hide GetBit; hide FlipBit; hide GetWord;
    LayoutFacts(sb);
    UnmarkOk(sb, b, table, x);
    hide Used; hide OwnOk; hide UniqueOk; hide SizesOk; hide ReservedOk;
  }

  /** Slots do not depend on the bitmap. */
  lemma FreedAddr(sb: Super, b0: Disk, b: Disk, freed: set<nat>, table: seq<Dinode>, d: Dinode, k: nat)
    requires Freed(sb, b0, b, freed) && FsOk(sb, b0, table) && k < SLOTS
    requires d.addrs[NDIRECT] == 0 || InData(sb, d.addrs[NDIRECT])
    ensures Addr(b, d, k) == Addr(b0, d, k)
  {
    hide GetWord; hide Used;
  }

  /** No file of an inode other than inum is affected. */
  lemma FreedOthers(sb: Super, b0: Disk, b: Disk, freed: set<nat>, table: seq<Dinode>, inum: nat)
    requires Freed(sb, b0, b, freed) && FsOk(sb, b0, table)
    ensures OthersKept(b0, b, table, inum)
  {
    hide Used;
    forall i | 0 <= i < |table| && i != inum
      ensures FileBytes(b, table[i]) == FileBytes(b0, table[i])
    {
      assert SlotOf(table, i, NDIRECT) && Addr(b0, table[i], NDIRECT) == table[i].addrs[NDIRECT];
      forall p: nat | p < table[i].size
        ensures ByteAt(b, table[i], p) == ByteAt(b0, table[i], p)
      {
        FreedAddr(sb, b0, b, freed, table, table[i], DataSlot(p / BSIZE));
        assert SlotOf(table, i, DataSlot(p / BSIZE));
      }
    }
  }

  lemma FreedOnDisk(sb: Super, b0: Disk, b: Disk, freed: set<nat>, table: seq<Dinode>, t: seq<Dinode>, inum: nat)
    requires Freed(sb, b0, b, freed) && FsOk(sb, b0, table) && OnDisk(sb, b0, table, -1)
    requires |t| == |table| && Geometry(sb, b) && forall i | 0 <= i < |table| && i != inum :: t[i] == table[i]
    ensures OnDisk(sb, b, t, inum)
  {
    hide DecodeInode; hide GetWord; hide Used; hide OwnOk; hide UniqueOk; hide SizesOk; hide ReservedOk;
    LayoutFacts(sb);
    forall i: nat | i < |t| && i != inum
      ensures InodeAt(sb, b, i) == t[i]
    {
      assert InodeAt(sb, b0, i) == table[i];
    }
  }

  /**
   * Half-way through itrunc: the slots below lo have been emptied and their blocks freed; d is what is
   * left of the inode, and the invariant holds with d in the table.
   */
  ghost predicate Truncating(sb: Super, b0: Disk, table: seq<Dinode>, b: Disk, inum: nat, d: Dinode, freed: set<nat>)
  {
    && FsOk(sb, b0, table) && inum < |table| && d.size == 0
    && Freed(sb, b0, b, freed) && FsOk(sb, b, table[inum := d])
  }

  lemma TruncateStart(sb: Super, b0: Disk, table: seq<Dinode>, inum: nat)
    requires FsOk(sb, b0, table) && inum < |table|
    ensures Truncating(sb, b0, table, b0, inum, table[inum].(size := 0), {})
    ensures OwnedIn(b0, table[inum], 0, 0) == {}
  {
    hide Used;
    ResizeOk(sb, b0, table, inum, 0);
  }

  /** A direct slot is emptied: its block was the inode's alone, so it may be freed. */
  lemma DirectFree(sb: Super, b0: Disk, table: seq<Dinode>, b: Disk, inum: nat, d: Dinode, freed: set<nat>, k: nat)
    requires Truncating(sb, b0, table, b, inum, d, freed) && k < NDIRECT && d.addrs[k] != 0
    ensures InData(sb, d.addrs[k]) && Used(sb, b, d.addrs[k]) && sb.BitBlock(d.addrs[k]) < |b|
    ensures FsOk(sb, b, table[inum := SetAddr(d, k, 0)]) && Unowned(b, table[inum := SetAddr(d, k, 0)], d.addrs[k])
    ensures Truncating(sb, b0, table,
                       b[sb.BitBlock(d.addrs[k]) := FlipBit(b[sb.BitBlock(d.addrs[k])], d.addrs[k] % BPB)],
                       inum, SetAddr(d, k, 0), freed + {d.addrs[k] as nat})
  {
    hide Used; hide FlipBit; hide GetWord;
    var t, d' := table[inum := d], SetAddr(d, k, 0);
    DetachOk(sb, b, t, inum, d');
    assert t[inum := d'] == table[inum := d'];
    assert Addr(b, d', k) != Addr(b, d, k);
    UnmarkOk(sb, b, table[inum := d'], d.addrs[k]);
    FreedMore(sb, b0, b, table[inum := d'], freed, d.addrs[k]);
  }

  /** Emptying the indirect slot leaves the listed blocks and the indirect block itself to be freed. */
  ghost predicate Dangling(sb: Super, b: Disk, t: seq<Dinode>, d: Dinode, freed: set<nat>, lo: nat)
    requires sb.nlog <= sb.size
  {
    forall k | (lo <= k < SLOTS || k == NDIRECT) && 0 <= k < SLOTS && Addr(b, d, k) != 0 ::
      InData(sb, Addr(b, d, k)) && Used(sb, b, Addr(b, d, k)) && Unowned(b, t, Addr(b, d, k))
  }

  lemma IndirectDetach(sb: Super, b0: Disk, table: seq<Dinode>, b: Disk, inum: nat, d: Dinode, freed: set<nat>)
    requires Truncating(sb, b0, table, b, inum, d, freed) && d.addrs[NDIRECT] != 0
    ensures Truncating(sb, b0, table, b, inum, SetAddr(d, NDIRECT, 0), freed)
    ensures Dangling(sb, b, table[inum := SetAddr(d, NDIRECT, 0)], d, freed, NDIRECT + 1)
    ensures InData(sb, d.addrs[NDIRECT])
    ensures forall k, l | NDIRECT <= k < l < SLOTS && Addr(b, d, k) != 0 :: Addr(b, d, k) != Addr(b, d, l)
  {
    hide Used; hide GetWord;
    var t, d' := table[inum := d], SetAddr(d, NDIRECT, 0);
    DetachOk(sb, b, t, inum, d');
    assert t[inum := d'] == table[inum := d'];
    assert Addr(b, d, NDIRECT) == d.addrs[NDIRECT];
    forall k | NDIRECT <= k < SLOTS && Addr(b, d, k) != 0
      ensures InData(sb, Addr(b, d, k)) && Used(sb, b, Addr(b, d, k)) && Unowned(b, table[inum := d'], Addr(b, d, k))
    {
      assert Addr(b, d', k) == 0;
    }
    forall k, l | NDIRECT <= k < l < SLOTS && Addr(b, d, k) != 0
      ensures Addr(b, d, k) != Addr(b, d, l)
    {
      assert SlotOf(t, inum, k) && SlotOf(t, inum, l);
    }
  }

  lemma DanglingFree(sb: Super, b0: Disk, table: seq<Dinode>, b: Disk, inum: nat, d: Dinode, freed: set<nat>,
      lo: nat, k: nat)
    requires Truncating(sb, b0, table, b, inum, SetAddr(d, NDIRECT, 0), freed) && InData(sb, d.addrs[NDIRECT])
    requires NDIRECT < lo <= SLOTS && (k == lo || (k == NDIRECT && lo == SLOTS)) && k < SLOTS && Addr(b, d, k) != 0
    requires Dangling(sb, b, table[inum := SetAddr(d, NDIRECT, 0)], d, freed, lo)
    requires forall j, l | NDIRECT <= j < l < SLOTS && Addr(b, d, j) != 0 :: Addr(b, d, j) != Addr(b, d, l)
    ensures InData(sb, Addr(b, d, k)) && Used(sb, b, Addr(b, d, k)) && sb.BitBlock(Addr(b, d, k)) < |b|
    ensures Unowned(b, table[inum := SetAddr(d, NDIRECT, 0)], Addr(b, d, k))
    ensures var x := Addr(b, d, k);
      var b' := b[sb.BitBlock(x) := FlipBit(b[sb.BitBlock(x)], x % BPB)];
      && Truncating(sb, b0, table, b', inum, SetAddr(d, NDIRECT, 0), freed + {x})
      && (k == lo ==> Dangling(sb, b', table[inum := SetAddr(d, NDIRECT, 0)], d, freed + {x}, lo + 1))
      && (forall j | 0 <= j < SLOTS :: Addr(b', d, j) == Addr(b, d, j))
  {
    var x, t := Addr(b, d, k), table[inum := SetAddr(d, NDIRECT, 0)];
    var b' := b[sb.BitBlock(x) := FlipBit(b[sb.BitBlock(x)], x % BPB)];
    UnmarkOk(sb, b, t, x);
    FreedMore(sb, b0, b, t, freed, x);
    LayoutFacts(sb);
    hide Used; hide FlipBit; hide GetWord; hide FsOk; hide Freed;
    forall j | 0 <= j < SLOTS
      ensures Addr(b', d, j) == Addr(b, d, j)
    {
    }
    hide Addr;
    if k == lo {
      forall j | (lo + 1 <= j < SLOTS || j == NDIRECT) && 0 <= j < SLOTS && Addr(b', d, j) != 0
        ensures InData(sb, Addr(b', d, j)) && Used(sb, b', Addr(b', d, j)) && Unowned(b', t, Addr(b', d, j))
      {
        assert Addr(b', d, j) == Addr(b, d, j) != x;
        UnownedKept(b, b', t, Addr(b, d, j));
      }
    }
  }

  lemma UnownedKept(b: Disk, b': Disk, t: seq<Dinode>, x: nat)
    requires SameSlots(b, t, b', t) && Unowned(b, t, x)
    ensures Unowned(b', t, x)
  {
    hide Addr;
    forall i, k | SlotOf(t, i, k) ensures Addr(b', t[i], k) != x { assert Addr(b', t[i], k) == Addr(b, t[i], k); }
  }

  /** The freed blocks are exactly those the inode had. */
  lemma OwnedStep(blocks: Disk, d: Dinode, lo: nat, hi: nat)
    requires lo <= hi < SLOTS
    ensures OwnedIn(blocks, d, lo, hi + 1)
         == OwnedIn(blocks, d, lo, hi) + if Addr(blocks, d, hi) != 0 then {Addr(blocks, d, hi)} else {}
  {
    hide Addr;
  }

  lemma OwnedAll(blocks: Disk, d: Dinode)
    ensures OwnedIn(blocks, d, 0, SLOTS)
         == OwnedIn(blocks, d, 0, NDIRECT) + OwnedIn(blocks, d, NDIRECT, SLOTS)
    ensures OwnedIn(blocks, d, NDIRECT, SLOTS)
         == OwnedIn(blocks, d, NDIRECT + 1, SLOTS) +
           if Addr(blocks, d, NDIRECT) != 0 then {Addr(blocks, d, NDIRECT)} else {}
    ensures d.addrs[NDIRECT] == 0 ==> OwnedIn(blocks, d, NDIRECT, SLOTS) == {}
    ensures forall k: nat | k <= SLOTS :: OwnedIn(blocks, d, k, k) == {}
  {
    hide GetWord;
    if d.addrs[NDIRECT] == 0 { assert forall k: nat | NDIRECT <= k < SLOTS :: Addr(blocks, d, k) == 0; }
  }

  /** A finished truncation: the file is empty, exactly its blocks are free again, and no other file has changed. */
  ghost predicate Truncated(sb: Super, b0: Disk, t0: seq<Dinode>, b: Disk, t: seq<Dinode>, inum: nat)
  {
    && inum < |t0| == |t| && FsOk(sb, b, t) && OnDisk(sb, b, t, -1)
    && t == t0[inum := t0[inum].(size := 0, addrs := t[inum].addrs)]
    && (forall k | 0 <= k <= NDIRECT :: t[inum].addrs[k] == 0)
    && OthersKept(b0, b, t0, inum)
    && forall c: nat | c < sb.size :: Used(sb, b, c) <==> Used(sb, b0, c) && c !in OwnedIn(b0, t0[inum], 0, SLOTS)
  }

  /**
   * Between two frees of listed blocks: everything from slot lo on, and the indirect block, still
   * waits to be freed.
   */
  ghost predicate Listing(sb: Super, b0: Disk, table: seq<Dinode>, b: Disk, inum: nat, d: Dinode,
      freed: set<nat>, lo: nat)
  {
    && Truncating(sb, b0, table, b, inum, SetAddr(d, NDIRECT, 0), freed)
    && sb.nlog <= sb.size && InData(sb, d.addrs[NDIRECT]) && NDIRECT < lo <= SLOTS
    && Dangling(sb, b, table[inum := SetAddr(d, NDIRECT, 0)], d, freed, lo)
    && (forall j, l | NDIRECT <= j < l < SLOTS && Addr(b, d, j) != 0 :: Addr(b, d, j) != Addr(b, d, l))
    && (forall j | 0 <= j < SLOTS :: Addr(b, d, j) == Addr(b0, d, j))
  }

  lemma ListingStart(sb: Super, b0: Disk, table: seq<Dinode>, b: Disk, inum: nat, d: Dinode, freed: set<nat>)
    requires Truncating(sb, b0, table, b, inum, d, freed) && d.addrs[NDIRECT] != 0
    ensures Listing(sb, b0, table, b, inum, d, freed, NDIRECT + 1)
    ensures d.addrs[NDIRECT] < |b| == |b0| && b[d.addrs[NDIRECT]] == b0[d.addrs[NDIRECT]]
    ensures Used(sb, b, d.addrs[NDIRECT])
  {
    hide Used; hide GetWord; hide UniqueOk; hide SizesOk; hide ReservedOk; hide OwnOk;
    IndirectDetach(sb, b0, table, b, inum, d, freed);
    forall j | 0 <= j < SLOTS ensures Addr(b, d, j) == Addr(b0, d, j) { FreedAddr(sb, b0, b, freed, table, d, j); }
    assert Addr(b, d, NDIRECT) == d.addrs[NDIRECT];
  }

  /** What the loop reads in the indirect block is the next slot; an empty one needs no work. */
  lemma ListingRead(sb: Super, b0: Disk, table: seq<Dinode>, b: Disk, inum: nat, d: Dinode, freed: set<nat>, j: nat)
    requires Listing(sb, b0, table, b, inum, d, freed, NDIRECT + 1 + j) && j < NINDIRECT && d.addrs[NDIRECT] != 0
    ensures d.addrs[NDIRECT] < |b0| && Addr(b, d, NDIRECT + 1 + j) == GetWord(b0[d.addrs[NDIRECT]], j)
    ensures Used(sb, b, d.addrs[NDIRECT]) && InData(sb, d.addrs[NDIRECT])
    ensures Addr(b, d, NDIRECT + 1 + j) == 0 ==> Listing(sb, b0, table, b, inum, d, freed, NDIRECT + 2 + j)
  {
    hide Used; hide GetWord; hide UniqueOk; hide SizesOk; hide ReservedOk; hide OwnOk;
    assert Addr(b, d, NDIRECT) == d.addrs[NDIRECT];
    assert Addr(b, d, NDIRECT + 1 + j) == Addr(b0, d, NDIRECT + 1 + j);
  }

  lemma ListingFree(sb: Super, b0: Disk, table: seq<Dinode>, b: Disk, inum: nat, d: Dinode, freed: set<nat>, k: nat)
    requires NDIRECT < k < SLOTS && Listing(sb, b0, table, b, inum, d, freed, k) && Addr(b, d, k) != 0
    ensures sb.nlog <= sb.size && InData(sb, Addr(b, d, k)) && Used(sb, b, Addr(b, d, k))
    ensures sb.BitBlock(Addr(b, d, k)) < |b|
    ensures FsOk(sb, b, table[inum := SetAddr(d, NDIRECT, 0)])
    ensures Unowned(b, table[inum := SetAddr(d, NDIRECT, 0)], Addr(b, d, k))
    ensures Listing(sb, b0, table,
                    b[sb.BitBlock(Addr(b, d, k)) := FlipBit(b[sb.BitBlock(Addr(b, d, k))], Addr(b, d, k) % BPB)],
                    inum, d, freed + {Addr(b, d, k)}, k + 1)
  {
    DanglingFree(sb, b0, table, b, inum, d, freed, k, k);
    hide Used; hide FlipBit; hide Addr; hide Truncating; hide Dangling;
  }

  lemma ListingEnd(sb: Super, b0: Disk, table: seq<Dinode>, b: Disk, inum: nat, d: Dinode, freed: set<nat>)
    requires Listing(sb, b0, table, b, inum, d, freed, SLOTS) && d.addrs[NDIRECT] != 0
    ensures sb.nlog <= sb.size && InData(sb, d.addrs[NDIRECT]) && Used(sb, b, d.addrs[NDIRECT])
    ensures sb.BitBlock(d.addrs[NDIRECT]) < |b|
    ensures FsOk(sb, b, table[inum := SetAddr(d, NDIRECT, 0)])
    ensures Unowned(b, table[inum := SetAddr(d, NDIRECT, 0)], d.addrs[NDIRECT])
    ensures Truncating(sb, b0, table,
                       b[sb.BitBlock(d.addrs[NDIRECT]) := FlipBit(b[sb.BitBlock(d.addrs[NDIRECT])],
                         d.addrs[NDIRECT] % BPB)],
                       inum, SetAddr(d, NDIRECT, 0), freed + {d.addrs[NDIRECT] as nat})
  {
    assert Addr(b, d, NDIRECT) == d.addrs[NDIRECT];
    DanglingFree(sb, b0, table, b, inum, d, freed, SLOTS, NDIRECT);
    hide Used; hide FlipBit; hide Dangling;
  }

  lemma ListingAddr(sb: Super, b0: Disk, table: seq<Dinode>, b: Disk, inum: nat, d: Dinode, freed: set<nat>, k: nat)
    requires NDIRECT < k < SLOTS && Listing(sb, b0, table, b, inum, d, freed, k)
    ensures Addr(b, d, k) == Addr(b0, d, k)
  {
  }

  lemma DirectAddr(blocks: Disk, d: Dinode, k: nat)
    requires k <= NDIRECT
    ensures Addr(blocks, d, k) == d.addrs[k]
  {
  }

  lemma OwnedSame(blocks: Disk, d: Dinode, d': Dinode)
    requires d.addrs[NDIRECT] == d'.addrs[NDIRECT]
    ensures OwnedIn(blocks, d, NDIRECT, SLOTS) == OwnedIn(blocks, d', NDIRECT, SLOTS)
  {
    hide GetWord;
    assert forall k: nat | NDIRECT <= k < SLOTS :: Addr(blocks, d, k) == Addr(blocks, d', k);
    hide Addr;
  }

  lemma TruncateEnd(sb: Super, b0: Disk, table: seq<Dinode>, b: Disk, inum: nat, d: Dinode, freed: set<nat>)
    requires Truncating(sb, b0, table, b, inum, d, freed) && OnDisk(sb, b0, table, -1)
    ensures FsOk(sb, b, table[inum := d]) && OnDisk(sb, b, table[inum := d], inum)
    ensures OthersKept(b0, b, table, inum)
  {
    FreedOthers(sb, b0, b, freed, table, inum);
    FreedOnDisk(sb, b0, b, freed, table, table[inum := d], inum);
  }

  lemma TruncateDone(sb: Super, b0: Disk, table: seq<Dinode>, b1: Disk, b2: Disk, inum: nat, d: Dinode,
      t: seq<Dinode>, freed: set<nat>)
    requires Truncating(sb, b0, table, b1, inum, d, freed) && OthersKept(b0, b1, table, inum) && t == table[inum := d]
    requires freed == OwnedIn(b0, table[inum], 0, SLOTS) && d == table[inum].(size := 0, addrs := d.addrs)
    requires forall k | 0 <= k <= NDIRECT :: d.addrs[k] == 0
    requires FsOk(sb, b2, t) && OnDisk(sb, b2, t, -1)
    requires forall c: nat | c < sb.size :: Used(sb, b2, c) <==> Used(sb, b1, c)
    requires forall i: nat | i < |t| :: FileBytes(b2, t[i]) == FileBytes(b1, t[i])
    ensures Truncated(sb, b0, table, b2, t, inum)
  {
    hide Used; hide FileBytes; hide FsOk; hide OnDisk; hide OwnedIn;
    forall i | 0 <= i < |table| && i != inum
      ensures FileBytes(b2, table[i]) == FileBytes(b0, table[i])
    {
      assert t[i] == table[i];
    }
  }
}
