/** Blocks of memory, whatever their use. Addresses count headers, that is 8 bytes. */
module HeapBlocks {
  /** Unit u belongs to the block at a. */
  ghost predicate Cell(owner: map<nat, nat>, u: nat, a: nat) { u in owner && owner[u] == a }

  ghost predicate Within(blocks: map<nat, nat>, u: nat, a: nat) { a in blocks && a <= u < a + blocks[a] }

  /**
   * blocks gives each block's size by its address, owner each unit's block: together they tile
   * the units exactly.
   */
  ghost predicate Tiles(blocks: map<nat, nat>, owner: map<nat, nat>) {
    && (forall a :: a in blocks ==> blocks[a] > 0)
    && (forall a: nat, u: nat :: Within(blocks, u, a) ==> Cell(owner, u, a))
    && (forall u :: u in owner ==> Within(blocks, u, owner[u]))
  }

  /** The units from lo up to hi go to the block at a. */
  function Repaint(owner: map<nat, nat>, lo: nat, hi: nat, a: nat): (r: map<nat, nat>)
    ensures r.Keys == owner.Keys
  {
    map u | u in owner :: if lo <= u < hi then a else owner[u]
  }

  function Joined(blocks: map<nat, nat>, a: nat, b: nat): map<nat, nat>
    requires a in blocks && b in blocks
  {
    (blocks - {b})[a := blocks[a] + blocks[b]]
  }

  function Cut(blocks: map<nat, nat>, a: nat, n: nat): map<nat, nat>
    requires a in blocks && n < blocks[a]
  {
    blocks[a := blocks[a] - n][a + blocks[a] - n := n]
  }

  /** A unit is in one block only. */
  lemma OneBlock(blocks: map<nat, nat>, owner: map<nat, nat>, u: nat, a: nat, b: nat)
    requires Tiles(blocks, owner)
    ensures Within(blocks, u, a) && Within(blocks, u, b) ==> a == b
  {
    assert Within(blocks, u, a) ==> Cell(owner, u, a);
    assert Within(blocks, u, b) ==> Cell(owner, u, b);
  }

  /** Different blocks do not overlap. */
  lemma Apart(blocks: map<nat, nat>, owner: map<nat, nat>, a: nat, b: nat)
    requires Tiles(blocks, owner) && a in blocks && b in blocks && a < b
    ensures a + blocks[a] <= b
  {
    OneBlock(blocks, owner, b, a, b);
  }

  lemma JoinTiles(blocks: map<nat, nat>, owner: map<nat, nat>, a: nat, b: nat)
    requires Tiles(blocks, owner) && a in blocks && b in blocks && a + blocks[a] == b
    ensures Tiles(Joined(blocks, a, b), Repaint(owner, b, b + blocks[b], a))
  {
    var blocks', owner' := Joined(blocks, a, b), Repaint(owner, b, b + blocks[b], a);
    forall c: nat, u: nat | Within(blocks', u, c) ensures Cell(owner', u, c) {
      OneBlock(blocks, owner, u, c, b);
      assert Within(blocks, u, c) || Within(blocks, u, b);
      assert Within(blocks, u, c) ==> Cell(owner, u, c);
      assert Within(blocks, u, b) ==> Cell(owner, u, b);
    }
    forall u | u in owner' ensures Within(blocks', u, owner'[u]) {
      assert Within(blocks, u, owner[u]);
    }
  }

  lemma CutTiles(blocks: map<nat, nat>, owner: map<nat, nat>, a: nat, n: nat)
    requires Tiles(blocks, owner) && a in blocks && 0 < n < blocks[a]
    ensures
      var c := a + blocks[a] - n;
      c !in blocks && Tiles(Cut(blocks, a, n), Repaint(owner, c, c + n, c))
  {
    var c := a + blocks[a] - n;
    var blocks', owner' := Cut(blocks, a, n), Repaint(owner, c, c + n, c);
    OneBlock(blocks, owner, c, a, c);
    forall b: nat, u: nat | Within(blocks', u, b) ensures Cell(owner', u, b) {
      OneBlock(blocks, owner, u, b, a);
      assert Within(blocks, u, b) || Within(blocks, u, a);
      assert Within(blocks, u, b) ==> Cell(owner, u, b);
      assert Within(blocks, u, a) ==> Cell(owner, u, a);
    }
    forall u | u in owner' ensures Within(blocks', u, owner'[u]) {
      assert Within(blocks, u, owner[u]);
    }
  }

  /** Units p up to p + n, above all others, as a block of their own. */
  function Extended(owner: map<nat, nat>, p: nat, n: nat): (r: map<nat, nat>)
    ensures r.Keys == owner.Keys + Units(p, n)
  {
    map u | u in owner.Keys + Units(p, n) :: if u in Units(p, n) then p else owner[u]
  }

  /** The n units from p on. */
  function Units(p: nat, n: nat): (r: set<nat>)
    ensures forall u: nat :: u in r <==> p <= u < p + n
  {
    if n == 0 then {} else Units(p, n - 1) + {p + n - 1}
  }

  lemma ExtendTiles(blocks: map<nat, nat>, owner: map<nat, nat>, p: nat, n: nat)
    requires Tiles(blocks, owner) && n > 0 && forall u :: u in owner ==> u < p
    ensures p !in blocks && Tiles(blocks[p := n], Extended(owner, p, n))
  {
    assert Within(blocks, p, p) ==> Cell(owner, p, p);
    var blocks', owner' := blocks[p := n], Extended(owner, p, n);
    forall b: nat, u: nat | Within(blocks', u, b) ensures Cell(owner', u, b) {
      if b != p {
        assert Within(blocks, u, b) && Cell(owner, u, b);
      }
    }
    forall u | u in owner' ensures Within(blocks', u, owner'[u]) {
      if !(p <= u < p + n) {
        assert Within(blocks, u, owner[u]);
      }
    }
  }
}

/**
 * The user heap: free blocks on a ring in address order, first fit from where the last call left
 * off, neighbours joined on free, more memory from sbrk.
 */
module Heap {
  import opened Common
  import opened HeapBlocks

  function Succ(i: nat, n: nat): nat { if i + 1 >= n then 0 else i + 1 }

  /** The ring's addresses ascend from base, so the cycle wraps just once. */
  ghost predicate Ascends(ring: seq<nat>, base: nat) {
    && |ring| > 0 && ring[0] == base
    && forall i, j :: 0 <= i < j < |ring| ==> ring[i] < ring[j]
  }

  /** The ring's i-th member points to the one after it. */
  ghost predicate Link(ring: seq<nat>, ptr: map<nat, nat>, i: nat)
    requires i < |ring|
  {
    ring[i] in ptr && ptr[ring[i]] == ring[Succ(i, |ring|)]
  }

  ghost predicate Links(ring: seq<nat>, ptr: map<nat, nat>) {
    forall i :: 0 <= i < |ring| ==> Link(ring, ptr, i)
  }

  /** There is room between the ring's i-th member and the one after it. */
  ghost predicate Gap(ring: seq<nat>, size: map<nat, nat>, i: nat)
    requires i < |ring| - 1
  {
    ring[i] in size && ring[i] + size[ring[i]] < ring[i + 1]
  }

  /** Free neighbours on the ring leave a gap between them, but perhaps at places i and j. */
  ghost predicate Gaps(ring: seq<nat>, size: map<nat, nat>, i: int, j: int) {
    forall k :: 0 <= k < |ring| - 1 && k != i && k != j ==> Gap(ring, size, k)
  }

  /** The blocks are the free ones on the ring and the live ones, and no block is both. */
  ghost predicate Split(ring: seq<nat>, base: nat, live: map<nat, nat>, blocks: map<nat, nat>) {
    && (forall a :: a in ring && a != base ==> a in blocks)
    && (forall a :: a in blocks ==> a > base && (a !in ring <==> a in live))
    && (forall a :: a in live ==> a in blocks && live[a] == blocks[a])
  }

  ghost predicate SizesOk(base: nat, size: map<nat, nat>, blocks: map<nat, nat>) {
    && base in size && size[base] == 0
    && forall a :: a in blocks ==> a in size && size[a] == blocks[a]
  }

  /** The headers' fields, and what they stand for. */
  datatype Mem = Mem(
    base: nat, size: map<nat, nat>, ptr: map<nat, nat>,
    ring: seq<nat>, live: map<nat, nat>, blocks: map<nat, nat>, owner: map<nat, nat>)

  ghost predicate LooseOk(m: Mem, i: int, j: int) {
    && Ascends(m.ring, m.base) && Links(m.ring, m.ptr) && Gaps(m.ring, m.size, i, j)
    && Split(m.ring, m.base, m.live, m.blocks) && SizesOk(m.base, m.size, m.blocks) && Tiles(m.blocks, m.owner)
  }

  ghost predicate MemOk(m: Mem) { LooseOk(m, -1, -1) }

  function Without(ring: seq<nat>, i: nat): (r: seq<nat>)
    requires i < |ring|
    ensures |r| == |ring| - 1 && r[..i] == ring[..i]
  {
    ring[..i] + ring[i + 1..]
  }

  function With(ring: seq<nat>, i: nat, x: nat): (r: seq<nat>)
    requires i <= |ring|
    ensures |r| == |ring| + 1
  {
    ring[..i] + [x] + ring[i..]
  }

  /** A live block put on the ring after its k-th member. */
  function Inserted(m: Mem, k: nat, b: nat): Mem
    requires k < |m.ring| && m.ring[k] in m.ptr
  {
    m.(ring := With(m.ring, k + 1, b), live := m.live - {b}, ptr := m.ptr[b := m.ptr[m.ring[k]]][m.ring[k] := b])
  }

  /** The ring's members i and i + 1 made one block. */
  function Merged(m: Mem, i: nat): Mem
    requires i + 1 < |m.ring| && m.ring[i] in m.blocks && m.ring[i + 1] in m.blocks
    requires m.ring[i] in m.size && m.ring[i + 1] in m.size && m.ring[i + 1] in m.ptr
  {
    var a, b := m.ring[i], m.ring[i + 1];
    m.(
      ring := Without(m.ring, i + 1),
      size := m.size[a := m.size[a] + m.size[b]],
      ptr := m.ptr[a := m.ptr[b]],
      blocks := Joined(m.blocks, a, b),
      owner := Repaint(m.owner, b, b + m.blocks[b], a))
  }

  /** x goes after the ring's k-th member. */
  ghost predicate Follows(ring: seq<nat>, k: nat, x: nat) {
    k < |ring| && ring[k] < x && (k + 1 < |ring| ==> x < ring[k + 1])
  }

  lemma WithMembers(ring: seq<nat>, i: nat, x: nat)
    requires i <= |ring|
    ensures forall a :: a in With(ring, i, x) <==> a == x || a in ring
  {
    assert ring == ring[..i] + ring[i..];
  }

  lemma WithoutMembers(ring: seq<nat>, base: nat, i: nat)
    requires Ascends(ring, base) && i < |ring|
    ensures forall a :: a in Without(ring, i) <==> a != ring[i] && a in ring
  {
    assert ring == ring[..i] + [ring[i]] + ring[i + 1..];
  }

  lemma InsertAscends(ring: seq<nat>, base: nat, k: nat, b: nat)
    requires Ascends(ring, base) && Follows(ring, k, b)
    ensures Ascends(With(ring, k + 1, b), base)
  {
    var r := With(ring, k + 1, b);
    forall i, j | 0 <= i < j < |r| ensures r[i] < r[j] {
      assert i < k ==> ring[i] < ring[k];
      assert k + 1 < j - 1 ==> ring[k + 1] < ring[j - 1];
    }
  }

  lemma InsertLinks(ring: seq<nat>, base: nat, ptr: map<nat, nat>, k: nat, b: nat)
    requires Ascends(ring, base) && Links(ring, ptr) && Follows(ring, k, b) && ring[k] in ptr
    ensures Links(With(ring, k + 1, b), ptr[b := ptr[ring[k]]][ring[k] := b])
  {
    var r, ptr' := With(ring, k + 1, b), ptr[b := ptr[ring[k]]][ring[k] := b];
    forall i | 0 <= i < |r| ensures Link(r, ptr', i) {
      if i <= k {
        assert Link(ring, ptr, i);
      } else if i > k + 1 {
        assert Link(ring, ptr, i - 1);
      } else {
        assert Link(ring, ptr, k);
      }
    }
  }

  lemma MergeLinks(ring: seq<nat>, base: nat, ptr: map<nat, nat>, i: nat)
    requires Ascends(ring, base) && Links(ring, ptr) && i + 1 < |ring| && ring[i + 1] in ptr
    ensures Ascends(Without(ring, i + 1), base)
    ensures Links(Without(ring, i + 1), ptr[ring[i] := ptr[ring[i + 1]]])
  {
    var r, ptr' := Without(ring, i + 1), ptr[ring[i] := ptr[ring[i + 1]]];
    forall k | 0 <= k < |r| ensures Link(r, ptr', k) {
      assert Link(ring, ptr, if k < i then k else k + 1);
    }
  }

  lemma MergeGaps(ring: seq<nat>, size: map<nat, nat>, i: nat, j: int, base: nat)
    requires Ascends(ring, base) && Gaps(ring, size, i, j) && i + 1 < |ring| && j < i
    requires ring[i] in size && ring[i + 1] in size && ring[i] + size[ring[i]] == ring[i + 1]
    ensures Gaps(Without(ring, i + 1), size[ring[i] := size[ring[i]] + size[ring[i + 1]]], j, -1)
  {
    var r, size' := Without(ring, i + 1), size[ring[i] := size[ring[i]] + size[ring[i + 1]]];
    forall k | 0 <= k < |r| - 1 && k != j ensures Gap(r, size', k) {
      assert r[k] == ring[if k <= i then k else k + 1] && r[k + 1] == ring[if k < i then k + 1 else k + 2];
      assert Gap(ring, size, if k < i then k else k + 1);
    }
  }

  lemma InsertGaps(ring: seq<nat>, size: map<nat, nat>, k: nat, b: nat)
    requires Gaps(ring, size, -1, -1) && k < |ring|
    ensures Gaps(With(ring, k + 1, b), size, k + 1, k)
  {
    var r := With(ring, k + 1, b);
    forall i | 0 <= i < |r| - 1 && i != k && i != k + 1 ensures Gap(r, size, i) {
      assert Gap(ring, size, if i < k then i else i - 1);
    }
  }

  lemma InsertOk(m: Mem, k: nat, b: nat)
    requires MemOk(m) && b in m.live && Follows(m.ring, k, b)
    ensures m.ring[k] in m.ptr && LooseOk(Inserted(m, k, b), k + 1, k)
  {
    assert Link(m.ring, m.ptr, k);
    InsertAscends(m.ring, m.base, k, b);
    InsertLinks(m.ring, m.base, m.ptr, k, b);
    InsertGaps(m.ring, m.size, k, b);
    WithMembers(m.ring, k + 1, b);
    hide With;
    hide Tiles;
    hide Links;
    hide Ascends;
    hide Gaps;
  }

  lemma MergeSplit(ring: seq<nat>, base: nat, live: map<nat, nat>, blocks: map<nat, nat>, i: nat)
    requires Ascends(ring, base) && Split(ring, base, live, blocks) && i + 1 < |ring|
    requires ring[i] in blocks && ring[i + 1] in blocks
    ensures Split(Without(ring, i + 1), base, live, Joined(blocks, ring[i], ring[i + 1]))
  {
    WithoutMembers(ring, base, i + 1);
    assert ring[i] < ring[i + 1];
    hide Without;
  }

  /** The ring's members i and i + 1 meet. */
  ghost predicate Meet(m: Mem, i: nat) {
    && i + 1 < |m.ring| && m.ring[i] in m.blocks && m.ring[i + 1] in m.blocks
    && m.ring[i] in m.size && m.ring[i + 1] in m.size && m.ring[i + 1] in m.ptr
    && m.ring[i] + m.size[m.ring[i]] == m.ring[i + 1]
  }

  lemma MeetOk(m: Mem, i: nat, j: int, k: int)
    requires LooseOk(m, j, k) && 0 < i && i + 1 < |m.ring|
    ensures m.ring[i] in m.size
    ensures m.ring[i] + m.size[m.ring[i]] == m.ring[i + 1] ==> Meet(m, i)
  {
    assert m.ring[i] in m.ring && m.ring[i + 1] in m.ring;
    assert m.base == m.ring[0] < m.ring[i] < m.ring[i + 1];
    assert Link(m.ring, m.ptr, i + 1);
  }

  lemma MergeOk(m: Mem, i: nat, j: int)
    requires LooseOk(m, i, j) && 0 < i && j < i && Meet(m, i)
    ensures LooseOk(Merged(m, i), j, -1)
  {
    hide Without;
    hide Split;
    hide SizesOk;
    hide Tiles;
    hide Links;
    hide Ascends;
    hide Gaps;
    hide Repaint;
    hide Joined;
    MergeSizes(m, i, j);
    JoinTiles(m.blocks, m.owner, m.ring[i], m.ring[i + 1]);
    MergeLinks(m.ring, m.base, m.ptr, i);
    MergeGaps(m.ring, m.size, i, j, m.base);
    MergeSplit(m.ring, m.base, m.live, m.blocks, i);
  }

  lemma MergeSizes(m: Mem, i: nat, j: int)
    requires LooseOk(m, i, j) && 0 < i && Meet(m, i)
    ensures SizesOk(m.base, Merged(m, i).size, Merged(m, i).blocks)
    ensures m.ring[i] + m.blocks[m.ring[i]] == m.ring[i + 1]
  {
    hide Tiles;
    hide Links;
    hide Gaps;
    hide Split;
    assert m.base == m.ring[0] < m.ring[i];
  }

  /** Where two members do not meet there is a gap. */
  lemma TightOk(m: Mem, i: nat, j: int)
    requires LooseOk(m, i, j) && (i == 0 || !Meet(m, i))
    ensures LooseOk(m, j, -1)
  {
    if i + 1 < |m.ring| {
      assert m.base == m.ring[0] && m.ring[i] < m.ring[i + 1];
      if i > 0 {
        MeetOk(m, i, i, j);
        assert m.ring[i] in m.ring && m.ring[i + 1] in m.ring;
        Apart(m.blocks, m.owner, m.ring[i], m.ring[i + 1]);
      }
      assert Gap(m.ring, m.size, i);
    }
  }

  /** A live block put on the ring after its k-th member, and joined to the one above if they meet. */
  ghost function Upper(m: Mem, k: nat, b: nat): Mem
    requires k < |m.ring| && m.ring[k] in m.ptr
  {
    var m1 := Inserted(m, k, b);
    if Meet(m1, k + 1) then Merged(m1, k + 1) else m1
  }

  /** The ring's k-th member joined to the next if they meet. */
  ghost function Lower(m: Mem, k: nat): Mem {
    if k > 0 && Meet(m, k) then Merged(m, k) else m
  }

  lemma InsertedAt(m: Mem, k: nat, b: nat)
    requires MemOk(m) && b in m.live && Follows(m.ring, k, b)
    ensures m.ring[k] in m.ptr && m.ring[k] in m.size && b in m.size && b in m.blocks
    ensures
      var m1 := Inserted(m, k, b);
      && |m1.ring| == |m.ring| + 1 && m1.ring[k] == m.ring[k] && m1.ring[k + 1] == b
      && (k + 1 < |m.ring| ==> m1.ring[k + 2] == m.ring[k + 1] == m.ptr[m.ring[k]])
      && (k + 1 == |m.ring| ==> m.ptr[m.ring[k]] == m.base < b)
  {
    assert Link(m.ring, m.ptr, k);
    assert m.ring[k] in m.ring && (k > 0 ==> m.ring[0] < m.ring[k]);
  }

  lemma UpperOk(m: Mem, k: nat, b: nat)
    requires MemOk(m) && b in m.live && Follows(m.ring, k, b)
    ensures m.ring[k] in m.ptr && m.ring[k] in m.size && b in m.size
    ensures
      var m2, p := Upper(m, k, b), m.ring[k];
      var q := m.ptr[p];
      && LooseOk(m2, k, -1) && k + 1 < |m2.ring| && m2.ring[k] == p && m2.ring[k + 1] == b
      && m2.live == m.live - {b} && m2.owner.Keys == m.owner.Keys && m2.base == m.base
      && (b + m.size[b] == q ==> q in m.size && q in m.ptr && p != q)
      && m2.size == (if b + m.size[b] == q then m.size[b := m.size[b] + m.size[q]] else m.size)
      && m2.ptr == m.ptr[b := if b + m.size[b] == q then m.ptr[q] else q][p := b]
  {
    hide LooseOk;
    hide With;
    hide Without;
    hide Repaint;
    hide Joined;
    InsertedAt(m, k, b);
    InsertOk(m, k, b);
    var m1 := Inserted(m, k, b);
    if k + 1 < |m.ring| {
      MeetOk(m1, k + 1, k + 1, k);
    }
    if Meet(m1, k + 1) {
      MergeOk(m1, k + 1, k);
    } else {
      TightOk(m1, k + 1, k);
    }
  }

  lemma LowerOk(m: Mem, k: nat)
    requires LooseOk(m, k, -1) && k + 1 < |m.ring|
    ensures m.ring[k] in m.ptr && m.ring[k] in m.size && m.ring[k + 1] in m.ptr && m.ring[k + 1] in m.size
    ensures
      var m', p, b := Lower(m, k), m.ring[k], m.ring[k + 1];
      && MemOk(m') && p in m'.ring && m'.live == m.live && m'.owner.Keys == m.owner.Keys && m'.base == m.base
      && m'.size == (if p + m.size[p] == b then m.size[p := m.size[p] + m.size[b]] else m.size)
      && m'.ptr == (if p + m.size[p] == b then m.ptr[p := m.ptr[b]] else m.ptr)
  {
    hide LooseOk;
    hide Without;
    hide Repaint;
    hide Joined;
    LowerFields(m, k);
    if k > 0 && Meet(m, k) {
      MergeOk(m, k, -1);
      assert m.ring[..k + 1][k] == Merged(m, k).ring[k];
    } else {
      TightOk(m, k, -1);
    }
  }

  lemma LowerFields(m: Mem, k: nat)
    requires LooseOk(m, k, -1) && k + 1 < |m.ring|
    ensures m.ring[k] in m.ptr && m.ring[k] in m.size && m.ring[k + 1] in m.ptr && m.ring[k + 1] in m.size
    ensures m.ring[k] + m.size[m.ring[k]] == m.ring[k + 1] <==> k > 0 && Meet(m, k)
  {
    hide Tiles;
    assert Link(m.ring, m.ptr, k) && Link(m.ring, m.ptr, k + 1);
    assert m.ring[k] in m.ring && m.ring[k + 1] in m.ring;
    assert m.base == m.ring[0] < m.ring[k + 1] && m.ring[k] < m.ring[k + 1] && (k > 0 ==> m.ring[0] < m.ring[k]);
  }

  /** How many steps along a ring of n take i to t. */
  function Dist(i: nat, t: nat, n: nat): int { if i <= t then t - i else t + n - i }

  /** The place of x on the ring. */
  function Place(ring: seq<nat>, x: nat): (k: nat)
    requires |ring| > 0
    ensures k < |ring| && (k > 0 ==> ring[k] < x) && (k + 1 < |ring| ==> x <= ring[k + 1])
  {
    if |ring| == 1 || ring[|ring| - 1] < x then |ring| - 1 else Place(ring[..|ring| - 1], x)
  }

  /** How many steps forward, at least one, take i to t. */
  function Ahead(i: nat, t: nat, n: nat): int { if t > i then t - i else t - i + n }

  lemma PlaceFollows(m: Mem, b: nat)
    requires MemOk(m) && b in m.live
    ensures Follows(m.ring, Place(m.ring, b), b)
  {
    LiveSize(m, b);
    var k := Place(m.ring, b);
    assert m.ring[0] == m.base < b;
    assert k + 1 < |m.ring| ==> m.ring[k + 1] in m.ring;
  }

  /** What free's search finds at the ring's k-th member: it stops at b's place and nowhere else. */
  lemma SearchStep(m: Mem, b: nat, k: nat, t: nat)
    requires MemOk(m) && b in m.live && Follows(m.ring, t, b) && k < |m.ring|
    ensures
      var p := m.ring[k];
      && p in m.ptr && m.ptr[p] == m.ring[Succ(k, |m.ring|)]
      && ((b > p && b < m.ptr[p]) || (p >= m.ptr[p] && (b > p || b < m.ptr[p])) <==> k == t)
      && (k != t ==> 0 <= Dist(Succ(k, |m.ring|), t, |m.ring|) < Dist(k, t, |m.ring|))
  {
    assert Link(m.ring, m.ptr, k);
    LiveSize(m, b);
    hide LooseOk;
    assert Ascends(m.ring, m.base) by {
      AscendsOk(m);
    }
    assert k < t ==> m.ring[k] < m.ring[t] && (k + 1 < t ==> m.ring[k + 1] < m.ring[t]);
    assert t < k ==> m.ring[t + 1] == m.ring[k] || m.ring[t + 1] < m.ring[k];
    assert k > 0 ==> m.ring[0] < m.ring[k];
  }

  lemma AscendsOk(m: Mem)
    requires MemOk(m)
    ensures Ascends(m.ring, m.base)
  {
  }

  /** The ring's k-th member taken off it and handed out whole. */
  function Unlinked(m: Mem, k: nat): Mem
    requires 0 < k < |m.ring| && m.ring[k] in m.ptr && m.ring[k] in m.size
  {
    m.(
      ring := Without(m.ring, k),
      ptr := m.ptr[m.ring[k - 1] := m.ptr[m.ring[k]]],
      live := m.live[m.ring[k] := m.size[m.ring[k]]])
  }

  lemma UnlinkGaps(ring: seq<nat>, base: nat, size: map<nat, nat>, k: nat)
    requires Ascends(ring, base) && Gaps(ring, size, -1, -1) && 0 < k < |ring|
    ensures Gaps(Without(ring, k), size, -1, -1)
  {
    var r := Without(ring, k);
    forall i | 0 <= i < |r| - 1 ensures Gap(r, size, i) {
      assert Gap(ring, size, if i < k then i else i + 1);
      assert i == k - 1 ==> ring[k] < ring[k + 1];
    }
  }

  lemma UnlinkSplit(m: Mem, k: nat)
    requires MemOk(m) && 0 < k < |m.ring| && m.ring[k] in m.ptr && m.ring[k] in m.size
    ensures Split(Without(m.ring, k), m.base, Unlinked(m, k).live, m.blocks)
  {
    hide Tiles;
    hide Links;
    hide Gaps;
    hide Without;
    assert m.ring[0] < m.ring[k] && m.ring[k] in m.ring;
    WithoutMembers(m.ring, m.base, k);
  }

  lemma UnlinkOk(m: Mem, k: nat)
    requires MemOk(m) && 0 < k < |m.ring| && m.ring[k] in m.ptr && m.ring[k] in m.size
    ensures MemOk(Unlinked(m, k)) && m.ring[k - 1] in Unlinked(m, k).ring
  {
    hide Split;
    hide SizesOk;
    hide Tiles;
    hide Links;
    hide Ascends;
    hide Gaps;
    hide Without;
    UnlinkSplit(m, k);
    MergeLinks(m.ring, m.base, m.ptr, k - 1);
    UnlinkGaps(m.ring, m.base, m.size, k);
    assert Without(m.ring, k)[..k] == m.ring[..k];
    assert m.ring[k - 1] == m.ring[..k][k - 1] == Without(m.ring, k)[k - 1];
  }

  /** n units cut off the upper end of the ring's k-th member and handed out. */
  function Carved(m: Mem, k: nat, n: nat): Mem
    requires k < |m.ring| && m.ring[k] in m.size && m.ring[k] in m.blocks
    requires m.size[m.ring[k]] == m.blocks[m.ring[k]] > n
  {
    var a := m.ring[k];
    var c := a + m.size[a] - n;
    m.(
      size := m.size[a := m.size[a] - n][c := n],
      live := m.live[c := n],
      blocks := Cut(m.blocks, a, n),
      owner := Repaint(m.owner, c, c + n, c))
  }

  lemma CarveGaps(ring: seq<nat>, size: map<nat, nat>, size': map<nat, nat>)
    requires Gaps(ring, size, -1, -1)
    requires forall a :: a in ring ==> a in size && a in size' && size'[a] <= size[a]
    ensures Gaps(ring, size', -1, -1)
  {
    forall i | 0 <= i < |ring| - 1 ensures Gap(ring, size', i) {
      assert Gap(ring, size, i) && ring[i] in ring;
    }
  }

  /** The ring's members have sizes, and all but base are blocks. */
  lemma MemberSize(m: Mem, k: nat)
    requires MemOk(m) && k < |m.ring|
    ensures m.ring[k] in m.size && m.ring[k] in m.ptr && m.ptr[m.ring[k]] == m.ring[Succ(k, |m.ring|)]
    ensures m.size[m.ring[k]] > 0 ==> k > 0 && m.ring[k] in m.blocks && m.size[m.ring[k]] == m.blocks[m.ring[k]]
  {
    hide Tiles;
    hide Gaps;
    assert Link(m.ring, m.ptr, k) && m.ring[k] in m.ring;
    assert k > 0 ==> m.ring[0] < m.ring[k];
  }

  lemma CarveOk(m: Mem, k: nat, n: nat)
    requires MemOk(m) && k < |m.ring| && m.ring[k] in m.size && m.size[m.ring[k]] > n > 0
    ensures m.ring[k] in m.blocks && m.size[m.ring[k]] == m.blocks[m.ring[k]]
    ensures MemOk(Carved(m, k, n))
  {
    hide Tiles;
    hide Gaps;
    hide Links;
    hide Ascends;
    hide Split;
    hide SizesOk;
    hide Repaint;
    hide Cut;
    MemberSize(m, k);
    CutTiles(m.blocks, m.owner, m.ring[k], n);
    CarveSplit(m, k, n);
    CarveGaps(m.ring, m.size, Carved(m, k, n).size);
  }

  lemma CarveSplit(m: Mem, k: nat, n: nat)
    requires MemOk(m) && k < |m.ring| && m.ring[k] in m.size && m.ring[k] in m.blocks && n > 0
    requires m.size[m.ring[k]] == m.blocks[m.ring[k]] > n
    requires m.ring[k] + m.size[m.ring[k]] - n !in m.blocks
    ensures
      var m' := Carved(m, k, n);
      && Split(m.ring, m.base, m'.live, m'.blocks) && SizesOk(m.base, m'.size, m'.blocks)
      && forall a :: a in m.ring ==> a in m.size && a in m'.size && m'.size[a] <= m.size[a]
  {
    hide Tiles;
    hide Gaps;
    hide Links;
    assert m.ring[k] in m.ring;
  }

  ghost predicate Answer(base: nat, owner: map<nat, nat>, nu: nat, sbrk: Option<nat>) {
    sbrk.Some? ==> sbrk.value > base && forall u :: u in owner ==> u < sbrk.value
  }

  /** morecore asks for 4096 units or more. */
  function Least(nu: nat): nat { if nu < 4096 then 4096 else nu }

  /** The request for nu units as sbrk's signed 32-bit argument sees it. */
  function Request(nu: nat): int {
    var bytes := nu * 8 % UINT;
    if bytes < UINT / 2 then bytes else bytes - UINT
  }

  /** Header and payload of nbytes, in units, in 32-bit arithmetic. */
  function Needed(nbytes: nat): (n: nat)
    ensures 0 < n <= 0x2000_0000
  {
    (nbytes + 7) % UINT / 8 + 1
  }

  /** A block is large enough for its bytes unless the rounding wraps round, and never a unit too large. */
  lemma NeededEnough(nbytes: nat)
    requires nbytes < UINT
    ensures 8 * (Needed(nbytes) - 1) >= nbytes <==> nbytes <= UINT - 8
    ensures 8 * (Needed(nbytes) - 2) < nbytes || Needed(nbytes) == 1
  {
  }

  /** sbrk sees what morecore meant exactly for requests below 2^28 units. */
  lemma RequestProper(nu: nat)
    requires 0 < nu <= 0x2000_0000
    ensures Request(nu) == 8 * nu <==> nu < 0x1000_0000
  {
  }

  /**
   * What the process has after sbrk is asked for nu units at addr, the end of what it has: as much
   * more as the signed argument says, or less than before if that is negative.
   */
  ghost function Granted(given: set<nat>, addr: nat, nu: nat): set<nat> {
    if Request(nu) >= 0 then given + Units(addr, Request(nu) / 8)
    else set u | u in given && 8 * u < 8 * addr + Request(nu)
  }

  /** The process gets what morecore meant exactly for requests below 2^28 units. */
  lemma GrantedAll(given: set<nat>, addr: nat, nu: nat)
    requires 0 < nu <= 0x2000_0000 && forall u :: u in given ==> u < addr
    ensures given + Units(addr, nu) == Granted(given, addr, nu) <==> nu < 0x1000_0000
  {
    RequestProper(nu);
    if nu >= 0x1000_0000 {
      assert addr + nu - 1 in given + Units(addr, nu);
      assert addr + nu - 1 !in Granted(given, addr, nu);
    }
  }

  /** The largest request wraps round to nothing at all. */
  lemma RequestWraps()
    ensures Needed(UINT - 8) == 0x2000_0000 && Request(Needed(UINT - 8)) == 0
  {
  }

  lemma ExtendOk(m: Mem, p: nat, n: nat)
    requires MemOk(m) && n > 0 && p > m.base && forall u :: u in m.owner ==> u < p
    ensures
      && p !in m.live
      && MemOk(m.(size := m.size[p := n], blocks := m.blocks[p := n],
                  owner := Extended(m.owner, p, n), live := m.live[p := n]))
  {
    hide Links;
    hide Ascends;
    hide Extended;
    hide Tiles;
    hide Gaps;
    ExtendTiles(m.blocks, m.owner, p, n);
    CarveGaps(m.ring, m.size, m.size[p := n]);
  }

  /** The heap before anything is on it. */
  lemma BaseOk(m: Mem)
    requires m.ring == [m.base] && m.live == m.blocks == m.owner == map[]
    requires m.base in m.ptr && m.ptr[m.base] == m.base && m.base in m.size && m.size[m.base] == 0
    ensures MemOk(m)
  {
  }

  /** malloc's search stands at the ring's k-th member, having started after the f-th. */
  ghost predicate Searching(m: Mem, freep: nat, prevp: nat, p: nat, f: int, k: int) {
    && 0 <= f < |m.ring| && m.ring[f] == freep && freep in m.size
    && 0 <= k < |m.ring| && m.ring[k] == p && p in m.size && p in m.ptr
    && prevp == m.ring[if k == 0 then |m.ring| - 1 else k - 1]
  }

  lemma SearchNext(m: Mem, freep: nat, f: nat, k: nat)
    requires MemOk(m) && f < |m.ring| && m.ring[f] == freep && k < |m.ring|
    ensures m.ring[k] in m.ptr && Searching(m, freep, m.ring[k], m.ptr[m.ring[k]], f, Succ(k, |m.ring|))
  {
    hide LooseOk;
    MemberSize(m, f);
    MemberSize(m, k);
    MemberSize(m, Succ(k, |m.ring|));
  }

  ghost predicate Small(m: Mem, i: nat, n: nat)
    requires i < |m.ring|
  {
    m.ring[i] in m.size && m.size[m.ring[i]] < n
  }

  /** None of the ring's members after the f-th and before the k-th is large enough. */
  ghost predicate Unfit(m: Mem, f: nat, k: nat, n: nat) {
    forall i: nat :: i < |m.ring| && Ahead(f, i, |m.ring|) < Ahead(f, k, |m.ring|) ==> Small(m, i, n)
  }

  ghost predicate NoneFits(m: Mem, n: nat) {
    forall a :: a in m.blocks && a !in m.live ==> m.blocks[a] < n
  }

  /** The n units at a are the upper end of the first free block after freep that has as many; prev is before it. */
  ghost predicate FirstFit(m: Mem, freep: nat, a: nat, n: nat, prev: nat) {
    exists f: nat, k: nat ::
      && f < |m.ring| && k < |m.ring| && m.ring[f] == freep && Unfit(m, f, k, n)
      && m.ring[if k == 0 then |m.ring| - 1 else k - 1] == prev
      && m.ring[k] in m.size && a + n == m.ring[k] + m.size[m.ring[k]] && m.size[m.ring[k]] >= n
  }

  lemma AdvanceOk(m: Mem, f: nat, k: nat, n: nat)
    requires MemOk(m) && f < |m.ring| && k < |m.ring|
    ensures m.ring[k] in m.size && m.ring[k] in m.ptr && m.ptr[m.ring[k]] == m.ring[Succ(k, |m.ring|)]
    ensures m.ptr[m.ring[k]] in m.size && m.ptr[m.ring[k]] in m.ptr
    ensures m.ring[f] == m.ring[k] <==> f == k
    ensures f != k && Unfit(m, f, k, n) && m.size[m.ring[k]] < n ==> Unfit(m, f, Succ(k, |m.ring|), n)
    ensures Unfit(m, f, Succ(f, |m.ring|), n)
    ensures f != k ==> Ahead(f, k, |m.ring|) < Ahead(f, Succ(k, |m.ring|), |m.ring|)
  {
    hide Tiles;
    hide Gaps;
    MemberSize(m, k);
    MemberSize(m, Succ(k, |m.ring|));
    if f != k && Unfit(m, f, k, n) && m.size[m.ring[k]] < n {
      forall i: nat | i < |m.ring| && Ahead(f, i, |m.ring|) < Ahead(f, Succ(k, |m.ring|), |m.ring|)
        ensures Small(m, i, n)
      {
        assert i == k || Ahead(f, i, |m.ring|) < Ahead(f, k, |m.ring|);
      }
    }
  }

  lemma FirstFitOk(m: Mem, freep: nat, f: nat, k: nat, n: nat)
    requires f < |m.ring| && k < |m.ring| && m.ring[f] == freep && Unfit(m, f, k, n)
    requires m.ring[k] in m.size && m.size[m.ring[k]] >= n
    ensures FirstFit(m, freep, m.ring[k] + m.size[m.ring[k]] - n, n, m.ring[if k == 0 then |m.ring| - 1 else k - 1])
  {
  }

  lemma NoneFitsOk(m: Mem, f: nat, n: nat)
    requires MemOk(m) && f < |m.ring| && Unfit(m, f, f, n) && Small(m, f, n)
    ensures NoneFits(m, n)
  {
    hide Tiles;
    hide Gaps;
    hide Links;
    forall a | a in m.blocks && a !in m.live ensures m.blocks[a] < n {
      assert a in m.ring;
      var i :| 0 <= i < |m.ring| && m.ring[i] == a;
      assert i == f || Ahead(f, i, |m.ring|) < Ahead(f, f, |m.ring|);
      assert Small(m, i, n);
    }
  }

  lemma NotLive(m: Mem, k: nat, n: nat)
    requires MemOk(m) && k < |m.ring| && m.ring[k] in m.size && m.size[m.ring[k]] >= n > 0
    ensures m.ring[k] !in m.live && m.ring[k] + m.size[m.ring[k]] - n !in m.live
  {
    MemberSize(m, k);
    assert m.ring[k] in m.ring;
    OneBlock(m.blocks, m.owner, m.ring[k] + m.size[m.ring[k]] - n, m.ring[k], m.ring[k] + m.size[m.ring[k]] - n);
  }

  lemma LiveSize(m: Mem, a: nat)
    requires MemOk(m) && a in m.live
    ensures a in m.size && m.size[a] == m.live[a] > 0 && a > m.base && a !in m.ring
  {
  }

  /** Ring members have fields, and what follows one is a ring member. */
  lemma RingPos(m: Mem, p: nat)
    requires MemOk(m) && p in m.ring
    ensures p in m.ptr && p in m.size && m.ptr[p] in m.ring && m.ptr[p] in m.size && m.ptr[p] in m.ptr && p >= m.base
  {
    var i :| 0 <= i < |m.ring| && m.ring[i] == p;
    assert Link(m.ring, m.ptr, i) && Link(m.ring, m.ptr, Succ(i, |m.ring|));
    assert m.ring[Succ(i, |m.ring|)] in m.ring;
    assert i > 0 ==> m.ring[0] < m.ring[i];
  }

  /**
   * What every state promises: a unit obtained from sbrk is in exactly one block, free or live,
   * and blocks have no other units; live blocks do not overlap; no two free blocks are adjacent.
   */
  lemma Partition(m: Mem, a: nat, b: nat, u: nat)
    requires MemOk(m)
    ensures u in m.owner <==> exists c: nat :: Within(m.blocks, u, c)
    ensures Within(m.blocks, u, a) && Within(m.blocks, u, b) ==> a == b
    ensures a in m.live && b in m.live && a < b ==> a + m.live[a] <= b
    ensures a in m.blocks && b in m.blocks && a !in m.live && b !in m.live ==> a + m.blocks[a] != b
  {
    OneBlock(m.blocks, m.owner, u, a, b);
    if a in m.live && b in m.live && a < b {
      Apart(m.blocks, m.owner, a, b);
    }
    if a in m.blocks && b in m.blocks && a !in m.live && b !in m.live {
      NoNeighbours(m, a, b);
    }
  }

  lemma NoNeighbours(m: Mem, a: nat, b: nat)
    requires MemOk(m) && a in m.blocks && b in m.blocks && a !in m.live && b !in m.live
    ensures a + m.blocks[a] != b
  {
    hide Links;
    hide Tiles;
    assert a in m.ring && b in m.ring;
    var i :| 0 <= i < |m.ring| && m.ring[i] == a;
    var j :| 0 <= j < |m.ring| && m.ring[j] == b;
    if i < j {
      assert Gap(m.ring, m.size, i);
      assert i + 1 < j ==> m.ring[i + 1] < m.ring[j];
    } else if j < i {
      assert m.ring[j] < m.ring[i];
    } else {
      Positive(m, a);
    }
  }

  lemma Positive(m: Mem, a: nat)
    requires MemOk(m) && a in m.blocks
    ensures m.blocks[a] > 0
  {
  }

  class Allocator {
    const base: nat
    var size: map<nat, nat>
    var ptr: map<nat, nat>
    /** 0 before the first malloc. */
    var freep: nat
    ghost var ring: seq<nat>
    ghost var live: map<nat, nat>
    ghost var blocks: map<nat, nat>
    ghost var owner: map<nat, nat>
    /** The units that sbrk has given the process. */
    ghost var given: set<nat>

    ghost function Snap(): Mem
      reads this
    {
      Mem(base, size, ptr, ring, live, blocks, owner)
    }

    ghost predicate Valid()
      reads this
    {
      && base > 0
      && if freep == 0 then ring == [] && live == blocks == owner == map[] else freep in ring && MemOk(Snap())
    }

    constructor (base: nat)
      requires base > 0
      ensures Valid() && this.base == base && live == map[] && owner == map[] && given == {}
    {
      this.base, size, ptr, freep := base, map[], map[], 0;
      ring, live, blocks, owner, given := [], map[], map[], map[], {};
    }

    /** Puts the block at bp on the ring after p, and joins it to its neighbours. */
    method Splice(p: nat, bp: nat, ghost k: nat)
      requires freep != 0 && Valid() && bp in live && Follows(ring, k, bp) && p == ring[k]
      modifies `size, `ptr, `freep, `ring, `live, `blocks, `owner
      ensures freep == p != 0 && Valid() && live == old(live) - {bp} && owner.Keys == old(owner).Keys
      ensures Room(old(live[bp]))
    {
      hide LooseOk;
      hide Upper;
      hide Lower;
      ghost var m := Snap();
      ghost var n := live[bp];
      UpperOk(m, k, bp);
      ghost var m2 := Upper(m, k, bp);
      LowerOk(m2, k);
      ghost var m3 := Lower(m2, k);
      LiveSize(m, bp);
      if bp + size[bp] == ptr[p] {
        size := size[bp := size[bp] + size[ptr[p]]];
        ptr := ptr[bp := ptr[ptr[p]]];
      } else {
        ptr := ptr[bp := ptr[p]];
      }
      assert size == m2.size && ptr[p := bp] == m2.ptr;
      if p + size[p] == bp {
        size := size[p := size[p] + size[bp]];
        ptr := ptr[p := ptr[bp]];
      } else {
        ptr := ptr[p := bp];
      }
      assert size == m3.size && ptr == m3.ptr;
      freep := p;
      ring, live, blocks, owner := m3.ring, m3.live, m3.blocks, m3.owner;
      assert Snap() == m3;
      RingPos(m3, p);
    }

    /** The place the next search starts from, or the one after it, has n units. */
    ghost predicate Room(n: nat)
      reads this
    {
      freep in ptr && freep in size && ptr[freep] in size && (size[ptr[freep]] >= n || size[freep] >= n)
    }

    /** Gives a live block back; the search ends, and nothing else changes hands. */
    method Free(ap: nat)
      requires Valid() && ap > 0 && ap - 1 in live
      modifies `size, `ptr, `freep, `ring, `live, `blocks, `owner
      ensures Valid() && live == old(live) - {ap - 1} && owner.Keys == old(owner).Keys
      ensures freep != 0 && Room(old(live[ap - 1]))
    {
      hide LooseOk;
      var bp := ap - 1;
      var p := freep;
      ghost var m := Snap();
      ghost var t := Place(ring, bp);
      PlaceFollows(m, bp);
      ghost var k :| 0 <= k < |ring| && ring[k] == p;
      SearchStep(m, bp, k, t);
      while !(bp > p && bp < ptr[p])
        invariant 0 <= k < |m.ring| && Snap() == m && p == m.ring[k] && p in ptr && freep == old(freep)
        decreases Dist(k, t, |m.ring|)
      {
        SearchStep(m, bp, k, t);
        if p >= ptr[p] && (bp > p || bp < ptr[p]) {
          break;
        }
        p := ptr[p];
        k := Succ(k, |ring|);
        SearchStep(m, bp, k, t);
      }
      SearchStep(m, bp, k, t);
      Splice(p, bp, k);
    }

    /** Asks for memory, and puts what it gets on the ring as a block. */
    method Morecore(nu: nat, sbrk: Option<nat>) returns (r: nat)
      requires Valid() && freep != 0 && nu > 0 && Proper(nu, sbrk)
      modifies this
      ensures Valid() && freep != 0 && live == old(live)
      ensures sbrk.None? ==> r == 0 && freep == old(freep) && Snap() == old(Snap()) && given == old(given)
      ensures sbrk.Some? ==> given == Granted(old(given), sbrk.value, Least(nu))
      ensures sbrk.Some? ==>
        r == freep && Room(nu) && owner.Keys == old(owner).Keys + Units(sbrk.value, Least(nu))
    {
      hide LooseOk;
      hide Extended;
      hide Units;
      hide Request;
      var n := if nu < 4096 then 4096 else nu;
      if sbrk.None? {
        return 0;
      }
      var hp := sbrk.value;
      ExtendOk(Snap(), hp, n);
      size := size[hp := n];
      blocks, owner, live := blocks[hp := n], Extended(owner, hp, n), live[hp := n];
      given := Granted(given, hp, n);
      Free(hp + 1);
      assert live == old(live);
      return freep;
    }

    /** What sbrk may answer: an address above all that is on the heap. */
    ghost predicate Proper(nu: nat, sbrk: Option<nat>)
      reads this
    {
      Answer(base, owner, nu, sbrk)
    }

    /** Hands out the ring's k-th member whole. */
    method TakeWhole(prevp: nat, p: nat, ghost k: nat)
      requires Valid() && freep != 0 && 0 < k < |ring| && p == ring[k] && prevp == ring[k - 1]
      requires p in size && size[p] > 0
      modifies `size, `ptr, `freep, `ring, `live, `blocks, `owner
      ensures Valid() && p !in old(live) && live == old(live)[p := old(size[p])] && owner.Keys == old(owner).Keys
      ensures freep == prevp != 0
    {
      hide LooseOk;
      hide Without;
      ghost var m := Snap();
      MemberSize(m, k);
      NotLive(m, k, size[p]);
      UnlinkOk(m, k);
      RingPos(m, prevp);
      ptr := ptr[prevp := ptr[p]];
      ghost var m' := Unlinked(m, k);
      ring, live := m'.ring, m'.live;
      freep := prevp;
      assert Snap() == m';
    }

    /** Hands out the upper n units of the ring's k-th member. */
    method TakePart(prevp: nat, p: nat, n: nat, ghost k: nat) returns (q: nat)
      requires Valid() && freep != 0 && n > 0 && 0 <= k < |ring| && p == ring[k] && prevp in ring
      requires p in size && size[p] > n
      modifies `size, `ptr, `freep, `ring, `live, `blocks, `owner
      ensures Valid() && q !in old(live) && live == old(live)[q := n] && owner.Keys == old(owner).Keys
      ensures q == p + old(size[p]) - n && freep == prevp != 0
    {
      hide LooseOk;
      hide Repaint;
      hide Cut;
      ghost var m := Snap();
      MemberSize(m, k);
      NotLive(m, k, n);
      RingPos(m, prevp);
      CarveOk(m, k, n);
      ghost var m' := Carved(m, k, n);
      size := size[p := size[p] - n];
      q := p + size[p];
      size := size[q := n];
      live, blocks, owner := m'.live, m'.blocks, m'.owner;
      freep := prevp;
      assert Snap() == m';
    }

    /** Malloc's loop: finds the first member of the ring with n units, asking for more if there is none. */
    method Search(n: nat, sbrk: Option<nat>) returns (found: bool, prevp: nat, p: nat, ghost k: int, ghost asked: bool)
      requires Valid() && freep != 0 && n > 0 && Proper(n, sbrk)
      modifies this
      ensures Valid() && freep != 0 && live == old(live)
      ensures found ==> 0 < k < |ring| && ring[k] == p && ring[k - 1] == prevp && p in size && size[p] >= n
      ensures !found <==> asked && sbrk.None?
      ensures given == if asked && sbrk.Some? then Granted(old(given), sbrk.value, Least(n)) else old(given)
      ensures asked ==> NoneFits(old(Snap()), n)
      ensures !asked ==> Snap() == old(Snap()) && FirstFit(Snap(), old(freep), p + size[p] - n, n, prevp)
      ensures owner.Keys == old(owner).Keys + (if asked && sbrk.Some? then Units(sbrk.value, Least(n)) else {})
    {
      hide LooseOk;
      hide Units;
      hide Request;
      hide NoneFits;
      hide FirstFit;
      hide Unfit;
      hide Least;
      hide Answer;
      hide Succ;
      hide Granted;
      ghost var m := Snap();
      ghost var f :| 0 <= f < |ring| && ring[f] == freep;
      prevp, k, asked := freep, Succ(f, |ring|), false;
      AdvanceOk(m, f, f, n);
      SearchNext(m, freep, f, f);
      p := ptr[prevp];
      while true
        invariant Valid() && freep != 0 && live == old(live)
        invariant Searching(Snap(), freep, prevp, p, f, k)
        invariant asked ==>
          && sbrk.Some? && NoneFits(old(Snap()), n) && owner.Keys == old(owner).Keys + Units(sbrk.value, Least(n))
        invariant given == if asked then Granted(old(given), sbrk.value, Least(n)) else old(given)
        invariant asked ==> (k == Succ(f, |ring|) && size[p] >= n) || size[freep] >= n
        invariant !asked ==> Snap() == m && freep == old(freep) && Unfit(m, f, k, n)
        decreases !asked, |ring| - Ahead(f, k, |ring|)
      {
        AdvanceOk(Snap(), f, k, n);
        if size[p] >= n {
          break;
        }
        if p == freep {
          assert owner == m.owner;
          NoneFitsOk(m, f, n);
          asked := true;
          p := Morecore(n, sbrk);
          if p == 0 {
            return false, 0, 0, 0, true;
          }
          f :| 0 <= f < |ring| && ring[f] == freep;
          k := f;
          AdvanceOk(Snap(), f, k, n);
        }
        SearchNext(Snap(), freep, f, k);
        prevp := p;
        p := ptr[p];
        k := Succ(k, |ring|);
      }
      found := true;
      MemberSize(Snap(), k);
      if !asked {
        FirstFitOk(m, freep, f, k, n);
      }
    }

    /**
     * First fit from freep on. Hands out a block of what is needed, live from now on and not
     * before; or 0, when no free block is large enough and sbrk refused. sbrk is asked once at
     * most, and only when no free block is large enough. While the heap is just what sbrk has given,
     * it stays so exactly if the request is below 2^28 units.
     */
    method Malloc(nbytes: nat, sbrk: Option<nat>) returns (r: nat, ghost asked: bool)
      requires Valid() && nbytes < UINT && Proper(Needed(nbytes), sbrk)
      modifies this
      ensures Valid()
      ensures r != 0 ==> r - 1 !in old(live) && live == old(live)[r - 1 := Needed(nbytes)]
      ensures r == 0 <==> asked && sbrk.None?
      ensures r == 0 ==> live == old(live)
      ensures old(owner.Keys == given) ==>
        (owner.Keys == given <==> !asked || sbrk.None? || Least(Needed(nbytes)) < 0x1000_0000)
      ensures owner.Keys ==
        old(owner).Keys + (if asked && sbrk.Some? then Units(sbrk.value, Least(Needed(nbytes))) else {})
      ensures asked ==> NoneFits(old(Snap()), Needed(nbytes))
      ensures !asked ==> r != 0 && FirstFit(old(Snap()), old(freep), r - 1, Needed(nbytes), freep)
    {
      hide LooseOk;
      hide Units;
      hide Request;
      hide Needed;
      hide FirstFit;
      var nunits := Needed(nbytes);
      if freep == 0 {
        ptr, freep := ptr[base := base], base;
        size := size[base := 0];
        ring := [base];
        BaseOk(Snap());
      }
      var found, prevp, p;
      ghost var k;
      found, prevp, p, k, asked := Search(nunits, sbrk);
      if asked && sbrk.Some? {
        GrantedAll(old(owner.Keys), sbrk.value, Least(nunits));
      }
      if !found {
        return 0, asked;
      }
      MemberSize(Snap(), k);
      if size[p] == nunits {
        TakeWhole(prevp, p, k);
      } else {
        p := TakePart(prevp, p, nunits, k);
      }
      r := p + 1;
    }
  }
}
