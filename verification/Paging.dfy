/** The frame allocator and the page-table operations on physical memory. */
module Paging {
  import opened Common
  import opened PageTables

  const KERNBASE := 0x8000_0000

  /** The kernel's address of frame f. */
  function Addr(f: nat): nat { KERNBASE + f * PGSIZE }

  /** PHYSTOP, in frames. */
  const FRAMES := 0xE000

  /** The address of the k-th member of the free list, or 0 after the last. */
  function LinkTo(free: seq<nat>, k: nat): nat { if k < |free| then Addr(free[k]) else 0 }

  ghost predicate Linked(mem: seq<Frame>, free: seq<nat>, k: nat)
    requires k < |free|
  {
    free[k] < |mem| && mem[free[k]][0] == LinkTo(free, k + 1)
  }

  /** The list threads exactly the free frames, each once. */
  ghost predicate ListOk(mem: seq<Frame>, role: seq<Role>, free: seq<nat>, freelist: nat) {
    && |role| == |mem|
    && (forall f :: 0 <= f < |mem| ==> (role[f] == Free <==> f in free))
    && (forall k :: 0 <= k < |free| ==> Linked(mem, free, k))
    && (forall j, k :: 0 <= j < k < |free| ==> free[j] != free[k])
    && freelist == LinkTo(free, 0)
  }

  /** Frames in use may change as they like. */
  lemma ListKept(mem: seq<Frame>, mem': seq<Frame>, role: seq<Role>, role': seq<Role>, free: seq<nat>, freelist: nat)
    requires ListOk(mem, role, free, freelist) && |mem'| == |mem| && |role'| == |role|
    requires forall f :: 0 <= f < |mem| ==>
      (role'[f] == Free <==> role[f] == Free) && (role[f] == Free ==> mem'[f] == mem[f])
    ensures ListOk(mem', role', free, freelist)
  {
    forall k | 0 <= k < |free| ensures Linked(mem', free, k) {
      assert Linked(mem, free, k) && free[k] in free;
    }
  }

  lemma Pushed(mem: seq<Frame>, role: seq<Role>, free: seq<nat>, freelist: nat, f: nat, c: Frame)
    requires ListOk(mem, role, free, freelist) && f < |mem| && role[f] != Free && c[0] == freelist
    ensures ListOk(mem[f := c], role[f := Free], [f] + free, Addr(f))
  {
    var mem', free' := mem[f := c], [f] + free;
    forall k | 0 <= k < |free'| ensures Linked(mem', free', k) {
      if k > 0 {
        assert Linked(mem, free, k - 1) && free[k - 1] in free;
      }
    }
    assert forall k :: 0 <= k < |free| ==> free[k] in free;
  }

  /** After a frame on the list is pushed again the links go round in a circle. */
  lemma PushedTwice(mem: seq<Frame>, role: seq<Role>, free: seq<nat>, freelist: nat, f: nat, c: Frame, other: seq<nat>)
    requires ListOk(mem, role, free, freelist) && f < |mem| && f in free && c[0] == freelist
    ensures !ListOk(mem[f := c], role, other, Addr(f))
  {
    if ListOk(mem[f := c], role, other, Addr(f)) {
      var k :| 0 <= k < |free| && free[k] == f;
      assert Linked(mem[f := c], other, 0);
      var j := 0;
      while j < k
        invariant 0 <= j <= k && |other| > j + 1 && other[j + 1] == free[j]
      {
        assert Linked(mem, free, j) && Linked(mem[f := c], other, j + 1);
        j := j + 1;
      }
    }
  }

  lemma Popped(mem: seq<Frame>, role: seq<Role>, free: seq<nat>, freelist: nat)
    requires ListOk(mem, role, free, freelist) && free != []
    ensures free[0] < |mem| && role[free[0]] == Free && mem[free[0]][0] == LinkTo(free[1..], 0)
    ensures ListOk(mem, role[free[0] := Held], free[1..], LinkTo(free[1..], 0))
  {
    var f, free' := free[0], free[1..];
    assert Linked(mem, free, 0) && f in free;
    assert free == [f] + free';
    forall k | 0 <= k < |free'| ensures Linked(mem, free', k) {
      assert Linked(mem, free, k + 1);
    }
    assert f !in free' by {
      assert forall k :: 0 <= k < |free'| ==> free'[k] == free[k + 1];
    }
  }

  ghost predicate IsHeld(r: Ram, f: nat) { f < |r.role| == |r.mem| && r.role[f] == Held }

  /** Pages first up to next are mapped; of the free frames, had before and has now, the others are their tables. */
  ghost predicate MappedTo(r: Ram, had: nat, r': Ram, has: nat, d: nat, first: nat, next: nat, f: nat, perm: nat) {
    && MapsRange(r, r', d, first, next, f, perm) && HasTables(r, r', d, first, next)
    && first <= next && had == has + Tables(r, d, first, next)
  }

  ghost predicate AllMapped(r: Ram, d: nat, p0: nat, p: nat)
    requires d < |r.mem| && p <= USER
  {
    forall m :: p0 <= m < p ==> Mapped(r, d, m)
  }

  ghost predicate NoneMapped(r: Ram, d: nat, p0: nat, p: nat)
    requires d < |r.mem| && p <= USER
  {
    forall m :: p0 <= m < p ==> !Mapped(r, d, m)
  }

  /** The frames it takes to map pages p0 up to p: one for each page and each missing table. */
  ghost function FramesFor(r: Ram, d: nat, p0: nat, p: nat): nat
    requires d < |r.mem| && p <= ENTRIES * ENTRIES
  {
    if p <= p0 then 0 else p - p0 + Tables(r, d, p0, p)
  }

  lemma FramesGrow(r: Ram, d: nat, p0: nat, p: nat, end: nat)
    requires d < |r.mem| && p0 <= p <= end <= ENTRIES * ENTRIES
    ensures FramesFor(r, d, p0, p) <= FramesFor(r, d, p0, end)
  {
    TablesGrow(r, d, p0, p, end);
  }

  /** Pages p0 up to p are new, and the frames that went from the free list are theirs and their tables'. */
  ghost predicate Growing(r: Ram, had: nat, r': Ram, has: nat, d: nat, p0: nat, p: nat) {
    && Grew(r, r', d, p0, p) && HasTables(r, r', d, p0, p)
    && p0 <= p <= USER && had == has + (p - p0) + Tables(r, d, p0, p)
  }

  lemma GrewMapped(r: Ram, r': Ram, d: nat, p0: nat, p: nat)
    requires Grew(r, r', d, p0, p) && p <= USER
    ensures AllMapped(r', d, p0, p)
  {
    forall m | p0 <= m < p ensures Mapped(r', d, m) { assert Fresh(r, r', d, m, Filled(0)); }
  }

  lemma OkSizes(r: Ram)
    requires Ok(r)
    ensures |r.role| == |r.mem|
  {
  }

  /** When memory runs out at page p, no page from p0 on is mapped unless p0 is. */
  lemma OnlyFirst(r: Ram, r1: Ram, d: nat, p0: nat, p: nat, bad: nat, all: bool, end: nat)
    requires Intact(r, r1, d, p0, p) && r.role[d] == Dir && p0 <= p < end <= USER && NoneMapped(r, d, p0, end)
    requires !all ==> p0 <= bad && p == bad + 1 && !Mapped(r1, d, bad)
    requires p0 < p && (all || p0 < bad) ==> Mapped(r1, d, p0)
    ensures forall m :: p0 <= m < end && Mapped(r1, d, m) ==> Mapped(r1, d, p0)
  {
    forall m | p0 <= m < end && Mapped(r1, d, m) ensures Mapped(r1, d, p0) {
      if m >= p {
        assert Pte(r1, d, m) == Pte(r, d, m);
        assert !Mapped(r, d, m);
      }
    }
  }

  /** Taking a frame changes no directory. */
  lemma SameTables(r: Ram, r': Ram, d: nat, p: nat)
    requires d < |r.mem| == |r'.mem| && r.mem[d] == r'.mem[d] && p < ENTRIES * ENTRIES
    ensures Tables(r', d, p, p + 1) == Tables(r, d, p, p + 1)
  {
    assert Tables(r', d, p, p) == Tables(r, d, p, p) == 0;
  }

  lemma TablesAfter(r1: Ram, r2: Ram, r3: Ram, d: nat, p: nat)
    requires HasTables(r2, r3, d, p, p + 1) && |r1.mem| == |r2.mem| && r1.mem[d] == r2.mem[d]
    ensures HasTables(r1, r3, d, p, p + 1)
  {
  }

  lemma MapsBelow(r1: Ram, r2: Ram, r3: Ram, d: nat, p: nat, w: word, f: int)
    requires Keeps(r1, r2) && d < |r1.mem| && r1.role[d] == Dir && Maps(r2, r3, d, p, w, f)
    ensures |r3.mem| == |r1.mem| && forall m :: 0 <= m < p ==> Pte(r3, d, m) == Pte(r1, d, m)
    ensures Pte(r3, d, p) == w
  {
    forall m | 0 <= m < p ensures Pte(r3, d, m) == Pte(r1, d, m) { assert Pte(r2, d, m) == Pte(r1, d, m); }
  }

  lemma KeepsBelow(r1: Ram, r2: Ram, r3: Ram, d: nat)
    requires Keeps(r1, r2) && d < |r1.mem| && r1.role[d] == Dir && Keeps(r2, r3)
    ensures |r3.mem| == |r1.mem| && forall m :: 0 <= m < ENTRIES * ENTRIES ==> Pte(r3, d, m) == Pte(r1, d, m)
  {
    KeepsTransitive(r1, r2, r3);
  }

  /** A page whose table is missing is not mapped. */
  lemma NoTable(r: Ram, d: nat, p: nat)
    requires d < |r.mem| && p < ENTRIES * ENTRIES
    ensures Tables(r, d, p, p + 1) <= 1 && (Tables(r, d, p, p + 1) > 0 ==> !Mapped(r, d, p))
  {
    assert Tables(r, d, p, p) == 0;
  }

  lemma RangeSizes(r: Ram, r': Ram, d: nat, first: nat, next: nat, f: nat, perm: nat)
    requires MapsRange(r, r', d, first, next, f, perm) && first <= next
    ensures |r'.mem| == |r.mem| && Tables(r, d, first, first) == 0
  {
  }

  lemma ChildParent(r: Ram, r': Ram, c: nat, p: nat, d: nat)
    requires Child(r, r', c, p) && d < |r.mem| && r.role[d] == Dir
    ensures c != d && |r'.role| == |r.mem| == |r'.mem| && r'.role[d] == Dir
  {
  }

  /** The parent's page is as it was. */
  lemma ChildPage(r: Ram, r': Ram, c: nat, p: nat, d: nat, n: nat)
    requires Child(r, r', c, p) && Ok(r) && d < |r.mem| && r.role[d] == Dir && n < USER
    ensures |r'.mem| == |r.mem| && Pte(r', d, n) == Pte(r, d, n)
    ensures Mapped(r, d, n) ==>
      && FrameOf(Pte(r, d, n)) < |r.mem| && r'.mem[FrameOf(Pte(r, d, n))] == r.mem[FrameOf(Pte(r, d, n))]
  {
    assert PageOk(r, d, n);
  }

  lemma PageFacts(r: Ram, d: nat, n: nat)
    requires Ok(r) && d < |r.mem| && r.role[d] == Dir && n < USER
    ensures PageOk(r, d, n)
  {
  }

  /** What is free now was free at the start. */
  lemma ChildFree(r: Ram, r': Ram, c: nat, p: nat, f: nat)
    requires Child(r, r', c, p) && f < |r.mem| && r'.role[f] == Free
    ensures r.role[f] == Free && f != c
  {
  }

  /** A region of the kernel's address space. */
  datatype Region = Region(virt: nat, size: nat, phys: nat, perm: nat)

  const EXTMEM := 0x10_0000
  const PHYSTOP := 0xE00_0000
  const DEVSPACE := 0xFE00_0000

  /** Where the kernel's data begins, in physical memory. */
  predicate KernelEnd(data: nat) { EXTMEM < data < PHYSTOP && data % PGSIZE == 0 }

  function KernelMap(data: nat): (k: seq<Region>)
    requires KernelEnd(data)
    ensures |k| == 4 && forall i :: 0 <= i < 4 ==> RegionOk(k[i])
    ensures forall i :: 0 <= i < 3 ==> k[i].virt + k[i].size <= k[i + 1].virt
  {
    [
      Region(KERNBASE, EXTMEM, 0, 2),
      Region(KERNBASE + EXTMEM, data - EXTMEM, EXTMEM, 0),
      Region(KERNBASE + data, PHYSTOP - data, data, 2),
      Region(DEVSPACE, 0x1_0000_0000 - DEVSPACE, DEVSPACE, 2)
    ]
  }

  predicate RegionOk(k: Region) {
    && k.size > 0 && KERNBASE <= k.virt && k.virt + k.size <= 0x1_0000_0000 && k.phys % PGSIZE == 0
    && k.virt % PGSIZE == 0
    && k.phys + k.size <= 0x1_0000_0000 && k.perm in {0, 2}
  }

  /** The entry for page m once the first k regions are mapped. */
  function KernelPte(data: nat, k: nat, m: nat): word
    requires KernelEnd(data) && k <= 4
  {
    if k == 0 then 0
    else
      var g := KernelMap(data)[k - 1];
      if g.virt / PGSIZE <= m <= (g.virt + g.size - 1) / PGSIZE then
        RegionFrames(data, k - 1);
        MakeEntry(g.phys / PGSIZE + (m - g.virt / PGSIZE), g.perm)
      else KernelPte(data, k - 1, m)
  }

  lemma RegionFrames(data: nat, k: nat)
    requires KernelEnd(data) && k < 4
    ensures
      var g := KernelMap(data)[k];
      USER <= g.virt / PGSIZE && g.phys / PGSIZE + ((g.virt + g.size - 1) / PGSIZE - g.virt / PGSIZE) < 0x10_0000
  {
  }

  /** The last table that the first k regions need, of those for the machine's own memory. */
  function LastTable(data: nat, k: nat): nat
    requires KernelEnd(data) && k <= 4
  {
    if k == 0 then 511
    else if k == 4 then LastTable(data, 3)
    else
      var g := KernelMap(data)[k - 1];
      (g.virt + g.size - 1) / PGSIZE / ENTRIES
  }

  /** How many tables the first k regions need. */
  function KernelTables(data: nat, k: nat): int
    requires KernelEnd(data) && k <= 4
  {
    LastTable(data, k) - 511 + if k == 4 then 8 else 0
  }

  lemma KernelMost(data: nat, k: nat)
    requires KernelEnd(data) && k <= 4
    ensures 0 <= KernelTables(data, k) <= KernelTables(data, 4) == 64
  {
    DivDiv(KERNBASE + PHYSTOP - 1);
    DivDiv(KERNBASE + data - 1);
    assert LastTable(data, 4) == LastTable(data, 3) == 567;
    assert LastTable(data, 1) == 512;
    assert 511 <= LastTable(data, 2) <= 567;
  }

  lemma DivDiv(x: nat)
    ensures x / PGSIZE / ENTRIES == x / 0x40_0000
  {
  }

  /** Directory c has the first k regions mapped, and no other page, and just the tables for them. */
  ghost predicate KernelTo(r: Ram, c: nat, data: nat, k: nat)
    requires KernelEnd(data) && k <= 4
  {
    && c < |r.mem|
    && (forall m :: 0 <= m < ENTRIES * ENTRIES ==> Pte(r, c, m) == KernelPte(data, k, m))
    && forall i :: 0 <= i < ENTRIES ==>
      (Present(r.mem[c][i]) <==> 512 <= i <= LastTable(data, k) || (k == 4 && 1016 <= i))
  }

  lemma KernelStart(r: Ram, c: nat, data: nat)
    requires KernelEnd(data) && c < |r.mem| && r.mem[c] == Filled(0)
    ensures KernelTo(r, c, data, 0) && KernelTables(data, 0) == 0
  {
  }

  /** The tables of region k: those up to the l-th are there already. */
  lemma RegionSpan(data: nat, k: nat, l: int)
    requires KernelEnd(data) && k < 4 && l == if k == 3 then 1015 else LastTable(data, k)
    ensures
      var g := KernelMap(data)[k];
      var first, last := g.virt / PGSIZE / ENTRIES, (g.virt + g.size - 1) / PGSIZE / ENTRIES;
      && first - 1 <= l <= first && last < ENTRIES && KernelTables(data, k + 1) - KernelTables(data, k) == last - l
      && 512 <= first && (l == LastTable(data, k) || (LastTable(data, k) < first && l < first))
  {
    var g := KernelMap(data)[k];
    DivDiv(g.virt);
    DivDiv(g.virt + g.size - 1);
    KernelMost(data, k);
    if k > 0 {
      DivDiv(KernelMap(data)[k - 1].virt + KernelMap(data)[k - 1].size - 1);
    }
  }

  /** The next region takes as many tables as the count says. */
  lemma RegionTables(r: Ram, c: nat, data: nat, k: nat)
    requires KernelEnd(data) && k < 4 && KernelTo(r, c, data, k)
    ensures
      var g := KernelMap(data)[k];
      Tables(r, c, g.virt / PGSIZE, (g.virt + g.size - 1) / PGSIZE + 1) ==
        KernelTables(data, k + 1) - KernelTables(data, k)
  {
    hide LastTable;
    hide KernelTables;
    hide KernelPte;
    var g, l := KernelMap(data)[k], if k == 3 then 1015 else LastTable(data, k);
    RegionSpan(data, k, l);
    RegionFrames(data, k);
    TablesFresh(r, c, g.virt / PGSIZE, (g.virt + g.size - 1) / PGSIZE + 1, l);
  }

  lemma RegionUnmapped(r: Ram, c: nat, data: nat, k: nat, m: nat)
    requires KernelEnd(data) && k < 4 && KernelTo(r, c, data, k)
    requires KernelMap(data)[k].virt / PGSIZE <= m < ENTRIES * ENTRIES
    ensures !Mapped(r, c, m)
  {
    assert Pte(r, c, m) == KernelPte(data, k, m);
    KernelAbove(data, k, m);
  }

  lemma {:induction false} KernelAbove(data: nat, k: nat, m: nat)
    requires KernelEnd(data) && k < 4 && KernelMap(data)[k].virt / PGSIZE <= m
    ensures KernelPte(data, k, m) == 0
  {
    if k > 0 {
      KernelAbove(data, k - 1, m);
    }
  }

  lemma RegionStep(r: Ram, r': Ram, c: nat, data: nat, k: nat)
    requires KernelEnd(data) && k < 4 && KernelTo(r, c, data, k) && c < |r.role| && r.role[c] == Dir
    requires
      var g := KernelMap(data)[k];
      var first, next := g.virt / PGSIZE, (g.virt + g.size - 1) / PGSIZE + 1;
      MapsRange(r, r', c, first, next, g.phys / PGSIZE, g.perm) && HasTables(r, r', c, first, next)
    ensures KernelTo(r', c, data, k + 1)
  {
    forall m | 0 <= m < ENTRIES * ENTRIES ensures Pte(r', c, m) == KernelPte(data, k + 1, m) {
      assert Pte(r, c, m) == KernelPte(data, k, m);
    }
  }

  /**
   * What entry w of a page m from KERNBASE on must be: memory in order from KERNBASE, devices at
   * their own addresses, and nothing else; never the program's, and writable but for the kernel's text.
   */
  predicate KernelEntry(data: nat, m: nat, w: word) {
    && (Present(w) <==> m < USER + FRAMES || DEVSPACE / PGSIZE <= m)
    && (Present(w) ==>
      && FrameOf(w) == (if m < USER + FRAMES then m - USER else m)
      && !ForUser(w) && (Writable(w) <==> !(USER + EXTMEM / PGSIZE <= m < USER + data / PGSIZE)))
  }

  /** The kernel's half of directory c. */
  ghost predicate KernelHalf(r: Ram, c: nat, data: nat) {
    c < |r.mem| && forall m :: USER <= m < ENTRIES * ENTRIES ==> KernelEntry(data, m, Pte(r, c, m))
  }

  lemma KernelPage(data: nat, m: nat)
    requires KernelEnd(data) && USER <= m < ENTRIES * ENTRIES
    ensures KernelEntry(data, m, KernelPte(data, 4, m))
  {
    assert KernelPte(data, 0, m) == 0;
    assert KernelPte(data, 1, m) == if m < USER + EXTMEM / PGSIZE then MakeEntry(m - USER, 2) else 0;
    assert KernelPte(data, 2, m) ==
      if USER + EXTMEM / PGSIZE <= m < USER + data / PGSIZE then MakeEntry(m - USER, 0) else KernelPte(data, 1, m);
    assert KernelPte(data, 3, m) ==
      if USER + data / PGSIZE <= m < USER + FRAMES then MakeEntry(m - USER, 2) else KernelPte(data, 2, m);
  }

  lemma KernelDone(r: Ram, c: nat, data: nat)
    requires KernelEnd(data) && KernelTo(r, c, data, 4)
    ensures KernelHalf(r, c, data)
  {
    hide KernelPte;
    hide KernelEntry;
    forall m | USER <= m < ENTRIES * ENTRIES ensures KernelEntry(data, m, Pte(r, c, m)) {
      KernelPage(data, m);
    }
  }

  lemma KernelStays(r: Ram, r': Ram, c: nat, data: nat)
    requires KernelHalf(r, c, data) && KernelKept(r, r', c)
    ensures KernelHalf(r', c, data)
  {
  }

  /** The frames that copyuvm takes for p pages. */
  function CopyFrames(p: nat): nat { 65 + p + (p + ENTRIES - 1) / ENTRIES }

  lemma NoFrames()
    ensures CopyFrames(0) == 65
  {
  }

  lemma NoneCopied(r: Ram, r': Ram, d: nat, c: nat)
    requires |r'.mem| == |r.mem| == |r.role| == |r'.role| && d < |r.mem| && c < |r.mem|
    ensures Copied(r, r', d, c, 0)
  {
  }

  lemma CopyFramesGrow(p: nat, end: nat)
    requires p <= end
    ensures CopyFrames(p) <= CopyFrames(end)
  {
  }

  /** A directory fresh from setupkvm has no table for a user page. */
  lemma UserTables(rk: Ram, r1: Ram, c: nat, data: nat, p: nat)
    requires KernelEnd(data) && KernelTo(rk, c, data, 4) && HasTables(rk, r1, c, 0, p) && p < USER
    ensures CopyFrames(p + 1) == CopyFrames(p) + 1 + Tables(r1, c, p, p + 1)
  {
    TablesStep(rk, r1, c, 0, p);
    TablesFresh(rk, c, 0, p + 1, -1);
    if p > 0 {
      TablesFresh(rk, c, 0, p, -1);
    }
  }

  lemma ChildNext(r: Ram, r': Ram, c: nat, p: nat)
    requires Child(r, r', c, p) && p < USER
    ensures !Mapped(r', c, p)
  {
  }

  lemma ChildDir(r: Ram, r': Ram, c: nat, p: nat)
    requires Child(r, r', c, p)
    ensures |r'.mem| == |r.mem| == |r.role| == |r'.role| && c < |r'.role| && r'.role[c] == Dir
  {
  }

  lemma IntactStart(r: Ram, d: nat, p: nat)
    requires |r.mem| == |r.role| && d < |r.mem|
    ensures Intact(r, r, d, p, p)
  {
  }

  lemma IntactMore(r: Ram, r': Ram, d: nat, p0: nat, p: nat, end: nat)
    requires Intact(r, r', d, p0, p) && p <= end
    ensures Intact(r, r', d, p0, end)
  {
  }

  lemma IntactAt(r: Ram, r': Ram, d: nat, p0: nat, p: nat)
    requires Intact(r, r', d, p0, p) && r.role[d] == Dir && p <= USER
    ensures |r'.mem| == |r.mem| == |r'.role| && r'.role[d] == Dir
    ensures forall m :: p <= m < ENTRIES * ENTRIES ==> Pte(r', d, m) == Pte(r, d, m)
  {
  }

  /** A frame that is free now was free before. */
  lemma IntactFree(r: Ram, r': Ram, d: nat, p0: nat, p: nat, f: nat)
    requires Intact(r, r', d, p0, p) && f < |r'.role| && r'.role[f] == Free
    ensures f < |r.role| && r.role[f] == Free
  {
  }

  /** Frame f is directory d or in use by it. */
  /** While freevm frees the tables, those before i are free and the rest in nobody's use. */
  ghost function TableRole(role: seq<Role>, d: nat, f: nat, i: nat): Role
    requires f < |role|
  {
    if f == d then Held
    else if role[f].Table? && role[f].d == d then (if role[f].i < i then Free else Held)
    else role[f]
  }

  lemma AllUnmapped(r: Ram, r': Ram, d: nat)
    requires Ok(r) && d < |r.mem| && r.role[d] == Dir && Unmaps(r, r', d, 0, USER)
    ensures |r'.mem| == |r'.role| == |r.mem| && r'.role[d] == Dir
    ensures forall f :: 0 <= f < |r.mem| ==>
      r'.role[f] == if r.role[f].User? && r.role[f].d == d then Free else r.role[f]
    ensures forall f :: 0 <= f < |r.mem| && !Owns(r.role, d, f) && r.role[f] != Free ==> r'.mem[f] == r.mem[f]
  {
    forall f | 0 <= f < |r.mem| ensures r'.role[f] == if r.role[f].User? && r.role[f].d == d then Free else r.role[f] {
      assert RoleOk(r, f);
      if r.role[f].User? && r.role[f].d == d {
        AllVisited(r, d, 0, r.role[f].n);
      }
    }
  }

  lemma TablesApart(r: Ram, d: nat, i: nat, f: nat)
    requires Ok(r) && d < |r.mem| && r.role[d] == Dir && i < ENTRIES && Present(r.mem[d][i])
    requires f == FrameOf(r.mem[d][i])
    ensures forall g :: 0 <= g < |r.mem| && r.role[g] == Table(d, i) ==> g == f
  {
    forall g | 0 <= g < |r.mem| && r.role[g] == Table(d, i) ensures g == f {
      assert RoleOk(r, g);
    }
  }

  lemma TablesIn(r: Ram, d: nat)
    requires Ok(r)
    ensures forall g :: 0 <= g < |r.mem| && r.role[g].Table? && r.role[g].d == d ==> r.role[g].i < ENTRIES
  {
    forall g | 0 <= g < |r.mem| && r.role[g].Table? && r.role[g].d == d ensures r.role[g].i < ENTRIES {
      assert RoleOk(r, g);
    }
  }

  lemma NoSuchTable(r: Ram, d: nat, i: nat)
    requires Ok(r) && d < |r.mem| && r.role[d] == Dir && i < ENTRIES && !Present(r.mem[d][i])
    ensures forall g :: 0 <= g < |r.mem| ==> r.role[g] != Table(d, i)
  {
    forall g | 0 <= g < |r.mem| ensures r.role[g] != Table(d, i) {
      assert RoleOk(r, g);
    }
  }

  /** PGROUNDUP, in pages. */
  function Pages(sz: nat): nat { (sz + PGSIZE - 1) / PGSIZE }

  lemma PathStart(r: Ram, d: nat, p: nat)
    requires d < |r.mem|
    ensures OnPath(r, d, p, p)
  {
  }

  lemma UnmapsDir(r: Ram, r': Ram, d: nat, p0: nat, p: nat, n: nat)
    requires Unmaps(r, r', d, p0, p) && r.role[d] == Dir && n < ENTRIES * ENTRIES
    ensures |r'.role| == |r'.mem| && r'.role[d] == Dir && r'.mem[d] == r.mem[d]
    ensures NextPage(r', d, n) == NextPage(r, d, n)
  {
  }

  /** Beyond the end the loop has passed no page below the end. */
  lemma UnmapsEnd(r: Ram, r': Ram, d: nat, p0: nat, p: nat, end: nat)
    requires Unmaps(r, r', d, p0, p) && end <= p
    requires forall n :: end <= n < p && n < ENTRIES * ENTRIES ==> !Visits(r, d, p0, n)
    ensures Unmaps(r, r', d, p0, end)
  {
    hide Visits;
    forall n | 0 <= n < ENTRIES * ENTRIES ensures Passed(r, d, p0, p, n) <==> Passed(r, d, p0, end, n) {
    }
  }

  lemma RangeEmpty(r: Ram, d: nat, first: nat, f: nat, perm: nat)
    requires |r.mem| == |r.role| && d < |r.mem| && first < ENTRIES * ENTRIES && perm in {0, 2, 6} && f < 0x10_0000
    ensures MapsRange(r, r, d, first, first, f, perm)
  {
  }

  lemma RangeAt(r: Ram, r': Ram, d: nat, first: nat, next: nat, f: nat, perm: nat, m: nat)
    requires MapsRange(r, r', d, first, next, f, perm) && r.role[d] == Dir && first <= next <= m < ENTRIES * ENTRIES
    ensures d < |r'.mem| && Pte(r', d, m) == Pte(r, d, m)
    ensures IsHeld(r, f + (m - first)) ==> IsHeld(r', f + (m - first))
  {
  }

  lemma MapsDir(r: Ram, r': Ram, d: nat, n: nat, w: word, f: int)
    requires Maps(r, r', d, n, w, f) && r.role[d] == Dir && f != d
    ensures d < |r'.role| && r'.role[d] == Dir
  {
  }

  /** How mapping ended. */
  datatype Outcome = Done | NoMemory | Remap

  lemma KeepsFacts(r: Ram, r': Ram, d: nat, n: nat)
    requires Keeps(r, r') && d < |r.mem| && r.role[d] == Dir && n < ENTRIES * ENTRIES
    ensures |r'.mem| == |r.mem| == |r'.role| && r'.role[d] == Dir && Pte(r', d, n) == Pte(r, d, n)
  {
  }

  lemma KeepsRole(r: Ram, r': Ram, f: nat)
    requires Keeps(r, r') && f < |r.mem| && r.role[f] != Free
    ensures r'.role[f] == r.role[f]
  {
  }

  lemma EntryFacts(r: Ram, d: nat, i: nat)
    requires Ok(r) && d < |r.mem| && r.role[d] == Dir && i < ENTRIES
    ensures EntryOk(r, d, i)
  {
  }

  /** A freed frame: junk, and the link in its first word. */
  function Junk(link: word): Frame {
    Filled(0x0101_0101)[0 := link]
  }

  class Memory {
    /** Frames below lo hold the kernel itself. */
    const lo: nat
    var mem: seq<Frame>
    var freelist: word
    ghost var role: seq<Role>
    ghost var free: seq<nat>

    ghost function Now(): Ram
      reads this
    {
      Ram(mem, role)
    }

    ghost predicate Listed()
      reads this
    {
      && 0 < lo && |mem| == FRAMES && ListOk(mem, role, free, freelist)
      && forall f :: 0 <= f < |mem| ==> (f < lo <==> role[f] == Reserved)
    }

    ghost predicate Valid()
      reads this
    {
      Listed() && Ok(Now())
    }

    /** At the start every frame above the kernel is in nobody's use, and none is on the list. */
    constructor (lo: nat, mem: seq<Frame>)
      requires 0 < lo <= FRAMES && |mem| == FRAMES
      ensures Valid() && this.lo == lo && this.mem == mem && free == []
      ensures forall f :: lo <= f < FRAMES ==> role[f] == Held
    {
      this.lo, this.mem, freelist := lo, mem, 0;
      role, free := seq(FRAMES, f => if f < lo then Reserved else Held), [];
    }

    /** Puts every frame that lies whole between vstart and vend on the list. */
    method Freerange(vstart: nat, vend: nat) returns (panicked: bool)
      requires Valid() && Addr(lo) <= vstart && vend <= Addr(FRAMES)
      requires forall f :: lo <= f < FRAMES && vstart <= Addr(f) && Addr(f) + PGSIZE <= vend ==> role[f] == Held
      modifies this
      ensures Valid() && !panicked
      ensures forall f :: 0 <= f < FRAMES ==>
        role[f] == if vstart <= Addr(f) && Addr(f) + PGSIZE <= vend then Free else old(role)[f]
    {
      hide Ok;
      panicked := false;
      var p := (vstart + PGSIZE - 1) / PGSIZE * PGSIZE;
      while p + PGSIZE <= vend
        invariant Valid() && !panicked && p % PGSIZE == 0 && vstart <= p && Addr(lo) <= p
        invariant forall f :: 0 <= f < FRAMES ==>
          role[f] == if vstart <= Addr(f) < p && Addr(f) + PGSIZE <= vend then Free else old(role)[f]
        decreases vend - p
      {
        var f := (p - KERNBASE) / PGSIZE;
        assert p == Addr(f);
        IdleOk(Now(), f, Junk(freelist), Free);
        panicked := Kfree(p);
        p := p + PGSIZE;
      }
    }

    /** Takes a frame off the list, if there is one. */
    method Kalloc() returns (v: nat)
      requires Listed()
      modifies this
      ensures Listed() && mem == old(mem)
      ensures v == 0 <==> old(free) == []
      ensures v == 0 ==> role == old(role) && free == old(free)
      ensures v != 0 ==>
        && v == Addr(old(free)[0]) && free == old(free)[1..]
        && old(free)[0] < |mem| && old(role)[old(free)[0]] == Free && role == old(role)[old(free)[0] := Held]
    {
      v := freelist;
      if v != 0 {
        Popped(mem, role, free, freelist);
        var f := (v - KERNBASE) / PGSIZE;
        assert f == free[0];
        freelist := mem[f][0];
        role, free := role[f := Held], free[1..];
      }
    }

    /**
     * Puts a frame on the list, or panics on an address that is none. A frame that is on the list
     * already is pushed again, after which no list at all threads the free frames.
     */
    method Kfree(v: nat) returns (panicked: bool)
      requires Listed() && v < 0x1_0000_0000
      modifies this
      ensures panicked <==> v % PGSIZE != 0 || v < Addr(lo) || v >= Addr(FRAMES)
      ensures panicked || old(role)[(v - KERNBASE) / PGSIZE] != Free ==> Listed()
      ensures !panicked && old(role)[(v - KERNBASE) / PGSIZE] == Free ==>
        forall other: seq<nat> :: !ListOk(mem, role, other, freelist)
      ensures panicked ==> mem == old(mem) && role == old(role) && free == old(free)
      ensures !panicked ==>
        var f := (v - KERNBASE) / PGSIZE;
        && f < |mem| && mem == old(mem)[f := Junk(old(freelist))]
        && role == old(role)[f := Free] && free == [f] + old(free)
    {
      if v % PGSIZE != 0 || v < Addr(lo) || v >= Addr(FRAMES) {
        return true;
      }
      var f := (v - KERNBASE) / PGSIZE;
      assert v == Addr(f) && lo <= f < FRAMES;
      if role[f] != Free {
        Pushed(mem, role, free, freelist, f, Junk(freelist));
      } else {
        ghost var mem', a := mem[f := Junk(freelist)], Addr(f);
        forall other: seq<nat> ensures !ListOk(mem', role, other, a) {
          PushedTwice(mem, role, free, freelist, f, Junk(freelist), other);
        }
        assert role[f := Free] == role;
      }
      mem := mem[f := Filled(0x0101_0101)];
      mem := mem[f := mem[f][0 := freelist]];
      assert mem == old(mem)[f := Junk(freelist)];
      freelist := v;
      role, free := role[f := Free], [f] + free;
      return false;
    }

    /** Finds page n's entry: table t, place j. Makes a table for it if asked to and there is a frame. */
    method Walkpgdir(d: nat, n: nat, alloc: bool) returns (found: bool, t: nat, j: nat)
      requires Valid() && d < |mem| && role[d] == Dir && n < ENTRIES * ENTRIES
      modifies this
      ensures Valid() && Keeps(old(Now()), Now())
      ensures found ==> HasTable(Now(), d, n) && t == FrameOf(mem[d][n / ENTRIES]) < |mem| && j == n % ENTRIES
      ensures !found <==> !HasTable(old(Now()), d, n) && (!alloc || old(free) == [])
      ensures !found || !alloc || HasTable(old(Now()), d, n) ==> Now() == old(Now()) && free == old(free)
      ensures found && !HasTable(old(Now()), d, n) ==> |free| + 1 == |old(free)|
      ensures found ==> HasTables(old(Now()), Now(), d, n, n + 1)
      ensures TablesFor(old(Now()), Now(), d)
    {
      hide Ok;
      EntryFacts(Now(), d, n / ENTRIES);
      t, j := 0, n % ENTRIES;
      if Present(mem[d][n / ENTRIES]) {
        t := FrameOf(mem[d][n / ENTRIES]);
        return true, t, j;
      }
      if !alloc {
        return false, t, j;
      }
      ghost var r := Now();
      var v := Kalloc();
      if v == 0 {
        return false, t, j;
      }
      t := (v - KERNBASE) / PGSIZE;
      NewTable(r, d, n / ENTRIES, t);
      ghost var m, ro := mem, role;
      mem := mem[t := Filled(0)];
      mem := mem[d := mem[d][n / ENTRIES := MakeEntry(t, 6)]];
      role := role[t := Table(d, n / ENTRIES)];
      ListKept(m, mem, ro, role, free, freelist);
      assert Now() == AddTable(Ram(r.mem, r.role[t := Held]), d, n / ENTRIES, t);
      return true, t, j;
    }

    /** One turn of mappages: page n gets an entry for frame f. */
    method MapPage(d: nat, n: nat, f: nat, perm: nat) returns (o: Outcome)
      requires Valid() && d < |mem| && role[d] == Dir && n < ENTRIES * ENTRIES && f < 0x10_0000 && perm in {0, 2, 6}
      requires n < USER ==> f < |mem| && role[f] == Held && perm == 6
      modifies this
      ensures Valid()
      ensures o.Done? ==> Maps(old(Now()), Now(), d, n, MakeEntry(f, perm), if n < USER then f else -1)
      ensures o.Remap? <==> Mapped(old(Now()), d, n)
      ensures o.NoMemory? <==> !HasTable(old(Now()), d, n) && old(free) == []
      ensures !o.Done? ==> Now() == old(Now()) && free == old(free)
      ensures o.Done? ==> HasTables(old(Now()), Now(), d, n, n + 1)
      ensures o.Done? ==> |free| + (if HasTable(old(Now()), d, n) then 0 else 1) == |old(free)|
      ensures TablesFor(old(Now()), Now(), d)
    {
      hide Ok;
      hide Keeps;
      hide Maps;
      ghost var r := Now();
      var found, t, j := Walkpgdir(d, n, true);
      ghost var r1 := Now();
      KeepsFacts(r, r1, d, n);
      if !found {
        return NoMemory;
      }
      if Present(mem[t][j]) {
        return Remap;
      }
      ghost var ro := role;
      EntryFacts(r1, d, n / ENTRIES);
      if n < USER {
        KeepsRole(r, r1, f);
        MapsUser(r1, d, n, f);
        role := role[f := User(d, n)];
      } else {
        MapsKernel(r1, d, n, MakeEntry(f, perm));
      }
      mem := mem[t := mem[t][j := MakeEntry(f, perm)]];
      ListKept(r1.mem, mem, ro, role, free, freelist);
      assert Now() == SetPte(r1, d, n, MakeEntry(f, perm), role);
      KeepsMaps(r, r1, Now(), d, n, MakeEntry(f, perm), if n < USER then f else -1);
      return Done;
    }

    /**
     * Gives the pages that hold va up to va + size entries for the frames from pa on, and stops at
     * page next if that is mapped already or there is no frame for its table. User pages own
     * their frames, which are in nobody's use before.
     */
    method Mappages(d: nat, va: nat, size: nat, pa: nat, perm: nat) returns (o: Outcome, ghost next: nat)
      requires Valid() && d < |mem| && role[d] == Dir && perm in {0, 2, 6}
      requires size > 0 && va + size <= 0x1_0000_0000 && pa % PGSIZE == 0
      requires pa / PGSIZE + (va + size - 1) / PGSIZE - va / PGSIZE < 0x10_0000
      requires va / PGSIZE < USER ==> perm == 6
      requires forall g ::
        0 <= g - pa / PGSIZE <= (va + size - 1) / PGSIZE - va / PGSIZE && g - pa / PGSIZE < USER - va / PGSIZE ==>
        IsHeld(Now(), g)
      modifies this
      ensures Valid()
      ensures MappedTo(old(Now()), |old(free)|, Now(), |free|, d, va / PGSIZE, next, pa / PGSIZE, perm)
      ensures next <= (va + size - 1) / PGSIZE + 1 && (o.Done? <==> next == (va + size - 1) / PGSIZE + 1)
      ensures o.Remap? ==> Mapped(old(Now()), d, next)
      ensures o.NoMemory? ==> |old(free)| < Tables(old(Now()), d, va / PGSIZE, (va + size - 1) / PGSIZE + 1)
      ensures TablesFor(old(Now()), Now(), d) && (o.NoMemory? ==> free == [])
    {
      hide Ok;
      hide Maps;
      hide TablesFor;
      hide MapsRange;
      hide HasTables;
      hide Tables;
      var first, last := va / PGSIZE, (va + size - 1) / PGSIZE;
      var a, f := first, pa / PGSIZE;
      ghost var r := Now();
      RangeEmpty(r, d, first, f, perm);
      HasTablesStart(r, d, first);
      NoTablesYet(r, d);
      while true
        invariant first <= a <= last && f == pa / PGSIZE + (a - first) && Valid() && d < |mem| && role[d] == Dir
        invariant MappedTo(r, |old(free)|, Now(), |free|, d, first, a, pa / PGSIZE, perm) && TablesFor(r, Now(), d)
        decreases last - a
      {
        ghost var r1 := Now();
        RangeAt(r, r1, d, first, a, pa / PGSIZE, perm, a);
        TablesStep(r, r1, d, first, a);
        EntryFacts(r1, d, a / ENTRIES);
        assert a < USER ==> IsHeld(r, f);
        o := MapPage(d, a, f, perm);
        TablesForMore(r, r1, Now(), d);
        next := a;
        if !o.Done? {
          TablesGrow(r, d, first, a + 1, last + 1);
          return;
        }
        RangeGrows(r, r1, Now(), d, first, a, pa / PGSIZE, perm);
        HasTablesStep(r, r1, Now(), d, first, a);
        MapsDir(r1, Now(), d, a, MakeEntry(f, perm), if a < USER then f else -1);
        next := a + 1;
        if a == last {
          break;
        }
        a := a + 1;
        f := f + 1;
      }
    }

    /**
     * Unmaps and frees the pages from PGROUNDUP(newsz) up to oldsz that its loop comes to. These are
     * all of them unless one is missed, and none is when the pages mapped are those below oldsz. It
     * never reaches the panic.
     */
    method Deallocuvm(d: nat, oldsz: nat, newsz: nat) returns (sz: nat, panicked: bool)
      requires Valid() && d < |mem| && role[d] == Dir && oldsz <= KERNBASE
      modifies this
      ensures Valid() && !panicked
      ensures newsz >= oldsz ==> sz == oldsz && Now() == old(Now())
      ensures newsz < oldsz ==> sz == newsz && Unmaps(old(Now()), Now(), d, Pages(newsz), Pages(oldsz))
      ensures newsz < oldsz ==>
        ((forall m :: Pages(newsz) <= m < Pages(oldsz) ==> !Mapped(Now(), d, m)) <==>
           (forall m :: Pages(newsz) <= m < Pages(oldsz) && Mapped(old(Now()), d, m) ==>
              !Missed(old(Now()), d, Pages(newsz), m)))
      ensures newsz < oldsz && MappedBelow(old(Now()), d, Pages(oldsz)) ==>
        MappedBelow(Now(), d, Pages(newsz)) && FreedFrom(old(Now()), Now(), d, Pages(newsz))
    {
      if newsz >= oldsz {
        return oldsz, false;
      }
      hide Ok;
      hide Unmaps;
      hide Unmapped;
      hide OnPath;
      hide Visits;
      ghost var r, p0 := Now(), Pages(newsz);
      var p := (newsz + PGSIZE - 1) / PGSIZE;
      UnmapsStart(r, d, p);
      PathStart(r, d, p);
      while p * PGSIZE < oldsz
        invariant Valid() && |mem| == |r.mem| && p0 <= p && OnPath(r, d, p0, p) && Unmaps(r, Now(), d, p0, p)
        invariant forall n :: Pages(oldsz) <= n < p && n < ENTRIES * ENTRIES ==> !Visits(r, d, p0, n)
        decreases oldsz - p * PGSIZE
      {
        UnmapsDir(r, Now(), d, p0, p, p);
        PathStep(r, d, p0, p);
        p, panicked := DropPage(d, p, r, p0);
        p := p + 1;
      }
      UnmapsEnd(r, Now(), d, p0, p, Pages(oldsz));
      UnmapsAll(r, Now(), d, p0, Pages(oldsz));
      if MappedBelow(r, d, Pages(oldsz)) {
        UnmapsRest(r, Now(), d, p0, Pages(oldsz));
      }
      return newsz, false;
    }

    /** One turn of deallocuvm's loop: the last page it dealt with. */
    method DropPage(d: nat, p: nat, ghost r: Ram, ghost p0: nat) returns (last: nat, panicked: bool)
      requires Valid() && d < |mem| && role[d] == Dir && p < USER && d < |r.mem| == |r.role| && r.role[d] == Dir
      requires Unmaps(r, Now(), d, p0, p) && NextPage(Now(), d, p) == NextPage(r, d, p) && Visits(r, d, p0, p)
      requires forall n :: p < n < NextPage(r, d, p) && n < ENTRIES * ENTRIES ==> !Visits(r, d, p0, n)
      modifies this
      ensures Valid() && !panicked && last + 1 == NextPage(r, d, p) && Unmaps(r, Now(), d, p0, last + 1)
      ensures |mem| == old(|mem|)
    {
      hide Ok;
      hide Unmaps;
      hide Unmapped;
      hide Visits;
      ghost var r1 := Now();
      last, panicked := p, false;
      var found, t, j := Walkpgdir(d, p, false);
      if !found {
        UnmapsNone(r1, d, p);
        last := last + (ENTRIES - 1);
      } else if Present(mem[t][j]) {
        panicked := FreePage(d, p, t, j);
      } else {
        UnmapsNone(r1, d, p);
      }
      UnmapsStep(r, r1, Now(), d, p0, p, last + 1);
    }

    /** Frees the frame of a mapped page, and clears the page's entry. */
    method FreePage(d: nat, p: nat, t: nat, j: nat) returns (panicked: bool)
      requires Valid() && d < |mem| && role[d] == Dir && p < USER && HasTable(Now(), d, p) && Mapped(Now(), d, p)
      requires t == FrameOf(mem[d][p / ENTRIES]) < |mem| && j == p % ENTRIES
      modifies this
      ensures Valid() && !panicked && Unmapped(old(Now()), Now(), d, p)
    {
      hide Ok;
      hide Writable;
      hide ForUser;
      hide Unmapped;
      ghost var r := Now();
      var f := FrameOf(mem[t][j]);
      UnmapsOne(r, d, p, f, Junk(freelist));
      EntryFacts(r, d, p / ENTRIES);
      if f == 0 {
        return true;
      }
      panicked := Kfree(Addr(f));
      ghost var m := mem;
      mem := mem[t := mem[t][j := 0]];
      ListKept(m, mem, role, role, free, freelist);
      assert mem == SetPte(r, d, p, 0, role).mem[f := Junk(old(freelist))];
    }

    /** Freevm's call of deallocuvm: all user frames are free, and no other. */
    method FreeUser(d: nat)
      requires Valid() && d < |mem| && role[d] == Dir
      modifies this
      ensures Valid() && |mem| == |role| == old(|mem|) && role[d] == Dir
      ensures forall f :: 0 <= f < |mem| ==>
        role[f] == if old(role)[f].User? && old(role)[f].d == d then Free else old(role)[f]
      ensures forall f :: 0 <= f < |mem| && !Owns(old(role), d, f) && old(role)[f] != Free ==> mem[f] == old(mem)[f]
    {
      hide Ok;
      hide Unmaps;
      hide Missed;
      hide MappedBelow;
      hide FreedFrom;
      ghost var r := Now();
      var _, _ := Deallocuvm(d, KERNBASE, 0);
      AllUnmapped(r, Now(), d);
    }

    /** Frees the user frames, the tables and the directory, each once, and no other frame. */
    method Freevm(d: nat) returns (panicked: bool)
      requires Valid() && d < |mem| && role[d] == Dir
      modifies this
      ensures Valid() && !panicked && |mem| == old(|mem|)
      ensures forall f :: 0 <= f < |mem| ==> role[f] == if Owns(old(role), d, f) then Free else old(role)[f]
      ensures forall f :: 0 <= f < |mem| && !Owns(old(role), d, f) && old(role)[f] != Free ==> mem[f] == old(mem)[f]
    {
      hide Ok;
      FreeUser(d);
      ghost var r1 := Now();
      RetireOk(r1, d);
      role := Retired(role, d);
      ListKept(mem, mem, r1.role, role, free, freelist);
      panicked := FreeTables(d, r1);
      IdleOk(Now(), d, Junk(freelist), Free);
      panicked := Kfree(Addr(d));
    }

    /** Freevm's loop over the directory, whose tables are in nobody's use any more. */
    method FreeTables(d: nat, ghost r: Ram) returns (panicked: bool)
      requires Valid() && Ok(r) && d < |r.mem| && r.role[d] == Dir && mem == r.mem && role == Retired(r.role, d)
      modifies this
      ensures Valid() && !panicked && |mem| == |r.mem|
      ensures forall f :: 0 <= f < |mem| ==>
        role[f] == if f == d then Held else if r.role[f].Table? && r.role[f].d == d then Free else r.role[f]
      ensures forall f :: 0 <= f < |mem| && role[f] != Free ==> mem[f] == r.mem[f]
    {
      hide Ok;
      hide Writable;
      hide ForUser;
      panicked := false;
      var i := 0;
      while i < ENTRIES
        invariant 0 <= i <= ENTRIES && Valid() && |mem| == |r.mem| && !panicked
        invariant forall f :: 0 <= f < |mem| ==> role[f] == TableRole(r.role, d, f, i)
        invariant forall f :: 0 <= f < |mem| && role[f] != Free ==> mem[f] == r.mem[f]
      {
        EntryFacts(r, d, i);
        if Present(mem[d][i]) {
          var f := FrameOf(mem[d][i]);
          IdleOk(Now(), f, Junk(freelist), Free);
          panicked := Kfree(Addr(f));
          TablesApart(r, d, i, f);
        } else {
          NoSuchTable(r, d, i);
        }
        i := i + 1;
      }
      TablesIn(r, d);
    }

    /** Takes a frame and fills it. */
    method NewFrame(c: Frame) returns (v: nat)
      requires Valid()
      modifies this
      ensures Valid() && Keeps(old(Now()), Now()) && (v == 0 <==> old(free) == [])
      ensures v == 0 ==> Now() == old(Now()) && free == old(free)
      ensures v != 0 ==>
        var f := (v - KERNBASE) / PGSIZE;
        0 <= f < |mem| && v == Addr(f) && old(role)[f] == Free && role[f] == Held && mem[f] == c
      ensures v != 0 ==> |free| + 1 == |old(free)| && role == old(role)[(v - KERNBASE) / PGSIZE := Held]
      ensures forall e :: 0 <= e < |mem| && old(role)[e] == Dir ==> mem[e] == old(mem)[e]
    {
      hide Ok;
      ghost var r := Now();
      v := Kalloc();
      if v != 0 {
        var f := (v - KERNBASE) / PGSIZE;
        IdleOk(r, f, c, Held);
        ghost var m := mem;
        mem := mem[f := c];
        ListKept(m, mem, role, role, free, freelist);
        assert Now() == Ram(r.mem[f := c], r.role[f := Held]);
      }
    }

    /** mappages of one user page, for a frame in nobody's use. */
    method MapUser(d: nat, p: nat, v: nat) returns (o: Outcome)
      requires Valid() && d < |mem| && role[d] == Dir && p < USER
      requires v >= KERNBASE && (v - KERNBASE) % PGSIZE == 0 && IsHeld(Now(), (v - KERNBASE) / PGSIZE)
      modifies this
      ensures Valid() && |mem| == |old(mem)|
      ensures o.Done? ==> Maps(old(Now()), Now(), d, p, MakeEntry((v - KERNBASE) / PGSIZE, 6), (v - KERNBASE) / PGSIZE)
      ensures o.Done? ==> HasTables(old(Now()), Now(), d, p, p + 1)
      ensures |old(free)| == |free| + if o.Done? then Tables(old(Now()), d, p, p + 1) else 0
      ensures !o.Done? ==> Keeps(old(Now()), Now())
      ensures o.Remap? ==> Mapped(old(Now()), d, p)
      ensures o.NoMemory? ==> |old(free)| < Tables(old(Now()), d, p, p + 1)
      ensures TablesFor(old(Now()), Now(), d)
    {
      hide Ok;
      hide Keeps;
      hide Maps;
      hide MapsRange;
      hide HasTables;
      ghost var r, f, next := Now(), (v - KERNBASE) / PGSIZE, 0;
      o, next := Mappages(d, p * PGSIZE, PGSIZE, v - KERNBASE, 6);
      RangeOne(r, Now(), d, p, next, f);
      RangeSizes(r, Now(), d, p, next, f, 6);
    }

    /** Allocuvm out of memory at page p: the new pages go again. */
    method RollBack(d: nat, oldsz: nat, newsz: nat, ghost r: Ram, ghost p: nat, ghost bad: nat, ghost all: bool)
      requires Valid() && Ok(r) && d < |r.mem| && r.role[d] == Dir && oldsz < newsz < KERNBASE
      requires Pages(oldsz) <= p < Pages(newsz) && Intact(r, Now(), d, Pages(oldsz), p)
      requires !all ==> Pages(oldsz) <= bad && p == bad + 1 && !Mapped(Now(), d, bad)
      requires Pages(oldsz) < p && (all || Pages(oldsz) < bad) ==> Mapped(Now(), d, Pages(oldsz))
      modifies this
      ensures Valid() && d < |mem|
      ensures NoneMapped(r, d, Pages(oldsz), Pages(newsz)) ==>
        Intact(r, Now(), d, Pages(oldsz), Pages(newsz)) && NoneMapped(Now(), d, Pages(oldsz), Pages(newsz))
    {
      hide Ok;
      hide ListOk;
      hide Intact;
      hide Unmaps;
      hide Missed;
      hide FreedFrom;
      ghost var r1, p0, end := Now(), Pages(oldsz), Pages(newsz);
      OkSizes(r);
      OkSizes(r1);
      IntactAt(r, r1, d, p0, p);
      var _, _ := Deallocuvm(d, newsz, oldsz);
      if NoneMapped(r, d, p0, end) {
        IntactUnmaps(r, r1, Now(), d, p0, p, end);
        OnlyFirst(r, r1, d, p0, p, bad, all, end);
        UnmapsBack(r1, Now(), d, p0, end);
      }
    }

    /**
     * Grows the process from oldsz to newsz. If the new pages are all mapped in the end, each has a
     * cleared frame of its own and nothing else is different. When none was mapped before, that
     * happens exactly if there are enough free frames for the pages and the missing tables; and if
     * the call fails, none of them is mapped afterwards and all that was there before is as it was.
     */
    method Allocuvm(d: nat, oldsz: nat, newsz: nat) returns (sz: nat, panicked: bool)
      requires Valid() && d < |mem| && role[d] == Dir && newsz < 0x1_0000_0000
      modifies this
      ensures Valid()
      ensures newsz >= KERNBASE ==> sz == 0 && !panicked && Now() == old(Now())
      ensures newsz < KERNBASE && newsz < oldsz ==> sz == oldsz && !panicked && Now() == old(Now())
      ensures oldsz <= newsz < KERNBASE && !panicked && sz != 0 ==> sz == newsz && role[d] == Dir
      ensures oldsz <= newsz < KERNBASE && !panicked && sz == newsz ==>
        (AllMapped(Now(), d, Pages(oldsz), Pages(newsz)) ==>
           Grew(old(Now()), Now(), d, Pages(oldsz), Pages(newsz)))
      ensures oldsz <= newsz < KERNBASE && NoneMapped(old(Now()), d, Pages(oldsz), Pages(newsz)) ==>
        && !panicked
        && (sz == newsz && AllMapped(Now(), d, Pages(oldsz), Pages(newsz)) <==>
              |old(free)| >= FramesFor(old(Now()), d, Pages(oldsz), Pages(newsz)))
      ensures oldsz <= newsz < KERNBASE && NoneMapped(old(Now()), d, Pages(oldsz), Pages(newsz)) ==>
        && Intact(old(Now()), Now(), d, Pages(oldsz), Pages(newsz))
        && (sz != newsz ==> sz == 0 && NoneMapped(Now(), d, Pages(oldsz), Pages(newsz)))
      ensures panicked ==> oldsz <= newsz < KERNBASE && !NoneMapped(old(Now()), d, Pages(oldsz), Pages(newsz))
    {
      hide Ok;
      hide ListOk;
      hide Grew;
      hide HasTables;
      hide Tables;
      hide Intact;
      hide Unmaps;
      hide Missed;
      hide FreedFrom;
      if newsz >= KERNBASE {
        return 0, false;
      }
      if newsz < oldsz {
        return oldsz, false;
      }
      ghost var r, p0, all := Now(), Pages(oldsz), true;
      ghost var bad: nat := 0;
      var p := (oldsz + PGSIZE - 1) / PGSIZE;
      OkSizes(r);
      GrewStart(r, d, p);
      IntactStart(r, d, p);
      HasTablesStart(r, d, p);
      while p * PGSIZE < newsz
        invariant Valid() && p0 <= p <= Pages(newsz) && Intact(r, Now(), d, p0, p)
        invariant |mem| == |role| == |r.mem| && role[d] == Dir
        invariant all ==> Growing(r, |old(free)|, Now(), |free|, d, p0, p)
        invariant !all ==> p0 <= bad < p == bad + 1 && !Mapped(Now(), d, bad) && free == []
        invariant p0 < p && (all || p0 < bad) ==> Mapped(Now(), d, p0)
        invariant !all ==> |old(free)| < FramesFor(r, d, p0, Pages(newsz))
        decreases newsz - p * PGSIZE
      {
        ghost var r1 := Now();
        IntactAt(r, r1, d, p0, p);
        FramesGrow(r, d, p0, p + 1, Pages(newsz));
        var v, o := GrowPage(d, p, r, |old(free)|, p0, all);
        if v == 0 {
          RollBack(d, oldsz, newsz, r, p, bad, all);
          return 0, false;
        }
        if o.Remap? {
          assert Mapped(r, d, p);
          return 0, true;
        }
        if all && !o.Done? {
          all, bad := false, p;
        }
        IntactAt(r, Now(), d, p0, p + 1);
        p := p + 1;
      }
      IntactMore(r, Now(), d, p0, p, Pages(newsz));
      if all {
        GrewMapped(r, Now(), d, p0, p);
      }
      return newsz, false;
    }

    /** One turn of allocuvm's loop: a cleared frame for page p, if there is one. */
    method GrowPage(d: nat, p: nat, ghost r: Ram, ghost had: nat, ghost p0: nat, ghost all: bool)
      returns (v: nat, o: Outcome)
      requires Valid() && d < |mem| && role[d] == Dir && p0 <= p < USER && |r.mem| == |r.role| == |mem|
      requires r.role[d] == Dir
      requires Intact(r, Now(), d, p0, p) && (all ==> Growing(r, had, Now(), |free|, d, p0, p))
      modifies this
      ensures Valid() && |mem| == |role| == |r.mem| && role[d] == Dir
      ensures v != 0 && o.Remap? ==> Mapped(old(Now()), d, p)
      ensures v != 0 && !o.Remap? ==> Intact(r, Now(), d, p0, p + 1)
      ensures v == 0 ==> Now() == old(Now()) && old(free) == []
      ensures v != 0 ==> old(free) != [] && (o.NoMemory? ==> free == []) && (o.Done? ==> Mapped(Now(), d, p))
      ensures v != 0 && o.Done? && all ==> Growing(r, had, Now(), |free|, d, p0, p + 1)
      ensures (v == 0 || o.NoMemory?) && all ==> had < FramesFor(r, d, p0, p + 1)
      ensures v != 0 && o.NoMemory? ==> !Mapped(Now(), d, p)
      ensures v != 0 ==> forall m :: 0 <= m < p ==> Pte(Now(), d, m) == Pte(old(Now()), d, m)
    {
      hide Ok;
      hide Keeps;
      hide Maps;
      hide Grew;
      hide Intact;
      hide HasTables;
      hide Tables;
      ghost var r1 := Now();
      v := NewFrame(Filled(0));
      ghost var r2, f := Now(), (v - KERNBASE) / PGSIZE;
      KeepsFacts(r1, r2, d, p);
      if all {
        TablesStep(r, r1, d, p0, p);
      }
      if v == 0 {
        return v, NoMemory;
      }
      IntactKeeps(r, r1, r2, d, p0, p);
      IntactFree(r, r1, d, p0, p, f);
      o := MapUser(d, p, v);
      SameTables(r1, r2, d, p);
      if o.Done? {
        IntactMaps(r, r2, Now(), d, p0, p, MakeEntry(f, 6), f);
        MapsBelow(r1, r2, Now(), d, p, MakeEntry(f, 6), f);
        if all {
          GrewStep(r, r1, r2, Now(), d, p0, p, f);
          TablesAfter(r1, r2, Now(), d, p);
          HasTablesStep(r, r1, Now(), d, p0, p);
        }
      } else {
        IntactKeeps(r, r2, Now(), d, p0, p);
        KeepsBelow(r1, r2, Now(), d);
        NoTable(r2, d, p);
      }
      IntactAt(r, Now(), d, p0, p + 1);
    }

    /** One turn of setupkvm's loop: the next region, g, of the kernel's map. */
    method MapRegion(c: nat, g: Region, ghost r: Ram, ghost data: nat, ghost k: nat) returns (o: Outcome)
      requires Valid() && KernelEnd(data) && k < 4 && g == KernelMap(data)[k] && c < |mem| && role[c] == Dir
      requires Child(r, Now(), c, 0) && KernelTo(Now(), c, data, k)
      modifies this
      ensures Valid() && |mem| == old(|mem|) && role[c] == Dir && Child(r, Now(), c, 0) && !o.Remap?
      ensures o.Done? <==> |old(free)| >= KernelTables(data, k + 1) - KernelTables(data, k)
      ensures o.Done? ==> KernelTo(Now(), c, data, k + 1)
      ensures o.Done? ==> |free| + (KernelTables(data, k + 1) - KernelTables(data, k)) == |old(free)|
      ensures TablesFor(old(Now()), Now(), c) && (!o.Done? ==> free == [])
      ensures |role| == |old(role)| && forall f :: 0 <= f < |role| && old(role)[f] != Free ==> role[f] == old(role)[f]
    {
      hide Ok;
      hide Keeps;
      hide MapsRange;
      hide HasTables;
      hide Tables;
      hide Child;
      hide KernelTo;
      hide KernelTables;
      hide LastTable;
      ghost var r2, next := Now(), 0;
      RegionFrames(data, k);
      o, next := Mappages(c, g.virt, g.size, g.phys, g.perm);
      ChildKernel(r, r2, Now(), c, g.virt / PGSIZE, next, g.phys / PGSIZE, g.perm);
      KernelRoles(r2, Now(), c, g.virt / PGSIZE, next, g.phys / PGSIZE, g.perm);
      ChildDir(r, r2, c, 0);
      ChildDir(r, Now(), c, 0);
      RegionTables(r2, c, data, k);
      if o.Done? {
        RegionStep(r2, Now(), c, data, k);
      } else {
        RegionUnmapped(r2, c, data, k, next);
      }
    }

    /**
     * A new directory with the kernel's mappings and no user page. It takes 65 frames: the directory
     * and its tables; 0 exactly if there are fewer, and then all that there were are lost.
     */
    method Setupkvm(data: nat) returns (c: nat, panicked: bool)
      requires Valid() && KernelEnd(data)
      modifies this
      ensures Valid() && |mem| == old(|mem|) && !panicked
      ensures c != 0 <==> |old(free)| >= 65
      ensures c != 0 ==> Child(old(Now()), Now(), c, 0) && KernelTo(Now(), c, data, 4) && |free| + 65 == |old(free)|
      ensures c != 0 ==> KernelHalf(Now(), c, data) && OwnsNew(old(Now()), Now(), c, -1)
      ensures c == 0 ==> free == []
    {
      hide Ok;
      hide Keeps;
      hide MapsRange;
      hide HasTables;
      hide Tables;
      ghost var r := Now();
      var v := NewFrame(Filled(0));
      if v == 0 {
        return 0, false;
      }
      c := (v - KERNBASE) / PGSIZE;
      ghost var r1 := Now();
      NewDirOk(r1, c);
      role := role[c := Dir];
      ListKept(mem, mem, r1.role, role, free, freelist);
      ChildStart(r, r1, Now(), c);
      KernelStart(Now(), c, data);
      KernelMost(data, 4);
      hide Child;
      hide KernelTo;
      hide OwnsNew;
      hide TablesFor;
      var k, kmap := 0, KernelMap(data);
      while k < |kmap|
        invariant 0 <= k <= |kmap| && Valid() && |mem| == |r.mem| && 0 < c < |mem| && role[c] == Dir
        invariant Child(r, Now(), c, 0) && KernelTo(Now(), c, data, k)
        invariant |free| + 1 + KernelTables(data, k) == |old(free)| && OwnsNew(r, Now(), c, -1)
      {
        ghost var r2 := Now();
        var o := MapRegion(c, kmap[k], r, data, k);
        KernelMost(data, k + 1);
        if !o.Done? {
          return 0, o.Remap?;
        }
        OwnsTables(r, r2, Now(), c, -1);
        k := k + 1;
      }
      KernelDone(Now(), c, data);
      return c, false;
    }

    /**
     * A copy of the first sz bytes of directory d's user memory, for a child. On success every
     * page below sz has a frame that was free and now holds what the parent's holds, and the
     * parent and all other directories are as they were; the kernel's half is as ever. It succeeds
     * exactly if all those pages are mapped and there are enough free frames, and panics only if one
     * is not mapped. When it fails after the directory is there, all frames are back but one at most.
     */
    method Copyuvm(d: nat, sz: nat, data: nat) returns (c: nat, panicked: bool, ghost lost: int)
      requires Valid() && d < |mem| && role[d] == Dir && sz <= KERNBASE && KernelEnd(data)
      modifies this
      ensures Valid() && |mem| == |role| == old(|mem|) == old(|role|)
      ensures c != 0 ==> Child(old(Now()), Now(), c, Pages(sz)) && Copied(old(Now()), Now(), d, c, Pages(sz))
      ensures c != 0 ==> KernelHalf(Now(), c, data)
      ensures c != 0 <==> AllMapped(old(Now()), d, 0, Pages(sz)) && |old(free)| >= CopyFrames(Pages(sz))
      ensures panicked ==> c == 0 && !AllMapped(old(Now()), d, 0, Pages(sz))
      ensures c == 0 && !panicked && |old(free)| >= 65 ==> GivenBack(old(Now()), Now(), lost)
    {
      hide Ok;
      hide Keeps;
      hide Maps;
      hide Child;
      hide CopiedPage;
      hide HasTables;
      hide Tables;
      hide KernelTo;
      hide KernelHalf;
      hide OwnsNew;
      hide GivenBack;
      hide KernelKept;
      hide TablesFor;
      hide Copied;
      hide CopyFrames;
      hide Owns;
      ghost var r := Now();
      lost := -1;
      c, panicked := Setupkvm(data);
      CopyFramesGrow(0, Pages(sz));
      NoFrames();
      if c == 0 {
        return;
      }
      ghost var rk := Now();
      ChildDir(r, rk, c, 0);
      ChildParent(r, rk, c, 0, d);
      HasTablesStart(rk, c, 0);
      NoneCopied(r, rk, d, c);
      var p := 0;
      while p * PGSIZE < sz
        invariant Valid() && 0 <= p <= Pages(sz) && |mem| == |r.mem| && 0 < c < |mem| && role[c] == Dir && c != d
        invariant Child(r, Now(), c, p) && Copied(r, Now(), d, c, p) && role[d] == Dir
        invariant forall m :: 0 <= m < p ==> Mapped(r, d, m)
        invariant KernelHalf(Now(), c, data) && OwnsNew(r, Now(), c, -1)
        invariant HasTables(rk, Now(), c, 0, p) && |free| + CopyFrames(p) == |old(free)|
        decreases sz - p * PGSIZE
      {
        ghost var r1 := Now();
        ChildPage(r, r1, c, p, d, p);
        CopyFramesGrow(p + 1, Pages(sz));
        UserTables(rk, r1, c, data, p);
        var found, t, j := Walkpgdir(d, p, false);
        if !found || !Present(mem[t][j]) {
          assert !Mapped(r, d, p);
          return 0, true, lost;
        }
        PageFacts(r, d, p);
        var ok;
        ok, lost := CopyPage(d, c, p, FrameOf(mem[t][j]), r);
        if !ok {
          panicked := FreeCopy(c, p, r, lost);
          return 0, panicked, lost;
        }
        HasTablesStep(rk, r1, Now(), c, 0, p);
        KernelStays(r1, Now(), c, data);
        ChildDir(r, Now(), c, p + 1);
        ChildParent(r, Now(), c, p + 1, d);
        p := p + 1;
      }
      return c, false, lost;
    }

    /** Copyuvm out of memory at page p: the copy goes again. */
    method FreeCopy(c: nat, ghost p: nat, ghost r: Ram, ghost lost: int) returns (panicked: bool)
      requires Valid() && Ok(r) && Child(r, Now(), c, p) && OwnsNew(r, Now(), c, lost)
      modifies this
      ensures Valid() && !panicked && |mem| == |role| == |r.mem| == |r.role| && GivenBack(r, Now(), lost)
    {
      ghost var r2 := Now();
      ChildDir(r, r2, c, p);
      panicked := Freevm(c);
      AllBack(r, r2, Now(), c, p, lost);
    }

    /** One turn of copyuvm's loop: a copy of frame g as page p of directory c. */
    method CopyPage(d: nat, c: nat, p: nat, g: nat, ghost r: Ram) returns (ok: bool, ghost lost: int)
      requires Valid() && Child(r, Now(), c, p) && d < |mem| && r.role[d] == Dir && Copied(r, Now(), d, c, p)
      requires p < USER && OwnsNew(r, Now(), c, -1)
      requires Mapped(r, d, p) && g == FrameOf(Pte(r, d, p)) < |mem| && mem[g] == r.mem[g]
      modifies this
      ensures Valid() && |mem| == |role| == |r.mem| == |r.role| && c < |mem| && role[c] == Dir
      ensures ok ==>
        && Child(r, Now(), c, p + 1) && Copied(r, Now(), d, c, p + 1) && HasTables(old(Now()), Now(), c, p, p + 1)
        && KernelKept(old(Now()), Now(), c)
      ensures ok <==> |old(free)| >= 1 + Tables(old(Now()), c, p, p + 1)
      ensures ok ==> |free| + 1 + Tables(old(Now()), c, p, p + 1) == |old(free)|
      ensures OwnsNew(r, Now(), c, lost) && (ok ==> lost == -1) && (!ok ==> Child(r, Now(), c, p))
    {
      hide Ok;
      hide Keeps;
      hide Maps;
      hide Child;
      hide CopiedPage;
      hide HasTables;
      hide Tables;
      hide OwnsNew;
      hide TablesFor;
      ghost var r1 := Now();
      ChildDir(r, r1, c, p);
      ChildNext(r, r1, c, p);
      var v := NewFrame(mem[g]);
      ghost var r2, f := Now(), (v - KERNBASE) / PGSIZE;
      KeepsFacts(r1, r2, c, p);
      if v == 0 {
        return false, -1;
      }
      ChildKeeps(r, r1, r2, c, p);
      ChildFree(r, r1, c, p, f);
      OwnsFrame(r, r1, r2, c, f);
      SameTables(r1, r2, c, p);
      var o := MapUser(c, p, v);
      if !o.Done? {
        KeepsFacts(r2, Now(), c, p);
        ChildKeeps(r, r2, Now(), c, p);
        OwnsKeeps(r, r2, Now(), c, f);
        return false, f;
      }
      OwnsPage(r, r2, Now(), c, f, p, MakeEntry(f, 6));
      TablesAfter(r1, r2, Now(), c, p);
      CopiedStep(r, r1, r2, Now(), d, c, p, f);
      KernelApart(r1, r2, Now(), c, p, MakeEntry(f, 6), f);
      ChildMaps(r, r2, Now(), c, p, MakeEntry(f, 6), f);
      ChildDir(r, Now(), c, p + 1);
      return true, -1;
    }
  }
}
