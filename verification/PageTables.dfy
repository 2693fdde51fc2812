/** Physical frames and two-level page tables, as values. */
module PageTables {
  import opened Common

  /** Entries in a directory or a table. */
  const ENTRIES := 1024

  /** User pages: those below KERNBASE, 0x80000000. */
  const USER := 512 * ENTRIES

  const PGSIZE := 4096

  type Frame = f: seq<word> | |f| == ENTRIES witness seq(ENTRIES, _ => 0)

  function Filled(w: word): (f: Frame)
    ensures forall i :: 0 <= i < ENTRIES ==> f[i] == w
  {
    seq(ENTRIES, _ => w)
  }

  /** Page table entries: the frame's number above 12 bits of flags, of which the lowest says present. */
  predicate Present(w: word) { w % 2 == 1 }

  /** The next flag lets the page be written, and the one after lets user programs at it. */
  predicate Writable(w: word) { w / 2 % 2 == 1 }

  predicate ForUser(w: word) { w / 4 % 2 == 1 }

  function FrameOf(w: word): nat { w / PGSIZE }

  function MakeEntry(f: nat, perm: nat): (w: word)
    requires f < 0x10_0000 && perm in {0, 2, 6}
    ensures Present(w) && FrameOf(w) == f
    ensures (Writable(w) <==> perm != 0) && (ForUser(w) <==> perm == 6)
  {
    EntryParts(f, perm);
    EntryFlags(f, perm);
    f * PGSIZE + perm + 1
  }

  lemma EntryParts(f: nat, perm: nat)
    requires perm in {0, 2, 6}
    ensures (f * PGSIZE + perm + 1) / PGSIZE == f && (f * PGSIZE + perm + 1) % 2 == 1
  {
    assert f * PGSIZE + perm + 1 == 2 * (f * 2048 + perm / 2) + 1;
  }

  lemma EntryFlags(f: nat, perm: nat)
    requires perm in {0, 2, 6}
    ensures (f * PGSIZE + perm + 1) / 2 % 2 == 1 <==> perm != 0
    ensures (f * PGSIZE + perm + 1) / 4 % 2 == 1 <==> perm == 6
  {
    var x, k := f * PGSIZE + perm + 1, f * 512;
    Half(x, 4 * k + perm / 2);
    Half(x / 2, 2 * k + perm / 4);
    Half(4 * k + perm / 2, 2 * k + perm / 4);
    Half(2 * k + perm / 4, k);
  }

  lemma Half(x: nat, q: nat)
    requires 2 * q <= x <= 2 * q + 1
    ensures x / 2 == q && x % 2 == x - 2 * q
  {
  }

  /**
   * What a frame is used for: nothing yet (Held), or by which directory, as the table of which
   * entry or for which page.
   */
  datatype Role = Reserved | Free | Held | Dir | Table(d: nat, i: nat) | User(d: nat, n: nat)

  datatype Ram = Ram(mem: seq<Frame>, role: seq<Role>)

  /** The entry for page n in directory d; 0 if there is no table for it. */
  function Pte(r: Ram, d: nat, n: nat): word
    requires d < |r.mem| && n < ENTRIES * ENTRIES
  {
    var e := r.mem[d][n / ENTRIES];
    if Present(e) && FrameOf(e) < |r.mem| then r.mem[FrameOf(e)][n % ENTRIES] else 0
  }

  predicate Mapped(r: Ram, d: nat, n: nat)
    requires d < |r.mem| && n < ENTRIES * ENTRIES
  {
    Present(Pte(r, d, n))
  }

  ghost predicate EntryOk(r: Ram, d: nat, i: nat)
    requires |r.role| == |r.mem| && d < |r.mem| && i < ENTRIES
  {
    var w := r.mem[d][i];
    Present(w) ==> FrameOf(w) < |r.mem| && r.role[FrameOf(w)] == Table(d, i) && Writable(w) && ForUser(w)
  }

  ghost predicate PageOk(r: Ram, d: nat, n: nat)
    requires |r.role| == |r.mem| && d < |r.mem| && n < USER
  {
    var w := Pte(r, d, n);
    Present(w) ==> FrameOf(w) < |r.mem| && r.role[FrameOf(w)] == User(d, n)
  }

  ghost predicate RoleOk(r: Ram, f: nat)
    requires |r.role| == |r.mem| && f < |r.mem|
  {
    match r.role[f]
    case Table(d, i) =>
      && d < |r.mem| && r.role[d] == Dir && i < ENTRIES
      && Present(r.mem[d][i]) && FrameOf(r.mem[d][i]) == f
    case User(d, n) =>
      && d < |r.mem| && r.role[d] == Dir && n < USER
      && Mapped(r, d, n) && FrameOf(Pte(r, d, n)) == f
    case _ => true
  }

  /** Every frame has one use, and the directories and tables say so. */
  ghost predicate Ok(r: Ram) {
    && |r.role| == |r.mem| <= 0x10_0000
    && (forall d, i :: 0 <= d < |r.mem| && r.role[d] == Dir && 0 <= i < ENTRIES ==> EntryOk(r, d, i))
    && (forall d, n :: 0 <= d < |r.mem| && r.role[d] == Dir && 0 <= n < USER ==> PageOk(r, d, n))
    && (forall f :: 0 <= f < |r.mem| ==> RoleOk(r, f))
  }

  /** A frame, cleared, as the table of directory d's entry i. */
  function AddTable(r: Ram, d: nat, i: nat, t: nat): Ram
    requires |r.role| == |r.mem| <= 0x10_0000 && d < |r.mem| && t < |r.mem| && i < ENTRIES
  {
    Ram(r.mem[t := Filled(0)][d := r.mem[d][i := MakeEntry(t, 6)]], r.role[t := Table(d, i)])
  }

  lemma AddTablePte(r: Ram, d: nat, i: nat, t: nat, e: nat, n: nat)
    requires Ok(r) && d < |r.mem| && r.role[d] == Dir && t < |r.mem| && r.role[t] == Held && i < ENTRIES
    requires !Present(r.mem[d][i]) && e < |r.mem| && r.role[e] == Dir && n < ENTRIES * ENTRIES
    ensures Pte(AddTable(r, d, i, t), e, n) == Pte(r, e, n)
  {
    assert EntryOk(r, e, n / ENTRIES);
  }

  lemma AddTableOk(r: Ram, d: nat, i: nat, t: nat)
    requires Ok(r) && d < |r.mem| && r.role[d] == Dir && t < |r.mem| && r.role[t] == Held && i < ENTRIES
    requires !Present(r.mem[d][i])
    ensures Ok(AddTable(r, d, i, t))
  {
    var r' := AddTable(r, d, i, t);
    forall e, j | 0 <= e < |r.mem| && r'.role[e] == Dir && 0 <= j < ENTRIES ensures EntryOk(r', e, j) {
      assert EntryOk(r, e, j);
    }
    forall e, n | 0 <= e < |r.mem| && r'.role[e] == Dir && 0 <= n < USER ensures PageOk(r', e, n) {
      assert PageOk(r, e, n);
      AddTablePte(r, d, i, t, e, n);
    }
    forall f | 0 <= f < |r.mem| ensures RoleOk(r', f) {
      assert RoleOk(r, f);
      if r.role[f].User? {
        AddTablePte(r, d, i, t, r.role[f].d, r.role[f].n);
      }
    }
  }

  /** There is a table for page n. */
  predicate HasTable(r: Ram, d: nat, n: nat)
    requires d < |r.mem| && n < ENTRIES * ENTRIES
  {
    Present(r.mem[d][n / ENTRIES]) && FrameOf(r.mem[d][n / ENTRIES]) < |r.mem|
  }

  /** Page n's entry set to w; the frames in use change as role says. */
  function SetPte(r: Ram, d: nat, n: nat, w: word, role: seq<Role>): Ram
    requires d < |r.mem| && n < ENTRIES * ENTRIES && HasTable(r, d, n)
  {
    var t := FrameOf(r.mem[d][n / ENTRIES]);
    Ram(r.mem[t := r.mem[t][n % ENTRIES := w]], role)
  }

  /** Only that entry changes. */
  lemma SetPteAt(r: Ram, d: nat, n: nat, w: word, role: seq<Role>, e: nat, m: nat)
    requires Ok(r) && d < |r.mem| && r.role[d] == Dir && n < ENTRIES * ENTRIES && HasTable(r, d, n)
    requires e < |r.mem| && r.role[e] == Dir && m < ENTRIES * ENTRIES
    ensures SetPte(r, d, n, w, role).mem[e] == r.mem[e]
    ensures Pte(SetPte(r, d, n, w, role), e, m) == if e == d && m == n then w else Pte(r, e, m)
  {
    assert EntryOk(r, d, n / ENTRIES) && EntryOk(r, e, m / ENTRIES);
    if e == d && m != n && m / ENTRIES == n / ENTRIES {
      assert m % ENTRIES != n % ENTRIES;
    }
  }

  /** A kernel page's entry may name any frame, or a device. */
  lemma MapKernelOk(r: Ram, d: nat, n: nat, w: word)
    requires Ok(r) && d < |r.mem| && r.role[d] == Dir && USER <= n < ENTRIES * ENTRIES && HasTable(r, d, n)
    ensures Ok(SetPte(r, d, n, w, r.role))
  {
    var r' := SetPte(r, d, n, w, r.role);
    forall e, j | 0 <= e < |r.mem| && r'.role[e] == Dir && 0 <= j < ENTRIES ensures EntryOk(r', e, j) {
      assert EntryOk(r, e, j);
      SetPteAt(r, d, n, w, r.role, e, 0);
    }
    forall e, m | 0 <= e < |r.mem| && r'.role[e] == Dir && 0 <= m < USER ensures PageOk(r', e, m) {
      assert PageOk(r, e, m);
      SetPteAt(r, d, n, w, r.role, e, m);
    }
    forall f | 0 <= f < |r.mem| ensures RoleOk(r', f) {
      assert RoleOk(r, f);
      if r.role[f].User? {
        SetPteAt(r, d, n, w, r.role, r.role[f].d, r.role[f].n);
      }
      if r.role[f].Table? {
        SetPteAt(r, d, n, w, r.role, r.role[f].d, 0);
      }
    }
  }

  lemma MapUserOk(r: Ram, d: nat, n: nat, f: nat)
    requires Ok(r) && d < |r.mem| && r.role[d] == Dir && n < USER && HasTable(r, d, n) && !Mapped(r, d, n)
    requires f < |r.mem| && r.role[f] == Held
    ensures Ok(SetPte(r, d, n, MakeEntry(f, 6), r.role[f := User(d, n)]))
  {
    var w, role := MakeEntry(f, 6), r.role[f := User(d, n)];
    var r' := SetPte(r, d, n, w, role);
    forall e, j | 0 <= e < |r.mem| && r'.role[e] == Dir && 0 <= j < ENTRIES ensures EntryOk(r', e, j) {
      assert EntryOk(r, e, j);
      SetPteAt(r, d, n, w, role, e, 0);
    }
    forall e, m | 0 <= e < |r.mem| && r'.role[e] == Dir && 0 <= m < USER ensures PageOk(r', e, m) {
      assert PageOk(r, e, m);
      SetPteAt(r, d, n, w, role, e, m);
    }
    forall g | 0 <= g < |r.mem| ensures RoleOk(r', g) {
      assert RoleOk(r, g);
      if role[g].User? {
        SetPteAt(r, d, n, w, role, role[g].d, role[g].n);
      }
      if role[g].Table? {
        SetPteAt(r, d, n, w, role, role[g].d, 0);
      }
    }
  }

  /** Page n unmapped, and its frame, whatever it holds now, given another use. */
  lemma UnmapOk(r: Ram, d: nat, n: nat, f: nat, c: Frame)
    requires Ok(r) && d < |r.mem| && r.role[d] == Dir && n < USER && HasTable(r, d, n) && Mapped(r, d, n)
    requires f == FrameOf(Pte(r, d, n))
    ensures f < |r.mem| && r.role[f] == User(d, n)
    ensures
      var r1 := SetPte(r, d, n, 0, r.role[f := Free]);
      f < |r1.mem| && Ok(Ram(r1.mem[f := c], r1.role))
  {
    assert PageOk(r, d, n) && EntryOk(r, d, n / ENTRIES);
    var role := r.role[f := Free];
    var r1 := SetPte(r, d, n, 0, role);
    var r' := Ram(r1.mem[f := c], role);
    forall e, m | 0 <= e < |r.mem| && role[e] == Dir && 0 <= m < ENTRIES * ENTRIES
      ensures r'.mem[e] == r.mem[e] && Pte(r', e, m) == if e == d && m == n then 0 else Pte(r, e, m)
    {
      SetPteAt(r, d, n, 0, role, e, m);
      assert EntryOk(r, e, m / ENTRIES);
    }
    forall e, j | 0 <= e < |r.mem| && role[e] == Dir && 0 <= j < ENTRIES ensures EntryOk(r', e, j) {
      assert EntryOk(r, e, j);
      assert Pte(r', e, 0) == Pte(r', e, 0);
    }
    forall e, m | 0 <= e < |r.mem| && role[e] == Dir && 0 <= m < USER ensures PageOk(r', e, m) {
      assert PageOk(r, e, m);
    }
    forall g | 0 <= g < |r.mem| ensures RoleOk(r', g) {
      assert RoleOk(r, g);
      if role[g].Table? {
        assert Pte(r', role[g].d, 0) == Pte(r', role[g].d, 0);
      }
    }
  }

  /** A frame nobody maps from may change hands and contents. */
  lemma IdleOk(r: Ram, f: nat, c: Frame, x: Role)
    requires Ok(r) && f < |r.mem| && r.role[f] in {Free, Held} && x in {Free, Held}
    ensures
      var r' := Ram(r.mem[f := c], r.role[f := x]);
      && Ok(r')
      && forall d, n :: 0 <= d < |r.mem| && r.role[d] == Dir && 0 <= n < ENTRIES * ENTRIES ==>
          Pte(r', d, n) == Pte(r, d, n)
  {
    var r' := Ram(r.mem[f := c], r.role[f := x]);
    forall d, n | 0 <= d < |r.mem| && r.role[d] == Dir && 0 <= n < ENTRIES * ENTRIES
      ensures Pte(r', d, n) == Pte(r, d, n)
    {
      assert EntryOk(r, d, n / ENTRIES);
    }
    forall d, i | 0 <= d < |r.mem| && r'.role[d] == Dir && 0 <= i < ENTRIES ensures EntryOk(r', d, i) {
      assert EntryOk(r, d, i);
    }
    forall d, n | 0 <= d < |r.mem| && r'.role[d] == Dir && 0 <= n < USER ensures PageOk(r', d, n) {
      assert PageOk(r, d, n);
    }
    forall g | 0 <= g < |r.mem| ensures RoleOk(r', g) {
      assert RoleOk(r, g);
    }
  }

  /** A cleared frame can be a directory: one that maps nothing. */
  lemma NewDirOk(r: Ram, f: nat)
    requires Ok(r) && f < |r.mem| && r.role[f] == Held && r.mem[f] == Filled(0)
    ensures Ok(Ram(r.mem, r.role[f := Dir]))
    ensures forall n :: 0 <= n < ENTRIES * ENTRIES ==> Pte(r, f, n) == 0
  {
    var r' := Ram(r.mem, r.role[f := Dir]);
    forall d, i | 0 <= d < |r.mem| && r'.role[d] == Dir && 0 <= i < ENTRIES ensures EntryOk(r', d, i) {
      if d != f {
        assert EntryOk(r, d, i);
      }
    }
    forall d, n | 0 <= d < |r.mem| && r'.role[d] == Dir && 0 <= n < USER ensures PageOk(r', d, n) {
      if d != f {
        assert PageOk(r, d, n);
        assert Pte(r', d, n) == Pte(r, d, n);
      }
    }
    forall g | 0 <= g < |r.mem| ensures RoleOk(r', g) {
      assert RoleOk(r, g);
      if r.role[g].User? {
        assert Pte(r', r.role[g].d, r.role[g].n) == Pte(r, r.role[g].d, r.role[g].n);
      }
    }
  }

  /** The directory and its tables in nobody's use. */
  function Retired(role: seq<Role>, d: nat): (role': seq<Role>)
    ensures |role'| == |role|
    ensures forall f :: 0 <= f < |role| ==>
      role'[f] == if f == d || (role[f].Table? && role[f].d == d) then Held else role[f]
  {
    seq(|role|, f requires 0 <= f < |role| => if f == d || (role[f].Table? && role[f].d == d) then Held else role[f])
  }

  lemma RetireOk(r: Ram, d: nat)
    requires Ok(r) && d < |r.mem| && r.role[d] == Dir
    requires forall f :: 0 <= f < |r.mem| && r.role[f].User? ==> r.role[f].d != d
    ensures Ok(Ram(r.mem, Retired(r.role, d)))
  {
    var r' := Ram(r.mem, Retired(r.role, d));
    forall e, i | 0 <= e < |r.mem| && r'.role[e] == Dir && 0 <= i < ENTRIES ensures EntryOk(r', e, i) {
      assert EntryOk(r, e, i);
    }
    forall e, n | 0 <= e < |r.mem| && r'.role[e] == Dir && 0 <= n < USER ensures PageOk(r', e, n) {
      assert PageOk(r, e, n) && Pte(r', e, n) == Pte(r, e, n);
    }
    forall g | 0 <= g < |r.mem| ensures RoleOk(r', g) {
      assert RoleOk(r, g);
      if r.role[g].User? {
        assert Pte(r', r.role[g].d, r.role[g].n) == Pte(r, r.role[g].d, r.role[g].n);
      }
    }
  }

  /** Where deallocuvm's loop goes from page p. */
  function NextPage(r: Ram, d: nat, p: nat): nat
    requires d < |r.mem| && p < ENTRIES * ENTRIES
  {
    if HasTable(r, d, p) then p + 1 else p + ENTRIES
  }

  /** The loop, starting at page p, comes to page n. */
  predicate Visits(r: Ram, d: nat, p: nat, n: nat)
    requires d < |r.mem| && n < ENTRIES * ENTRIES
    decreases n - p
  {
    p <= n && (p == n || Visits(r, d, NextPage(r, d, p), n))
  }

  /** No table for the pages from p's table on up to n's. */
  predicate NoTables(r: Ram, d: nat, p: nat, n: nat)
    requires d < |r.mem| && n < ENTRIES * ENTRIES
    decreases n - p
  {
    p / ENTRIES < n / ENTRIES ==> !HasTable(r, d, p) && NoTables(r, d, p + ENTRIES, n)
  }

  /**
   * The loop misses a mapped page exactly when there is no table from the first page's on and
   * the page comes earlier in its table than the first page in its own.
   */
  lemma {:induction false} VisitsExactly(r: Ram, d: nat, p: nat, n: nat)
    requires d < |r.mem| && p <= n < ENTRIES * ENTRIES && HasTable(r, d, n)
    ensures Visits(r, d, p, n) <==> !(p / ENTRIES < n / ENTRIES && n % ENTRIES < p % ENTRIES && NoTables(r, d, p, n))
    decreases n - p
  {
    if p < n {
      if HasTable(r, d, p) {
        AllVisited(r, d, p, n);
      } else {
        assert p / ENTRIES < n / ENTRIES;
        if p + ENTRIES <= n {
          VisitsExactly(r, d, p + ENTRIES, n);
        }
      }
    }
  }

  /** From a page that has a table, or begins one, every mapped page is visited. */
  lemma {:induction false} AllVisited(r: Ram, d: nat, p: nat, n: nat)
    requires d < |r.mem| && p <= n < ENTRIES * ENTRIES && HasTable(r, d, n)
    requires HasTable(r, d, p) || p % ENTRIES == 0
    ensures Visits(r, d, p, n)
    decreases n - p
  {
    if p < n {
      if HasTable(r, d, p) {
        assert (p + 1) % ENTRIES == 0 || (p + 1) / ENTRIES == p / ENTRIES;
        AllVisited(r, d, p + 1, n);
      } else {
        assert p / ENTRIES < n / ENTRIES;
        AllVisited(r, d, p + ENTRIES, n);
      }
    }
  }

  /** Uses, user frames and entries are as they were; only frames that were free may have got a use. */
  ghost predicate Keeps(r: Ram, r': Ram) {
    && |r'.mem| == |r.mem| == |r.role| == |r'.role|
    && (forall f :: 0 <= f < |r.mem| && r.role[f] != Free ==> r'.role[f] == r.role[f])
    && (forall f :: 0 <= f < |r.mem| && (r.role[f].User? || r.role[f] in {Held, Reserved}) ==> r'.mem[f] == r.mem[f])
    && forall d, n :: 0 <= d < |r.mem| && r.role[d] == Dir && 0 <= n < ENTRIES * ENTRIES ==>
        Pte(r', d, n) == Pte(r, d, n)
  }

  lemma KeepsTransitive(r: Ram, r': Ram, r'': Ram)
    requires Keeps(r, r') && Keeps(r', r'')
    ensures Keeps(r, r'')
  {
    forall d, n | 0 <= d < |r.mem| && r.role[d] == Dir && 0 <= n < ENTRIES * ENTRIES
      ensures Pte(r'', d, n) == Pte(r, d, n)
    {
      assert Pte(r', d, n) == Pte(r, d, n);
    }
  }

  /** A frame taken off the free list, cleared, and made a table. */
  lemma NewTable(r: Ram, d: nat, i: nat, t: nat)
    requires Ok(r) && d < |r.mem| && r.role[d] == Dir && i < ENTRIES && !Present(r.mem[d][i])
    requires t < |r.mem| && r.role[t] == Free
    ensures
      var r' := AddTable(Ram(r.mem, r.role[t := Held]), d, i, t);
      Ok(r') && Keeps(r, r') && Present(r'.mem[d][i]) && FrameOf(r'.mem[d][i]) == t
  {
    var h := Ram(r.mem, r.role[t := Held]);
    IdleOk(r, t, r.mem[t], Held);
    assert r.mem[t := r.mem[t]] == r.mem;
    AddTableOk(h, d, i, t);
    forall e, n | 0 <= e < |r.mem| && r.role[e] == Dir && 0 <= n < ENTRIES * ENTRIES
      ensures Pte(AddTable(h, d, i, t), e, n) == Pte(r, e, n)
    {
      AddTablePte(h, d, i, t, e, n);
      assert Pte(h, e, n) == Pte(r, e, n);
    }
  }

  /** As Keeps, but page n of directory d has entry w, and frame f, if it is one, is in use for it. */
  ghost predicate Maps(r: Ram, r': Ram, d: nat, n: nat, w: word, f: int) {
    && |r'.mem| == |r.mem| == |r.role| == |r'.role| && d < |r.mem| && n < ENTRIES * ENTRIES
    && (0 <= f < |r.mem| ==> r'.role[f] == User(d, n))
    && (forall g :: 0 <= g < |r.mem| && r.role[g] != Free && g != f ==> r'.role[g] == r.role[g])
    && (forall g :: 0 <= g < |r.mem| && (r.role[g].User? || r.role[g] in {Held, Reserved}) ==> r'.mem[g] == r.mem[g])
    && forall e, m :: 0 <= e < |r.mem| && r.role[e] == Dir && 0 <= m < ENTRIES * ENTRIES ==>
      Pte(r', e, m) == if e == d && m == n then w else Pte(r, e, m)
  }

  lemma MapsKernel(r: Ram, d: nat, n: nat, w: word)
    requires Ok(r) && d < |r.mem| && r.role[d] == Dir && USER <= n < ENTRIES * ENTRIES && HasTable(r, d, n)
    ensures Ok(SetPte(r, d, n, w, r.role)) && Maps(r, SetPte(r, d, n, w, r.role), d, n, w, -1)
  {
    MapKernelOk(r, d, n, w);
    assert EntryOk(r, d, n / ENTRIES);
    forall e, m | 0 <= e < |r.mem| && r.role[e] == Dir && 0 <= m < ENTRIES * ENTRIES
      ensures Pte(SetPte(r, d, n, w, r.role), e, m) == if e == d && m == n then w else Pte(r, e, m)
    {
      SetPteAt(r, d, n, w, r.role, e, m);
    }
  }

  lemma MapsUser(r: Ram, d: nat, n: nat, f: nat)
    requires Ok(r) && d < |r.mem| && r.role[d] == Dir && n < USER && HasTable(r, d, n) && !Mapped(r, d, n)
    requires f < |r.mem| && r.role[f] == Held
    ensures
      var role' := r.role[f := User(d, n)];
      var r' := SetPte(r, d, n, MakeEntry(f, 6), role');
      Ok(r') && Maps(r, r', d, n, MakeEntry(f, 6), f)
  {
    MapUserOk(r, d, n, f);
    assert EntryOk(r, d, n / ENTRIES);
    var role', w := r.role[f := User(d, n)], MakeEntry(f, 6);
    forall e, m | 0 <= e < |r.mem| && r.role[e] == Dir && 0 <= m < ENTRIES * ENTRIES
      ensures Pte(SetPte(r, d, n, w, role'), e, m) == if e == d && m == n then w else Pte(r, e, m)
    {
      SetPteAt(r, d, n, w, role', e, m);
    }
  }

  lemma KeepsMaps(r: Ram, r': Ram, r'': Ram, d: nat, n: nat, w: word, f: int)
    requires Keeps(r, r') && Maps(r', r'', d, n, w, f) && (0 <= f < |r.role| ==> r.role[f] != Free)
    ensures Maps(r, r'', d, n, w, f)
  {
    forall e, m | 0 <= e < |r.mem| && r.role[e] == Dir && 0 <= m < ENTRIES * ENTRIES
      ensures Pte(r'', e, m) == if e == d && m == n then w else Pte(r, e, m)
    {
      assert Pte(r', e, m) == Pte(r, e, m);
    }
  }

  /** Frame g's use once pages first up to next of directory d have the frames from f on: user pages own theirs. */
  ghost function RangeRole(r: Ram, d: nat, first: nat, next: nat, f: nat, g: nat): Role
    requires g < |r.role|
  {
    if r.role[g] == Held && f <= g < f + (next - first) && first + (g - f) < USER then User(d, first + (g - f))
    else r.role[g]
  }

  /** As Keeps, but pages first up to next of directory d have entries for the frames from f on. */
  ghost predicate MapsRange(r: Ram, r': Ram, d: nat, first: nat, next: nat, f: nat, perm: nat) {
    && |r'.mem| == |r.mem| == |r.role| == |r'.role| && d < |r.mem| && next <= ENTRIES * ENTRIES
    && perm in {0, 2, 6} && (first <= next ==> f + (next - first) <= 0x10_0000)
    && (forall g :: 0 <= g < |r.mem| && r.role[g] != Free ==> r'.role[g] == RangeRole(r, d, first, next, f, g))
    && (forall g :: 0 <= g < |r.mem| && (r.role[g].User? || r.role[g] in {Held, Reserved}) ==> r'.mem[g] == r.mem[g])
    && forall e, m :: 0 <= e < |r.mem| && r.role[e] == Dir && 0 <= m < ENTRIES * ENTRIES ==>
      Pte(r', e, m) == if e == d && first <= m < next then MakeEntry(f + (m - first), perm) else Pte(r, e, m)
  }

  lemma RangeGrows(r: Ram, r': Ram, r'': Ram, d: nat, first: nat, next: nat, f: nat, perm: nat)
    requires MapsRange(r, r', d, first, next, f, perm) && first <= next && f + (next - first) < 0x10_0000
    requires next < USER ==> f + (next - first) < |r.mem| && r.role[f + (next - first)] == Held
    requires Maps(r', r'', d, next, MakeEntry(f + (next - first), perm), if next < USER then f + (next - first) else -1)
    ensures MapsRange(r, r'', d, first, next + 1, f, perm)
  {
    forall e, m | 0 <= e < |r.mem| && r.role[e] == Dir && 0 <= m < ENTRIES * ENTRIES
      ensures Pte(r'', e, m) ==
        if e == d && first <= m < next + 1 then MakeEntry(f + (m - first), perm) else Pte(r, e, m)
    {
      assert Pte(r', e, m) == if e == d && first <= m < next then MakeEntry(f + (m - first), perm) else Pte(r, e, m);
    }
  }

  /** A range of one user page. */
  lemma RangeOne(r: Ram, r': Ram, d: nat, n: nat, next: nat, f: nat)
    requires MapsRange(r, r', d, n, next, f, 6) && n <= next <= n + 1 && n < USER && f < |r.mem| && r.role[f] == Held
    ensures next == n + 1 ==> Maps(r, r', d, n, MakeEntry(f, 6), f)
    ensures next == n ==> Keeps(r, r')
  {
  }

  /** The tables missing in directory d for the pages from p0 up to p. */
  ghost function Tables(r: Ram, d: nat, p0: nat, p: nat): nat
    requires d < |r.mem| && p <= ENTRIES * ENTRIES
  {
    if p <= p0 then 0
    else
      Tables(r, d, p0, p - 1) +
      if (p - 1 == p0 || (p - 1) % ENTRIES == 0) && !Present(r.mem[d][(p - 1) / ENTRIES]) then 1 else 0
  }

  lemma {:induction false} TablesGrow(r: Ram, d: nat, p0: nat, p: nat, end: nat)
    requires d < |r.mem| && p <= end <= ENTRIES * ENTRIES
    ensures Tables(r, d, p0, p) <= Tables(r, d, p0, end)
    decreases end - p
  {
    if p < end {
      TablesGrow(r, d, p0, p + 1, end);
    }
  }

  /** In a directory with tables up to the l-th only, one is missing for each later one. */
  lemma {:induction false} TablesFresh(r: Ram, d: nat, p0: nat, p: nat, l: int)
    requires d < |r.mem| && p0 < p <= ENTRIES * ENTRIES && p0 / ENTRIES - 1 <= l <= p0 / ENTRIES
    requires forall i :: p0 / ENTRIES <= i <= (p - 1) / ENTRIES ==> (Present(r.mem[d][i]) <==> i <= l)
    ensures Tables(r, d, p0, p) == (p - 1) / ENTRIES - l
    decreases p - p0
  {
    if p - 1 == p0 {
      assert Tables(r, d, p0, p - 1) == 0;
    } else {
      TablesFresh(r, d, p0, p - 1, l);
    }
  }

  /** The tables for pages p0 up to p are there, and other entries of directory d are as they were. */
  ghost predicate HasTables(r: Ram, r': Ram, d: nat, p0: nat, p: nat) {
    && |r'.mem| == |r.mem| && d < |r.mem| && p <= ENTRIES * ENTRIES
    && forall i :: 0 <= i < ENTRIES ==>
      if p0 < p && p0 / ENTRIES <= i <= (p - 1) / ENTRIES then Present(r'.mem[d][i]) else r'.mem[d][i] == r.mem[d][i]
  }

  lemma HasTablesStart(r: Ram, d: nat, p: nat)
    requires d < |r.mem| && p <= ENTRIES * ENTRIES
    ensures HasTables(r, r, d, p, p) && Tables(r, d, p, p) == 0
  {
  }

  /** Going on to page p takes one more table exactly when directory d has none for it by then. */
  lemma TablesStep(r: Ram, r1: Ram, d: nat, p0: nat, p: nat)
    requires HasTables(r, r1, d, p0, p) && p0 <= p < ENTRIES * ENTRIES
    ensures Tables(r, d, p0, p + 1) == Tables(r, d, p0, p) + if Present(r1.mem[d][p / ENTRIES]) then 0 else 1
    ensures Tables(r1, d, p, p + 1) == if Present(r1.mem[d][p / ENTRIES]) then 0 else 1
  {
    assert Tables(r1, d, p, p) == 0;
  }

  lemma HasTablesStep(r: Ram, r1: Ram, r2: Ram, d: nat, p0: nat, p: nat)
    requires HasTables(r, r1, d, p0, p) && HasTables(r1, r2, d, p, p + 1) && p0 <= p
    ensures HasTables(r, r2, d, p0, p + 1)
  {
  }

  /** Page n of directory d is one the loop from p0 came to before page p. */
  ghost predicate Passed(r: Ram, d: nat, p0: nat, p: nat, n: nat)
    requires d < |r.mem| && n < ENTRIES * ENTRIES
  {
    n < p && Visits(r, d, p0, n)
  }

  /** Frame f is that of a page passed. */
  ghost predicate PassedUser(r: Ram, d: nat, p0: nat, p: nat, f: nat)
    requires d < |r.mem| && f < |r.role|
  {
    r.role[f].User? && r.role[f].d == d && r.role[f].n < USER && Passed(r, d, p0, p, r.role[f].n)
  }

  /** The pages passed are unmapped and their frames free; nothing else has changed. */
  ghost predicate Unmaps(r: Ram, r': Ram, d: nat, p0: nat, p: nat) {
    && |r'.mem| == |r.mem| == |r.role| == |r'.role| && d < |r.mem|
    && (forall f :: 0 <= f < |r.mem| ==> r'.role[f] == (if PassedUser(r, d, p0, p, f) then Free else r.role[f]))
    && (forall f :: 0 <= f < |r.mem| && !(r.role[f].Table? && r.role[f].d == d) && r'.role[f] != Free ==>
        r'.mem[f] == r.mem[f])
    && forall e, m :: 0 <= e < |r.mem| && r.role[e] == Dir && 0 <= m < ENTRIES * ENTRIES ==>
      Pte(r', e, m) == if e == d && m < USER && Passed(r, d, p0, p, m) && Mapped(r, d, m) then 0 else Pte(r, e, m)
  }

  /** What it means that the frame of a mapped page p is freed and its entry cleared. */
  ghost predicate Unmapped(r: Ram, r': Ram, d: nat, p: nat) {
    && |r'.mem| == |r.mem| == |r.role| == |r'.role| && d < |r.mem| && p < USER
    && (forall f :: 0 <= f < |r.mem| ==> r'.role[f] == if r.role[f] == User(d, p) then Free else r.role[f])
    && (forall f :: 0 <= f < |r.mem| && !(r.role[f].Table? && r.role[f].d == d) && r'.role[f] != Free ==>
        r'.mem[f] == r.mem[f])
    && forall e, m :: 0 <= e < |r.mem| && r.role[e] == Dir && 0 <= m < ENTRIES * ENTRIES ==>
      r'.mem[e] == r.mem[e] && Pte(r', e, m) == if e == d && m == p && Mapped(r, d, p) then 0 else Pte(r, e, m)
  }

  lemma UnmapsOne(r: Ram, d: nat, p: nat, f: nat, c: Frame)
    requires Ok(r) && d < |r.mem| && r.role[d] == Dir && p < USER && HasTable(r, d, p) && Mapped(r, d, p)
    requires f == FrameOf(Pte(r, d, p))
    ensures f < |r.mem| && r.role[f] == User(d, p)
    ensures
      var r1 := SetPte(r, d, p, 0, r.role[f := Free]);
      var r' := Ram(r1.mem[f := c], r1.role);
      Ok(r') && Unmapped(r, r', d, p)
  {
    UnmapOk(r, d, p, f, c);
    var role := r.role[f := Free];
    var r1 := SetPte(r, d, p, 0, role);
    var r' := Ram(r1.mem[f := c], role);
    assert EntryOk(r, d, p / ENTRIES);
    forall e, m | 0 <= e < |r.mem| && r.role[e] == Dir && 0 <= m < ENTRIES * ENTRIES
      ensures r'.mem[e] == r.mem[e] && Pte(r', e, m) == if e == d && m == p then 0 else Pte(r, e, m)
    {
      SetPteAt(r, d, p, 0, role, e, m);
      assert EntryOk(r, e, m / ENTRIES);
    }
    forall g | 0 <= g < |r.mem| ensures role[g] == if r.role[g] == User(d, p) then Free else r.role[g] {
      assert RoleOk(r, g);
    }
  }

  /** A page that is not mapped has no frame. */
  lemma UnmapsNone(r: Ram, d: nat, p: nat)
    requires Ok(r) && d < |r.mem| && r.role[d] == Dir && p < USER && !Mapped(r, d, p)
    ensures Unmapped(r, r, d, p)
  {
    forall g | 0 <= g < |r.mem| ensures r.role[g] != User(d, p) {
      assert RoleOk(r, g);
    }
  }

  lemma UnmapsStart(r: Ram, d: nat, p: nat)
    requires |r.mem| == |r.role| && d < |r.mem|
    ensures Unmaps(r, r, d, p, p)
  {
    forall n | 0 <= n < ENTRIES * ENTRIES ensures !Passed(r, d, p, p, n) {
    }
  }

  /** The loop's path: from where it stands it goes on as it would have gone. */
  ghost predicate OnPath(r: Ram, d: nat, p0: nat, p: nat)
    requires d < |r.mem|
  {
    p0 <= p && forall n :: p <= n < ENTRIES * ENTRIES ==> (Visits(r, d, p0, n) <==> Visits(r, d, p, n))
  }

  lemma PathStep(r: Ram, d: nat, p0: nat, p: nat)
    requires d < |r.mem| && OnPath(r, d, p0, p) && p < ENTRIES * ENTRIES
    ensures Visits(r, d, p0, p) && OnPath(r, d, p0, NextPage(r, d, p))
    ensures forall n :: p < n < NextPage(r, d, p) && n < ENTRIES * ENTRIES ==> !Visits(r, d, p0, n)
  {
    forall n | p < n < ENTRIES * ENTRIES ensures Visits(r, d, p, n) <==> Visits(r, d, NextPage(r, d, p), n) {
    }
  }

  lemma UnmapsStep(r: Ram, r1: Ram, r2: Ram, d: nat, p0: nat, p: nat, next: nat)
    requires Unmaps(r, r1, d, p0, p) && Unmapped(r1, r2, d, p) && r.role[d] == Dir && p < USER && p < next
    requires Visits(r, d, p0, p) && forall n :: p < n < next && n < ENTRIES * ENTRIES ==> !Visits(r, d, p0, n)
    ensures Unmaps(r, r2, d, p0, next)
  {
    forall n | 0 <= n < ENTRIES * ENTRIES ensures Passed(r, d, p0, next, n) <==> n == p || Passed(r, d, p0, p, n) {
    }
    forall e, m | 0 <= e < |r.mem| && r.role[e] == Dir && 0 <= m < ENTRIES * ENTRIES
      ensures Pte(r2, e, m) ==
        if e == d && m < USER && Passed(r, d, p0, next, m) && Mapped(r, d, m) then 0 else Pte(r, e, m)
    {
      assert r1.role[e] == Dir;
      assert Pte(r1, e, m) == if e == d && m < USER && Passed(r, d, p0, p, m) && Mapped(r, d, m) then 0 else Pte(r, e,
        m);
    }
    hide Visits;
    hide Pte;
  }

  /** A page below end is missed if it comes early in the first table after none. */
  ghost predicate Missed(r: Ram, d: nat, p0: nat, n: nat)
    requires d < |r.mem| && n < ENTRIES * ENTRIES
  {
    p0 / ENTRIES < n / ENTRIES && n % ENTRIES < p0 % ENTRIES && NoTables(r, d, p0, n)
  }

  /** The loop from p0 unmaps all that is mapped from p0 up to end if and only if no such page is missed. */
  lemma SkipAhead(r: Ram, d: nat, p0: nat, end: nat)
    requires d < |r.mem| && end <= USER
    ensures (forall n :: p0 <= n < end && Mapped(r, d, n) ==> Passed(r, d, p0, end, n)) <==>
      (forall n :: p0 <= n < end && Mapped(r, d, n) ==> !Missed(r, d, p0, n))
  {
    forall n | p0 <= n < end && Mapped(r, d, n) ensures Passed(r, d, p0, end, n) <==> !Missed(r, d, p0, n) {
      VisitsExactly(r, d, p0, n);
    }
  }

  /** It misses none when the mapped pages are those below some size, nor when it starts where a table does. */
  lemma NoneMissed(r: Ram, d: nat, p0: nat, n: nat, size: nat)
    requires d < |r.mem| && p0 <= n < USER && Mapped(r, d, n)
    requires p0 % ENTRIES == 0 || forall m :: 0 <= m < USER ==> (Mapped(r, d, m) <==> m < size)
    ensures !Missed(r, d, p0, n)
  {
    if p0 % ENTRIES != 0 {
      assert Mapped(r, d, p0);
    }
  }

  /** The pages mapped in directory d are those below p. */
  ghost predicate MappedBelow(r: Ram, d: nat, p: nat)
    requires d < |r.mem|
  {
    forall m :: 0 <= m < USER ==> (Mapped(r, d, m) <==> m < p)
  }

  /** The frames of directory d's pages from p0 on are free, and no other frame's use has changed. */
  ghost predicate FreedFrom(r: Ram, r': Ram, d: nat, p0: nat)
    requires |r.role| == |r'.role|
  {
    forall f :: 0 <= f < |r.role| ==>
      r'.role[f] == if r.role[f].User? && r.role[f].d == d && r.role[f].n >= p0 then Free else r.role[f]
  }

  /** When the mapped pages are those below the old end, those below p0 are left, and the frames of the others freed. */
  lemma UnmapsRest(r: Ram, r': Ram, d: nat, p0: nat, p: nat)
    requires Ok(r) && d < |r.mem| && r.role[d] == Dir && p0 <= p <= USER && Unmaps(r, r', d, p0, p)
    requires MappedBelow(r, d, p)
    ensures MappedBelow(r', d, p0) && FreedFrom(r, r', d, p0)
  {
    forall m: nat | m < USER
      ensures Passed(r, d, p0, p, m) <==> p0 <= m < p
    {
      if p0 <= m < p {
        assert Mapped(r, d, m);
        NoneMissed(r, d, p0, m, p);
        VisitsExactly(r, d, p0, m);
      }
    }
    hide Visits;
    forall m: nat | m < USER
      ensures Mapped(r', d, m) <==> m < p0
    {
      assert Mapped(r, d, m) <==> m < p;
      assert Passed(r, d, p0, p, m) <==> p0 <= m < p;
      assert Pte(r', d, m) == if Passed(r, d, p0, p, m) && Mapped(r, d, m) then 0 else Pte(r, d, m);
    }
    forall f | 0 <= f < |r.mem|
      ensures r'.role[f] == if r.role[f].User? && r.role[f].d == d && r.role[f].n >= p0 then Free else r.role[f]
    {
      assert RoleOk(r, f);
    }
  }

  /** All that was mapped from p0 up to p is unmapped if and only if no page is missed. */
  lemma UnmapsAll(r: Ram, r': Ram, d: nat, p0: nat, p: nat)
    requires d < |r.mem| && |r.role| == |r.mem| && r.role[d] == Dir && p <= USER && Unmaps(r, r', d, p0, p)
    ensures (forall m :: p0 <= m < p ==> !Mapped(r', d, m)) <==>
      (forall m :: p0 <= m < p && Mapped(r, d, m) ==> !Missed(r, d, p0, m))
  {
    SkipAhead(r, d, p0, p);
    forall m: nat | p0 <= m < p
      ensures Mapped(r', d, m) <==> Mapped(r, d, m) && !Passed(r, d, p0, p, m)
    {
      assert Pte(r', d, m) == if Passed(r, d, p0, p, m) && Mapped(r, d, m) then 0 else Pte(r, d, m);
    }
  }

  /** It does miss page 1024 when that is mapped, table 0 is missing and it starts at page 1. */
  lemma SkipMisses(r: Ram, d: nat)
    requires d < |r.mem| && !HasTable(r, d, 0) && HasTable(r, d, ENTRIES)
    ensures Missed(r, d, 1, ENTRIES) && !Visits(r, d, 1, ENTRIES)
  {
    VisitsExactly(r, d, 1, ENTRIES);
  }

  /** There is such a memory: a directory, a table for pages 1024 to 2047, and one user page. */
  lemma MissedPage() returns (r: Ram)
    ensures Ok(r) && |r.mem| == 3 && r.role == [Dir, Table(0, 1), User(0, ENTRIES)]
    ensures !HasTable(r, 0, 0) && Mapped(r, 0, ENTRIES) && Missed(r, 0, 1, ENTRIES)
  {
    var z := Filled(0);
    var r0 := Ram([z, z, z], [Held, Held, Held]);
    NewDirOk(r0, 0);
    var r1 := Ram([z, z, z], [Dir, Held, Held]);
    assert r0.role[0 := Dir] == r1.role;
    AddTableOk(r1, 0, 1, 1);
    var r2 := AddTable(r1, 0, 1, 1);
    MapUserOk(r2, 0, ENTRIES, 2);
    r := SetPte(r2, 0, ENTRIES, MakeEntry(2, 6), r2.role[2 := User(0, ENTRIES)]);
    SkipMisses(r, 0);
  }

  /** Page m of directory d is the program's, and has a frame of its own that was free and now holds c. */
  ghost predicate Fresh(r: Ram, r': Ram, d: nat, m: nat, c: Frame)
    requires |r'.mem| == |r.mem| == |r.role| == |r'.role| && d < |r.mem| && m < USER
  {
    var f := FrameOf(Pte(r', d, m));
    && Mapped(r', d, m) && f < |r.mem| && r.role[f] == Free && r'.role[f] == User(d, m) && r'.mem[f] == c
    && Writable(Pte(r', d, m)) && ForUser(Pte(r', d, m))
  }

  /** As Keeps, but for the entries of directory d's pages p0 up to p. */
  ghost predicate Intact(r: Ram, r': Ram, d: nat, p0: nat, p: nat) {
    && |r'.mem| == |r.mem| == |r.role| == |r'.role| && d < |r.mem|
    && (forall f :: 0 <= f < |r.mem| && r.role[f] != Free ==> r'.role[f] == r.role[f])
    && (forall f :: 0 <= f < |r.mem| && (r.role[f].User? || r.role[f] in {Held, Reserved}) ==> r'.mem[f] == r.mem[f])
    && forall e, m ::
      0 <= e < |r.mem| && r.role[e] == Dir && 0 <= m < ENTRIES * ENTRIES && !(e == d && p0 <= m < p) ==>
        Pte(r', e, m) == Pte(r, e, m)
  }

  lemma IntactKeeps(r: Ram, r1: Ram, r2: Ram, d: nat, p0: nat, p: nat)
    requires Intact(r, r1, d, p0, p) && Keeps(r1, r2)
    ensures Intact(r, r2, d, p0, p) && Intact(r, r2, d, p0, p + 1)
  {
    forall e, m | 0 <= e < |r.mem| && r.role[e] == Dir && 0 <= m < ENTRIES * ENTRIES && !(e == d && p0 <= m < p)
      ensures Pte(r2, e, m) == Pte(r, e, m)
    {
      assert r1.role[e] == Dir && Pte(r1, e, m) == Pte(r, e, m);
    }
  }

  lemma IntactMaps(r: Ram, r1: Ram, r2: Ram, d: nat, p0: nat, p: nat, w: word, f: nat)
    requires Intact(r, r1, d, p0, p) && Maps(r1, r2, d, p, w, f) && p0 <= p && f < |r.mem| && r.role[f] == Free
    ensures Intact(r, r2, d, p0, p + 1)
  {
    forall e, m | 0 <= e < |r.mem| && r.role[e] == Dir && 0 <= m < ENTRIES * ENTRIES && !(e == d && p0 <= m < p + 1)
      ensures Pte(r2, e, m) == Pte(r, e, m)
    {
      assert r1.role[e] == Dir && Pte(r1, e, m) == Pte(r, e, m);
    }
  }

  /** Taking away again pages that were not there before leaves what was there before. */
  lemma IntactUnmaps(r: Ram, r1: Ram, r2: Ram, d: nat, p0: nat, p: nat, end: nat)
    requires Ok(r) && Intact(r, r1, d, p0, p) && r.role[d] == Dir && p <= end <= USER && Unmaps(r1, r2, d, p0, end)
    requires forall m :: p0 <= m < end ==> !Mapped(r, d, m)
    ensures Intact(r, r2, d, p0, end)
  {
    forall m | 0 <= m < ENTRIES * ENTRIES && Passed(r1, d, p0, end, m) ensures p0 <= m < end {
    }
    hide Visits;
    forall f | 0 <= f < |r.mem| && r.role[f] != Free ensures r2.role[f] == r.role[f] {
      assert RoleOk(r, f) && r1.role[f] == r.role[f];
    }
    forall e, m | 0 <= e < |r.mem| && r.role[e] == Dir && 0 <= m < ENTRIES * ENTRIES && !(e == d && p0 <= m < end)
      ensures Pte(r2, e, m) == Pte(r, e, m)
    {
      assert r1.role[e] == Dir && Pte(r1, e, m) == Pte(r, e, m);
    }
  }

  /** When the first page is mapped if any is, none is missed. */
  lemma UnmapsBack(r: Ram, r': Ram, d: nat, p0: nat, p: nat)
    requires d < |r.mem| && |r.role| == |r.mem| && r.role[d] == Dir && p <= USER && Unmaps(r, r', d, p0, p)
    requires forall m :: p0 <= m < p && Mapped(r, d, m) ==> Mapped(r, d, p0)
    ensures forall m :: p0 <= m < p ==> !Mapped(r', d, m)
  {
    UnmapsAll(r, r', d, p0, p);
  }

  /** As Keeps, but pages p0 up to p of directory d have new, cleared frames. */
  ghost predicate Grew(r: Ram, r': Ram, d: nat, p0: nat, p: nat) {
    Intact(r, r', d, p0, p) && forall m :: p0 <= m < p && m < USER ==> Fresh(r, r', d, m, Filled(0))
  }

  lemma GrewStart(r: Ram, d: nat, p: nat)
    requires |r.mem| == |r.role| && d < |r.mem|
    ensures Grew(r, r, d, p, p)
  {
  }

  lemma GrewStep(r: Ram, r1: Ram, r2: Ram, r3: Ram, d: nat, p0: nat, p: nat, f: nat)
    requires Grew(r, r1, d, p0, p) && Keeps(r1, r2) && r.role[d] == Dir && p0 <= p < USER
    requires f < |r1.mem| && |r1.mem| <= 0x10_0000 && r1.role[f] == Free && r2.mem[f] == Filled(0) && r2.role[f] == Held
    requires Maps(r2, r3, d, p, MakeEntry(f, 6), f)
    ensures Grew(r, r3, d, p0, p + 1)
  {
    IntactKeeps(r, r1, r2, d, p0, p);
    IntactMaps(r, r2, r3, d, p0, p, MakeEntry(f, 6), f);
    forall m | p0 <= m < p + 1 && m < USER ensures Fresh(r, r3, d, m, Filled(0)) {
      assert r1.role[d] == Dir && r2.role[d] == Dir;
      assert Pte(r2, d, m) == Pte(r1, d, m);
      if m < p {
        assert Fresh(r, r1, d, m, Filled(0));
      }
    }
  }

  /** Directory c, which was free in r, maps no user page from p on. */
  ghost predicate Child(r: Ram, r': Ram, c: nat, p: nat) {
    && Keeps(r, r') && c < |r.mem| && r.role[c] == Free && r'.role[c] == Dir
    && forall m :: p <= m < USER ==> Pte(r', c, m) == 0
  }

  lemma ChildStart(r: Ram, r1: Ram, r2: Ram, c: nat)
    requires Keeps(r, r1) && c < |r.mem| && r.role[c] == Free && r1.mem[c] == Filled(0)
    requires r2 == Ram(r1.mem, r1.role[c := Dir])
    ensures Child(r, r2, c, 0)
  {
    forall d, n | 0 <= d < |r.mem| && r.role[d] == Dir && 0 <= n < ENTRIES * ENTRIES
      ensures Pte(r2, d, n) == Pte(r, d, n)
    {
      assert Pte(r1, d, n) == Pte(r, d, n) && Pte(r2, d, n) == Pte(r1, d, n);
    }
  }

  lemma ChildKernel(r: Ram, r1: Ram, r2: Ram, c: nat, first: nat, next: nat, f: nat, perm: nat)
    requires Child(r, r1, c, 0) && MapsRange(r1, r2, c, first, next, f, perm) && first >= USER
    ensures Child(r, r2, c, 0)
  {
    forall d, n | 0 <= d < |r.mem| && r.role[d] == Dir && 0 <= n < ENTRIES * ENTRIES
      ensures Pte(r2, d, n) == Pte(r, d, n)
    {
      assert r1.role[d] == Dir && Pte(r1, d, n) == Pte(r, d, n);
    }
    forall m | 0 <= m < USER ensures Pte(r2, c, m) == 0 {
      assert Pte(r1, c, m) == 0;
    }
  }

  lemma ChildKeeps(r: Ram, r1: Ram, r2: Ram, c: nat, p: nat)
    requires Child(r, r1, c, p) && Keeps(r1, r2)
    ensures Child(r, r2, c, p)
  {
    KeepsTransitive(r, r1, r2);
    forall m | p <= m < USER ensures Pte(r2, c, m) == 0 {
      assert Pte(r1, c, m) == 0;
    }
  }

  lemma ChildMaps(r: Ram, r1: Ram, r2: Ram, c: nat, p: nat, w: word, f: nat)
    requires Child(r, r1, c, p) && Maps(r1, r2, c, p, w, f) && f < |r.mem| && r.role[f] == Free && f != c
    ensures Child(r, r2, c, p + 1)
  {
    forall d, n | 0 <= d < |r.mem| && r.role[d] == Dir && 0 <= n < ENTRIES * ENTRIES
      ensures Pte(r2, d, n) == Pte(r, d, n)
    {
      assert r1.role[d] == Dir && Pte(r1, d, n) == Pte(r, d, n);
    }
    forall m | p + 1 <= m < USER ensures Pte(r2, c, m) == 0 {
      assert Pte(r1, c, m) == 0;
    }
  }

  /** Pages below p of directory c have frames of their own that hold what those of d held. */
  ghost predicate Copied(r: Ram, r': Ram, d: nat, c: nat, p: nat)
    requires |r'.mem| == |r.mem| == |r.role| == |r'.role| && d < |r.mem| && c < |r.mem|
  {
    forall m :: 0 <= m < p && m < USER ==> CopiedPage(r, r', d, c, m)
  }

  /** Frames that have come into use are tables of directory d. */
  ghost predicate TablesFor(r: Ram, r': Ram, d: nat) {
    && |r'.role| == |r.role| && (forall f :: 0 <= f < |r.role| && r.role[f].Table? ==> r'.role[f] == r.role[f])
    && forall f :: 0 <= f < |r.role| && r.role[f] == Free && r'.role[f] != Free ==>
      r'.role[f].Table? && r'.role[f].d == d
  }

  lemma NoTablesYet(r: Ram, d: nat)
    ensures TablesFor(r, r, d)
  {
  }

  /** Mapping pages of the kernel's gives no other frame a new use. */
  lemma KernelRoles(r: Ram, r': Ram, d: nat, first: nat, next: nat, f: nat, perm: nat)
    requires MapsRange(r, r', d, first, next, f, perm) && first >= USER
    ensures |r'.role| == |r.role|
    ensures forall g :: 0 <= g < |r.role| && r.role[g] != Free ==> r'.role[g] == r.role[g]
  {
  }

  lemma TablesForMore(r: Ram, r1: Ram, r2: Ram, d: nat)
    requires TablesFor(r, r1, d) && TablesFor(r1, r2, d)
    ensures TablesFor(r, r2, d)
  {
  }

  ghost predicate Owns(role: seq<Role>, d: nat, f: nat)
    requires f < |role|
  {
    f == d || ((role[f].Table? || role[f].User?) && role[f].d == d)
  }

  /** Frames that have come into use belong to directory c, but for g, if it is one, which nobody knows of. */
  ghost predicate OwnsNew(r: Ram, r': Ram, c: nat, g: int) {
    && |r'.role| == |r.role| && (g >= 0 ==> g < |r.role| && r.role[g] == Free && r'.role[g] == Held)
    && forall f :: 0 <= f < |r.role| && r.role[f] == Free && f != g ==> r'.role[f] == Free || Owns(r'.role, c, f)
  }

  lemma OwnsTables(r: Ram, r1: Ram, r2: Ram, c: nat, g: int)
    requires OwnsNew(r, r1, c, g) && TablesFor(r1, r2, c)
    requires forall f :: 0 <= f < |r1.role| && r1.role[f] != Free ==> r2.role[f] == r1.role[f]
    ensures OwnsNew(r, r2, c, g)
  {
  }

  /** A frame taken, and not yet in its place. */
  lemma OwnsFrame(r: Ram, r1: Ram, r2: Ram, c: nat, f: nat)
    requires OwnsNew(r, r1, c, -1) && f < |r.role| && r.role[f] == Free && f != c && r1.role[f] == Free
    requires r2.role == r1.role[f := Held]
    ensures OwnsNew(r, r2, c, f)
  {
  }

  lemma OwnsKeeps(r: Ram, r1: Ram, r2: Ram, c: nat, g: int)
    requires OwnsNew(r, r1, c, g) && TablesFor(r1, r2, c) && Keeps(r1, r2)
    ensures OwnsNew(r, r2, c, g)
  {
  }

  /** The frame finds its place as page p of directory c. */
  lemma OwnsPage(r: Ram, r1: Ram, r2: Ram, c: nat, g: nat, p: nat, w: word)
    requires OwnsNew(r, r1, c, g) && TablesFor(r1, r2, c) && Maps(r1, r2, c, p, w, g)
    ensures OwnsNew(r, r2, c, -1)
  {
  }

  /** Every frame has the use it had, but for g, if it is one, which is lost. */
  ghost predicate GivenBack(r: Ram, r': Ram, g: int) {
    && |r'.role| == |r.role| && (g >= 0 ==> g < |r.role| && r.role[g] == Free)
    && forall f :: 0 <= f < |r.role| ==> r'.role[f] == if f == g then Held else r.role[f]
  }

  lemma AllBack(r: Ram, r1: Ram, r2: Ram, c: nat, p: nat, g: int)
    requires Ok(r) && Child(r, r1, c, p) && OwnsNew(r, r1, c, g) && |r2.role| == |r.role|
    requires forall f :: 0 <= f < |r1.role| ==> r2.role[f] == if Owns(r1.role, c, f) then Free else r1.role[f]
    ensures GivenBack(r, r2, g)
  {
    forall f | 0 <= f < |r.role| && r.role[f] != Free ensures r2.role[f] == r.role[f] {
      assert RoleOk(r, f);
    }
  }

  /** The entries for the kernel's pages are the same. */
  ghost predicate KernelKept(r: Ram, r': Ram, c: nat) {
    && |r'.mem| == |r.mem| && c < |r.mem|
    && forall m :: USER <= m < ENTRIES * ENTRIES ==> Pte(r', c, m) == Pte(r, c, m)
  }

  lemma KernelApart(r1: Ram, r2: Ram, r3: Ram, c: nat, p: nat, w: word, f: int)
    requires Keeps(r1, r2) && Maps(r2, r3, c, p, w, f) && r1.role[c] == Dir && p < USER
    ensures KernelKept(r1, r3, c)
  {
    forall m | USER <= m < ENTRIES * ENTRIES ensures Pte(r3, c, m) == Pte(r1, c, m) {
      assert Pte(r2, c, m) == Pte(r1, c, m);
    }
  }

  ghost predicate CopiedPage(r: Ram, r': Ram, d: nat, c: nat, m: nat)
    requires |r'.mem| == |r.mem| == |r.role| == |r'.role| && d < |r.mem| && c < |r.mem| && m < USER
  {
    var f := FrameOf(Pte(r, d, m));
    Mapped(r, d, m) && f < |r.mem| && Fresh(r, r', c, m, r.mem[f])
  }

  lemma CopiedStep(r: Ram, r1: Ram, r2: Ram, r3: Ram, d: nat, c: nat, p: nat, f: nat)
    requires Child(r, r1, c, p) && d < |r.mem| && r.role[d] == Dir && Copied(r, r1, d, c, p) && p < USER
    requires Keeps(r1, r2) && f < |r1.mem| && |r1.mem| <= 0x10_0000 && r1.role[f] == Free && r2.role[f] == Held
    requires Mapped(r, d, p) && FrameOf(Pte(r, d, p)) < |r.mem| && r2.mem[f] == r.mem[FrameOf(Pte(r, d, p))]
    requires Maps(r2, r3, c, p, MakeEntry(f, 6), f)
    ensures Copied(r, r3, d, c, p + 1)
  {
    forall m | 0 <= m < p + 1 && m < USER ensures CopiedPage(r, r3, d, c, m) {
      assert r2.role[c] == Dir && Pte(r2, c, m) == Pte(r1, c, m);
      if m < p {
        assert CopiedPage(r, r1, d, c, m);
      }
    }
  }
}
