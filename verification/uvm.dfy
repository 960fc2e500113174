/** The user-memory half of kernel/vm.c: growing, shrinking, copying and freeing an address space, with the
    roll back of every path that runs out of memory. */
module Uvm {
  import opened Sv39
  import opened PageTables
  import opened PageBill
  import opened Vm

  const PTE_R: nat := 2
  const PTE_W: nat := 4
  const PTE_X: nat := 8
  const PTE_U: nat := 16
  const USER_PERM: nat := PTE_R + PTE_W + PTE_X + PTE_U

  /** PGROUNDUP(sz) / PGSIZE */
  function Pages(sz: nat): nat {
    (sz + PGSIZE - 1) / PGSIZE
  }

  /** The address space maps exactly its first n user pages. */
  ghost predicate UserPages(mem: Mem, s: Space, n: nat) {
    n <= TRAPFRAME && forall v: nat | v < TRAPFRAME :: Leaf(mem, s, v) != 0 <==> v < n
  }

  // ----- there is no room for more user pages than there are pages -----

  ghost function PagesOf(mem: Mem, s: Space, n: nat): set<nat> {
    if n == 0 then {} else PagesOf(mem, s, n - 1) + {PteToPage(Leaf(mem, s, n - 1))}
  }

  lemma {:induction false} PagesDiffer(mem: Mem, role: map<nat, Role>, sp: Spaces, r: nat, n: nat)
    requires UsersOk(mem, role, sp) && r in sp && n <= TRAPFRAME && forall v: nat | v < n :: Leaf(mem, sp[r], v) != 0
    ensures |PagesOf(mem, sp[r], n)| == n
    ensures forall p | p in PagesOf(mem, sp[r], n) :: p in role && role[p].User? && role[p].root == r && role[p].vpn < n
  {
    hide Leaf;
    if n > 0 {
      PagesDiffer(mem, role, sp, r, n - 1);
      LeafPage(mem, role, sp, r, n - 1);
    }
  }

  lemma CardinalityLe(a: set<nat>, b: set<nat>)
    requires a <= b
    ensures |a| <= |b|
  {
    if a != {} {
      var x :| x in a;
      CardinalityLe(a - {x}, b - {x});
    }
  }

  /** Whoever holds one more page can still map it below TRAPFRAME. */
  lemma RoomBelow(mem: Mem, role: map<nat, Role>, sp: Spaces, r: nat, n: nat, held: nat)
    requires UsersOk(mem, role, sp) && r in sp && n <= TRAPFRAME && forall v: nat | v < n :: Leaf(mem, sp[r], v) != 0
    requires held in role && role[held].Held? && |role.Keys| <= TRAPFRAME
    ensures n < TRAPFRAME
  {
    PagesDiffer(mem, role, sp, r, n);
    var ps := PagesOf(mem, sp[r], n);
    CardinalityLe(ps + {held}, role.Keys);
    assert held !in ps;
  }

  // ----- growing -----

  /** Outside of pages a..a+n of address space r, no mapping has changed. */
  ghost predicate LeavesBut(mem: Mem, sp: Spaces, after: Mem, sp': Spaces, r: nat, a: nat, n: nat) {
    && sp'.Keys == sp.Keys
    && forall q, v: nat | q in sp && !(q == r && a <= v < a + n) :: Leaf(after, sp'[q], v) == Leaf(mem, sp[q], v)
  }

  /** Pages a..a+n of an address space are zeroed user memory. */
  ghost predicate ZeroPages(mem: Mem, s: Space, a: nat, n: nat) {
    forall v: nat | a <= v < a + n ::
      && PteFlags(Leaf(mem, s, v)) == USER_PERM + PTE_V
      && PteToPage(Leaf(mem, s, v)) in mem && mem[PteToPage(Leaf(mem, s, v))] == Filled(0)
  }

  /** Pages only went from the free list to tables and to user pages a..a+n of address space r. */
  ghost predicate RolesTo(role: map<nat, Role>, role': map<nat, Role>, r: nat, a: nat, n: nat) {
    && role'.Keys == role.Keys
    && forall p | p in role :: role'[p] == role[p] ||
         (role[p].Free? && role'[p].Table? && role'[p].root == r) ||
         (role[p].Free? && role'[p].User? && role'[p].root == r && a <= role'[p].vpn < a + n)
  }

  /** n user pages have been added from page a on, and whatever tables they needed. */
  ghost predicate Grew(mem: Mem, role: map<nat, Role>, sp: Spaces, after: Mem, role': map<nat, Role>, sp': Spaces,
                       r: nat, a: nat, n: nat)
  {
    && SpacesGrow(sp, sp') && DataSame(mem, role, after) && LeavesBut(mem, sp, after, sp', r, a, n)
    && RolesTo(role, role', r, a, n)
  }

  lemma GrewNone(mem: Mem, role: map<nat, Role>, sp: Spaces, r: nat, a: nat)
    requires mem.Keys == role.Keys
    ensures Grew(mem, role, sp, mem, role, sp, r, a, 0)
  {}

  /** One page taken from the free list, given its contents, and mapped. */
  lemma GrewOne(m1: Mem, r1: map<nat, Role>, s1: Spaces, m2: Mem, m3: Mem, r3: map<nat, Role>, s3: Spaces,
                r: nat, a: nat, p: nat, flags: nat)
    requires r in s1 && a < TRAPFRAME && flags < FLAGS && m1.Keys == r1.Keys
    requires p in r1 && r1[p].Free? && SameLeaves(m1, m2, s1) && p in m2 && m2 == m1[p := m2[p]]
    requires Mapped(m2, r1[p := Held], s1, m3, r3, s3, r, a, 1, p, flags)
    ensures Grew(m1, r1, s1, m3, r3, s3, r, a, 1)
    ensures r in s3 && Leaf(m3, s3[r], a) == MakePte(p, flags) && p in m3 && m3[p] == m2[p]
  {
    hide Leaf;
  }

  lemma GrewJoin(m0: Mem, r0: map<nat, Role>, s0: Spaces, m1: Mem, r1: map<nat, Role>, s1: Spaces,
                 m2: Mem, r2: map<nat, Role>, s2: Spaces, r: nat, a: nat, n: nat)
    requires Grew(m0, r0, s0, m1, r1, s1, r, a, n) && Grew(m1, r1, s1, m2, r2, s2, r, a + n, 1)
    ensures Grew(m0, r0, s0, m2, r2, s2, r, a, n + 1)
  {
    hide Leaf;
  }

  lemma GrewTables(m0: Mem, r0: map<nat, Role>, s0: Spaces, m1: Mem, r1: map<nat, Role>, s1: Spaces,
                   m2: Mem, r2: map<nat, Role>, s2: Spaces, r: nat, a: nat, n: nat)
    requires Grew(m0, r0, s0, m1, r1, s1, r, a, n) && Extended(m1, r1, s1, m2, r2, s2, r)
    ensures Grew(m0, r0, s0, m2, r2, s2, r, a, n)
  {
    hide Leaf;
  }

  /** Unmapping and freeing what was added leaves no trace but tables. */
  lemma GrewUndone(m0: Mem, r0: map<nat, Role>, s0: Spaces, m1: Mem, r1: map<nat, Role>, s1: Spaces,
                   m2: Mem, r2: map<nat, Role>, r: nat, a: nat, n: nat)
    requires Grew(m0, r0, s0, m1, r1, s1, r, a, n) && Unmapped(m1, r1, m2, r2, s1, r, a, n, Free)
    requires r in s0 && forall v: nat | a <= v < a + n :: Leaf(m0, s0[r], v) == 0
    requires UsersOk(m0, r0, s0)
    ensures Extended(m0, r0, s0, m2, r2, s1, r)
  {
    hide Leaf;
    assert DataSame(m0, r0, m2) by {
      forall p | p in r0 && Plain(r0[p]) ensures p in m0 && p in m2 && m2[p] == m0[p] {
        assert r1[p] == r0[p];
      }
    }
  }

  /** n zeroed user pages have been added. */
  ghost predicate Added(mem: Mem, role: map<nat, Role>, sp: Spaces, after: Mem, role': map<nat, Role>, sp': Spaces,
                        r: nat, a: nat, n: nat)
  {
    Grew(mem, role, sp, after, role', sp', r, a, n) && r in sp' && ZeroPages(after, sp'[r], a, n)
  }

  /** uvmdealloc(). */
  method Uvmdealloc(k: Kernel, r: nat, oldsz: nat, newsz: nat) returns (sz: nat)
    requires k.Valid() && r in k.sp && Pages(oldsz) <= TRAPFRAME
    requires newsz < oldsz ==> forall v: nat | Pages(newsz) <= v < Pages(oldsz) :: Leaf(k.mem, k.sp[r], v) != 0
    modifies k`mem, k`head, k`free, k`role
    ensures k.Valid() && sz == if newsz < oldsz then newsz else oldsz
    ensures newsz >= oldsz ==> k.mem == old(k.mem) && k.role == old(k.role)
    ensures k.role.Keys == old(k.role).Keys
    ensures newsz < oldsz ==>
      Unmapped(old(k.mem), old(k.role), k.mem, k.role, k.sp, r, Pages(newsz), Pages(oldsz) - Pages(newsz), Free)
  {
    hide PlacesOk, FreeListOk, Leaf, Unmapped;
    if newsz >= oldsz {
      return oldsz;
    }
    KeysSame(k);
    k.UnmappedNone(k.mem, k.role, k.sp, r, Pages(newsz), Free);
    if Pages(newsz) < Pages(oldsz) {
      var npages := Pages(oldsz) - Pages(newsz);
      var ok := k.Uvmunmap(r, Pages(newsz), npages, true);
      assert ok;
      UnmappedKeys(old(k.mem), old(k.role), k.mem, k.role, k.sp, r, Pages(newsz), npages, Free);
    }
    sz := newsz;
  }

  lemma UnmappedKeys(m0: Mem, r0: map<nat, Role>, m1: Mem, r1: map<nat, Role>, s: Spaces, r: nat, vpn: nat, n: nat,
                     y: Role)
    requires Unmapped(m0, r0, m1, r1, s, r, vpn, n, y)
    ensures r1.Keys == r0.Keys
  {}

  lemma KeysSame(k: Kernel)
    requires k.Valid()
    ensures k.mem.Keys == k.role.Keys && UsersOk(k.mem, k.role, k.sp)
  {
    hide FreeListOk, TablesOk, TreesOk, UsersOk, LeavesOk;
  }

  lemma AddedJoin(m0: Mem, r0: map<nat, Role>, s0: Spaces, m1: Mem, r1: map<nat, Role>, s1: Spaces,
                  m2: Mem, r2: map<nat, Role>, s2: Spaces, r: nat, a: nat, n: nat)
    requires Added(m0, r0, s0, m1, r1, s1, r, a, n) && Added(m1, r1, s1, m2, r2, s2, r, a + n, 1)
    requires UsersOk(m1, r1, s1) && a + n <= TRAPFRAME && r in s0
    ensures Added(m0, r0, s0, m2, r2, s2, r, a, n + 1)
  {
    hide Leaf, ZeroPages, UsersOk, LeavesBut, DataSame;
    GrewKeys(m0, r0, s0, m1, r1, s1, r, a, n);
    GrewJoin(m0, r0, s0, m1, r1, s1, m2, r2, s2, r, a, n);
    ZeroJoin(m1, r1, s1, m2, s2, r, a, n);
  }

  lemma GrewKeys(mem: Mem, role: map<nat, Role>, sp: Spaces, after: Mem, role': map<nat, Role>, sp': Spaces, r: nat,
                 a: nat, n: nat)
    requires Grew(mem, role, sp, after, role', sp', r, a, n)
    ensures sp'.Keys == sp.Keys && role'.Keys == role.Keys
  {}

  lemma ZeroJoin(m1: Mem, r1: map<nat, Role>, s1: Spaces, m2: Mem, s2: Spaces, r: nat, a: nat, n: nat)
    requires r in s1 && ZeroPages(m1, s1[r], a, n) && UsersOk(m1, r1, s1) && a + n <= TRAPFRAME
    requires LeavesBut(m1, s1, m2, s2, r, a + n, 1) && DataSame(m1, r1, m2) && r in s2 && ZeroPages(m2, s2[r], a + n, 1)
    ensures ZeroPages(m2, s2[r], a, n + 1)
  {
    hide Leaf;
    forall v: nat | a <= v < a + n + 1
      ensures
        && PteFlags(Leaf(m2, s2[r], v)) == USER_PERM + PTE_V
        && PteToPage(Leaf(m2, s2[r], v)) in m2 && m2[PteToPage(Leaf(m2, s2[r], v))] == Filled(0)
    {
      if v < a + n {
        assert Leaf(m2, s2[r], v) == Leaf(m1, s1[r], v);
        LeafPage(m1, r1, s1, r, v);
      }
    }
  }

  lemma AddedPrefix(mem: Mem, sp: Spaces, after: Mem, sp': Spaces, r: nat, a: nat)
    requires r in sp && r in sp' && LeavesBut(mem, sp, after, sp', r, a, 1) && ZeroPages(after, sp'[r], a, 1)
    requires a < TRAPFRAME && forall v: nat | v < TRAPFRAME :: Leaf(mem, sp[r], v) != 0 <==> v < a
    ensures forall v: nat | v < TRAPFRAME :: Leaf(after, sp'[r], v) != 0 <==> v < a + 1
  {
    hide Leaf;
    assert PteFlags(Leaf(after, sp'[r], a)) != 0;
  }

  lemma ExtendedPrefix(mem: Mem, role: map<nat, Role>, sp: Spaces, after: Mem, role': map<nat, Role>, sp': Spaces,
                       r: nat)
    requires Extended(mem, role, sp, after, role', sp', r) && r in sp
    ensures r in sp' && role'.Keys == role.Keys && sp'.Keys == sp.Keys
    ensures forall v: nat :: Leaf(after, sp'[r], v) == Leaf(mem, sp[r], v)
  {}

  /** Maps page p, just allocated and filled, at page a, or frees it again: what uvmalloc() and uvmcopy() have in
      common. The state before the allocation is m1, r1, s1 with free0 free pages. */
  method PlacePage(k: Kernel, r: nat, a: nat, p: nat, perm: nat, ghost m1: Mem, ghost r1: map<nat, Role>,
                   ghost s1: Spaces, ghost free0: nat)
    returns (ok: bool)
    requires k.Valid() && r in k.sp && a < TRAPFRAME && 1 < perm < FLAGS && Leaf(k.mem, k.sp[r], a) == 0
    requires p in r1 && r1[p].Free? && k.role == r1[p := Held] && k.sp == s1 && m1.Keys == r1.Keys
    requires SameLeaves(m1, k.mem, s1) && p in k.mem && k.mem == m1[p := k.mem[p]] && free0 == |k.free| + 1
    modifies k
    ensures k.Valid() && k.role.Keys == r1.Keys && k.sp.Keys == s1.Keys
    ensures ok ==>
      && Grew(m1, r1, s1, k.mem, k.role, k.sp, r, a, 1) && Leaf(k.mem, k.sp[r], a) == MakePte(p, WithValid(perm))
      && p in k.mem && k.mem[p] == old(k.mem)[p]
    ensures ok ==> Billed(free0, s1[r].Keys, |k.free|, k.sp[r].Keys, Path(a), 1) && Path(a) <= k.sp[r].Keys
    ensures !ok ==> Extended(m1, r1, s1, k.mem, k.role, k.sp, r) && free0 < 1 + Lack(Path(a), s1[r].Keys)
  {
    hide PlacesOk, FreeListOk, Leaf, Extended, Mapped, Grew, Billed, Path, Paths, Lack, SameLeaves;
    ghost var m2, r2 := k.mem, k.role;
    OnePath(a);
    var res, done := k.Mappages(r, a * PGSIZE, PGSIZE, p, perm);
    k.KeysKept(m2, r2, s1, k.mem, k.role, k.sp, r, a, done, p, WithValid(perm));
    if !res.MapOk? {
      assert done == 0 && res.NoMemory?;            // never panic("mappages: remap")
      MappedZero(m2, r2, s1, k.mem, k.role, k.sp, r, a, p, WithValid(perm));
      ghost var m3, r3 := k.mem, k.role;
      StillHeld(m2, r2, s1, m3, r3, k.sp, r, p);
      k.Kfree(p);
      Detour(m1, r1, s1, m2, m3, r3, k.sp, k.mem, r, p);
      return false;
    }
    GrewOne(m1, r1, s1, m2, k.mem, k.role, k.sp, r, a, p, WithValid(perm));
    BillPage(free0, s1[r].Keys, |k.free|, k.sp[r].Keys, Path(a));
    return true;
  }

  /** One turn of the loop of uvmalloc(), up to its own roll back. */
  method AddPage(k: Kernel, r: nat, a: nat) returns (ok: bool)
    requires k.Valid() && r in k.sp && a <= TRAPFRAME && |k.role.Keys| <= TRAPFRAME
    requires forall v: nat | v < TRAPFRAME :: Leaf(k.mem, k.sp[r], v) != 0 <==> v < a
    modifies k
    ensures k.Valid() && k.role.Keys == old(k.role).Keys && k.sp.Keys == old(k.sp).Keys
    ensures ok ==>
      && a < TRAPFRAME && Added(old(k.mem), old(k.role), old(k.sp), k.mem, k.role, k.sp, r, a, 1)
      && forall v: nat | v < TRAPFRAME :: Leaf(k.mem, k.sp[r], v) != 0 <==> v < a + 1
    ensures !ok ==> Extended(old(k.mem), old(k.role), old(k.sp), k.mem, k.role, k.sp, r)
    ensures ok ==>
      && Billed(|old(k.free)|, old(k.sp)[r].Keys, |k.free|, k.sp[r].Keys, Path(a), 1) && Path(a) <= k.sp[r].Keys
    ensures !ok ==> |old(k.free)| < 1 + Lack(Path(a), old(k.sp)[r].Keys)
  {
    hide PlacesOk, FreeListOk, Leaf, Extended, UsersOk, Grew, ZeroPages, Billed, Path, Lack;
    ghost var m1, r1, s1, f1 := k.mem, k.role, k.sp, |k.free|;
    KeysSame(k);
    var p := k.Kalloc();
    if p == 0 {
      ExtendedNone(k.mem, k.role, k.sp, r);
      return false;
    }
    KeysSame(k);
    RoomBelow(k.mem, k.role, k.sp, r, a, p);
    ghost var mk := k.mem;
    k.Zero(p);
    SameLeavesTwice(m1, mk, k.mem, s1);
    assert k.mem == m1[p := Filled(0)];
    ok := PlacePage(k, r, a, p, USER_PERM, m1, r1, s1, f1);
    if ok {
      ZeroOne(k.mem, k.sp[r], a, p);
      GrewButs(m1, r1, s1, k.mem, k.role, k.sp, r, a, 1);
      AddedPrefix(m1, s1, k.mem, k.sp, r, a);
    }
  }

  lemma GrewButs(m0: Mem, r0: map<nat, Role>, s0: Spaces, m1: Mem, r1: map<nat, Role>, s1: Spaces, r: nat, a: nat,
                 n: nat)
    requires Grew(m0, r0, s0, m1, r1, s1, r, a, n)
    ensures LeavesBut(m0, s0, m1, s1, r, a, n)
  {}

  lemma ZeroOne(mem: Mem, s: Space, a: nat, p: nat)
    requires Leaf(mem, s, a) == MakePte(p, USER_PERM + PTE_V) && p in mem && mem[p] == Filled(0)
    ensures ZeroPages(mem, s, a, 1)
  {
    hide Leaf;
    PteRoundTrip(p, USER_PERM + PTE_V);
  }

  lemma SameLeavesTwice(m0: Mem, m1: Mem, m2: Mem, sp: Spaces)
    requires SameLeaves(m0, m1, sp) && SameLeaves(m1, m2, sp)
    ensures SameLeaves(m0, m2, sp)
  {
    hide Leaf;
  }

  lemma MappedZero(m0: Mem, r0: map<nat, Role>, s0: Spaces, m1: Mem, r1: map<nat, Role>, s1: Spaces,
                   r: nat, vpn: nat, ppn: nat, flags: nat)
    requires flags < FLAGS && Mapped(m0, r0, s0, m1, r1, s1, r, vpn, 0, ppn, flags)
    ensures Extended(m0, r0, s0, m1, r1, s1, r)
  {
    hide Leaf;
  }

  lemma StillHeld(m0: Mem, r0: map<nat, Role>, s0: Spaces, m1: Mem, r1: map<nat, Role>, s1: Spaces, r: nat, p: nat)
    requires Extended(m0, r0, s0, m1, r1, s1, r) && p in r0 && r0[p].Held?
    ensures p in r1 && r1[p].Held?
  {
    hide Leaf;
  }

  /** A page that was allocated and freed again leaves no trace but tables. */
  lemma Detour(m1: Mem, r1: map<nat, Role>, s1: Spaces, m2: Mem, m3: Mem, r3: map<nat, Role>, s3: Spaces, m4: Mem,
               r: nat, p: nat)
    requires p in r1 && r1[p].Free? && m1.Keys == r1.Keys && SameLeaves(m1, m2, s1) && p in m2 && m2 == m1[p := m2[p]]
    requires Extended(m2, r1[p := Held], s1, m3, r3, s3, r) && r3[p].Held?
    requires SameLeaves(m3, m4, s3) && p in m4 && m4 == m3[p := m4[p]]
    ensures Extended(m1, r1, s1, m4, r3[p := Free], s3, r)
  {
    hide Leaf;
  }

  lemma ExtendedRolls(m0: Mem, r0: map<nat, Role>, s0: Spaces, m1: Mem, r1: map<nat, Role>, s1: Spaces,
                      m2: Mem, r2: map<nat, Role>, s2: Spaces, r: nat, a: nat, n: nat)
    requires Added(m0, r0, s0, m1, r1, s1, r, a, n) && Extended(m1, r1, s1, m2, r2, s2, r)
    requires UsersOk(m1, r1, s1) && a + n <= TRAPFRAME && r in s0
    ensures Added(m0, r0, s0, m2, r2, s2, r, a, n)
  {
    hide Leaf, UsersOk, ZeroPages, Grew, Extended;
    GrewTables(m0, r0, s0, m1, r1, s1, m2, r2, s2, r, a, n);
    GrewKeys(m0, r0, s0, m1, r1, s1, r, a, n);
    ZeroKept(m1, r1, s1, m2, r2, s2, r, a, n);
  }

  lemma ZeroKept(m1: Mem, r1: map<nat, Role>, s1: Spaces, m2: Mem, r2: map<nat, Role>, s2: Spaces, r: nat, a: nat,
                 n: nat)
    requires r in s1 && ZeroPages(m1, s1[r], a, n) && UsersOk(m1, r1, s1) && a + n <= TRAPFRAME
    requires Extended(m1, r1, s1, m2, r2, s2, r)
    ensures r in s2 && ZeroPages(m2, s2[r], a, n)
  {
    hide Leaf;
    forall v: nat | a <= v < a + n
      ensures
        && PteFlags(Leaf(m2, s2[r], v)) == USER_PERM + PTE_V
        && PteToPage(Leaf(m2, s2[r], v)) in m2 && m2[PteToPage(Leaf(m2, s2[r], v))] == Filled(0)
    {
      assert Leaf(m2, s2[r], v) == Leaf(m1, s1[r], v);
      LeafPage(m1, r1, s1, r, v);
    }
  }

  lemma AddedNone(mem: Mem, role: map<nat, Role>, sp: Spaces, r: nat, a: nat)
    requires mem.Keys == role.Keys && r in sp
    ensures Added(mem, role, sp, mem, role, sp, r, a, 0)
  {
    hide Leaf;
  }

  lemma TurnMeans(a: nat, sz: nat)
    ensures a * PGSIZE < sz <==> a < Pages(sz)
  {}

  lemma WholePages(n: nat)
    ensures Pages(n * PGSIZE) == n
  {}

  /** The roll back of uvmalloc(): the pages from `first` up to a are freed again. */
  method RollBack(k: Kernel, r: nat, first: nat, a: nat, ghost m0: Mem, ghost r0: map<nat, Role>, ghost s0: Spaces)
    requires k.Valid() && r in k.sp && first <= a <= TRAPFRAME && k.sp.Keys == s0.Keys && r in s0
    requires Grew(m0, r0, s0, k.mem, k.role, k.sp, r, first, a - first) && UsersOk(m0, r0, s0)
    requires forall v: nat | v < TRAPFRAME :: Leaf(k.mem, k.sp[r], v) != 0 <==> v < a
    requires forall v: nat | first <= v < a :: Leaf(m0, s0[r], v) == 0
    modifies k
    ensures k.Valid() && k.role.Keys == old(k.role).Keys && k.sp == old(k.sp)
    ensures Extended(m0, r0, s0, k.mem, k.role, k.sp, r)
  {
    hide PlacesOk, FreeListOk, Leaf, Grew, Extended, Unmapped, UsersOk, Pages;
    ghost var m2, r2 := k.mem, k.role;
    KeysSame(k);
    k.UnmappedNone(m2, r2, k.sp, r, first, Free);
    WholePages(a);
    WholePages(first);
    var undone := Uvmdealloc(k, r, a * PGSIZE, first * PGSIZE);
    GrewUndone(m0, r0, s0, m2, r2, k.sp, k.mem, k.role, r, first, a - first);
  }

  lemma PagesUp(sz: nat, newsz: nat)
    requires sz <= newsz
    ensures Pages(sz) <= Pages(newsz)
  {}

  /** uvmalloc(): the grown space, or 0 and the space as it was. */
  method Uvmalloc(k: Kernel, r: nat, oldsz: nat, newsz: nat) returns (sz: nat, ok: bool)
    requires k.Valid() && r in k.sp && UserPages(k.mem, k.sp[r], Pages(oldsz)) && |k.role.Keys| <= TRAPFRAME
    modifies k
    ensures k.Valid() && k.role.Keys == old(k.role).Keys && k.sp.Keys == old(k.sp).Keys
    ensures newsz < oldsz ==> ok && sz == oldsz && k.mem == old(k.mem) && k.role == old(k.role) && k.sp == old(k.sp)
    ensures newsz < oldsz ==> k.free == old(k.free)
    ensures newsz >= oldsz && ok ==>
      && sz == newsz && Pages(newsz) <= TRAPFRAME
      && Added(old(k.mem), old(k.role), old(k.sp), k.mem, k.role, k.sp, r, Pages(oldsz), Pages(newsz) - Pages(oldsz))
      && UserPages(k.mem, k.sp[r], Pages(newsz))
    ensures !ok ==> sz == 0 && Extended(old(k.mem), old(k.role), old(k.sp), k.mem, k.role, k.sp, r)
    ensures newsz >= oldsz ==>
      (ok <==> |old(k.free)| >= Cost(old(k.sp)[r].Keys, Pages(oldsz), Pages(newsz) - Pages(oldsz)))
    ensures newsz >= oldsz && ok ==>
      && Paths(Pages(oldsz), Pages(newsz) - Pages(oldsz)) <= k.sp[r].Keys
      && Billed(|old(k.free)|, old(k.sp)[r].Keys, |k.free|, k.sp[r].Keys,
                Paths(Pages(oldsz), Pages(newsz) - Pages(oldsz)), Pages(newsz) - Pages(oldsz))
  {
    hide PlacesOk, FreeListOk, Leaf, Grew, Extended, Unmapped, UsersOk, Billed, Path, Paths, Lack, Pages,
         ZeroPages;
    if newsz < oldsz {
      return oldsz, true;
    }
    ghost var m0, r0, s0, f0, k0 := k.mem, k.role, k.sp, |k.free|, k.sp[r].Keys;
    var first := Pages(oldsz);
    KeysSame(k);
    AddedNone(m0, r0, s0, r, first);
    k.NoPaths(first);
    BilledNone(f0, k0, Paths(first, 0));
    PagesUp(oldsz, newsz);
    var a := first;
    TurnMeans(a, newsz);
    while a * PGSIZE < newsz
      invariant first <= a <= TRAPFRAME && a <= Pages(newsz) && (a * PGSIZE < newsz <==> a < Pages(newsz))
      invariant k.Valid() && r in k.sp && k.role.Keys == r0.Keys && k.sp.Keys == s0.Keys
      invariant Added(m0, r0, s0, k.mem, k.role, k.sp, r, first, a - first)
      invariant forall v: nat | v < TRAPFRAME :: Leaf(k.mem, k.sp[r], v) != 0 <==> v < a
      invariant Billed(f0, k0, |k.free|, k.sp[r].Keys, Paths(first, a - first), a - first)
      invariant Paths(first, a - first) <= k.sp[r].Keys
      decreases TRAPFRAME - a
    {
      ghost var m1, r1, s1, f1, k1 := k.mem, k.role, k.sp, |k.free|, k.sp[r].Keys;
      KeysSame(k);
      ok := AddPage(k, r, a);
      if !ok {
        TooMuch(f0, k0, f1, k1, first, a - first, Pages(newsz) - first);
        ExtendedRolls(m0, r0, s0, m1, r1, s1, k.mem, k.role, k.sp, r, first, a - first);
        ExtendedPrefix(m1, r1, s1, k.mem, k.role, k.sp, r);
        RollBack(k, r, first, a, m0, r0, s0);
        return 0, false;
      }
      AddedJoin(m0, r0, s0, m1, r1, s1, k.mem, k.role, k.sp, r, first, a - first);
      BillNext(f0, k0, f1, k1, |k.free|, k.sp[r].Keys, first, a - first, a - first, 1);
      a := a + 1;
      TurnMeans(a, newsz);
    }
    assert a == Pages(newsz);
    Paid(f0, k0, |k.free|, k.sp[r].Keys, Paths(first, a - first), a - first);
    return newsz, true;
  }
}
