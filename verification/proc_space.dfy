/** Building and dropping a process's address space: uvmcreate() of kernel/vm.c, proc_pagetable() and
    proc_freepagetable() of kernel/proc.c. */
module ProcSpace {
  import opened Sv39
  import opened PageTables
  import opened Vm
  import opened PageBill
  import opened Uvm
  import opened FreeWalk

  const TRAPFRAME_PTE: nat := PTE_R + PTE_W + PTE_V
  const TRAMPOLINE_PTE: nat := PTE_R + PTE_X + PTE_V

  /** Above user memory, exactly the trapframe and the trampoline are mapped. */
  ghost predicate HighOk(mem: Mem, s: Space, tf: nat, tramp: nat) {
    forall v: nat | v >= TRAPFRAME :: Leaf(mem, s, v) ==
      if v == TRAPFRAME then MakePte(tf, TRAPFRAME_PTE)
      else if v == TRAMPOLINE then MakePte(tramp, TRAMPOLINE_PTE)
      else 0
  }

  /** A process's address space: exactly the pages of [0, sz), the trapframe and the trampoline. */
  ghost predicate ImageOk(mem: Mem, s: Space, sz: nat, tf: nat, tramp: nat) {
    UserPages(mem, s, Pages(sz)) && HighOk(mem, s, tf, tramp)
  }

  // ----- a new address space -----

  function Root(p: nat): Space {
    map[Node(2, 0) := p]
  }

  function WithSpace(sp: Spaces, p: nat): Spaces {
    sp[p := Root(p)]
  }

  lemma CreateTree(mem: Mem, p: nat)
    requires p in mem && mem[p] == Filled(0)
    ensures TreeOk(mem, Root(p)) && forall v: nat :: Leaf(mem, Root(p), v) == 0
  {}

  lemma CreateTables(role: map<nat, Role>, sp: Spaces, p: nat)
    requires TablesOk(role, sp) && p in role && role[p].Held?
    ensures p !in sp && TablesOk(role[p := Table(p, 2, 0)], WithSpace(sp, p))
  {
    var role', sp' := role[p := Table(p, 2, 0)], WithSpace(sp, p);
    assert p in sp ==> SpaceRoles(role, p, sp[p]);
    forall q | q in sp' && q != p ensures SpaceRoles(role', q, sp'[q]) {
      assert SpaceRoles(role, q, sp[q]);
    }
    assert SpaceRoles(role', p, sp'[p]);
    hide SpaceRoles;
  }

  lemma CreateUsers(mem: Mem, role: map<nat, Role>, sp: Spaces, p: nat)
    requires UsersOk(mem, role, sp) && p in role && role[p].Held? && p !in sp
    requires forall v: nat :: Leaf(mem, Root(p), v) == 0
    ensures UsersOk(mem, role[p := Table(p, 2, 0)], WithSpace(sp, p))
  {
    hide Leaf;
  }

  lemma CreatePlaces(mem: Mem, role: map<nat, Role>, sp: Spaces, p: nat)
    requires PlacesOk(mem, role, sp) && p in role && role[p].Held? && mem[p] == Filled(0)
    ensures p !in sp && PlacesOk(mem, role[p := Table(p, 2, 0)], WithSpace(sp, p))
    ensures forall v: nat :: Leaf(mem, Root(p), v) == 0
  {
    hide TreeOk, TablesOk, UsersOk, Leaf;
    CreateTree(mem, p);
    CreateTables(role, sp, p);
    CreateUsers(mem, role, sp, p);
  }

  /** What has changed since before address space r was made: only free pages went into it. */
  ghost predicate Built(m0: Mem, r0: map<nat, Role>, s0: Spaces, m1: Mem, r1: map<nat, Role>, s1: Spaces, r: nat) {
    && r !in s0 && s1.Keys == s0.Keys + {r} && r1.Keys == r0.Keys && DataSame(m0, r0, m1)
    && (forall q, v: nat | q in s0 :: Leaf(m1, s1[q], v) == Leaf(m0, s0[q], v))
    && (forall p | p in r0 :: r1[p] == r0[p] || (r0[p].Free? && (r1[p].Table? || r1[p].User?) && r1[p].root == r))
  }

  /** Nothing that anyone can see has changed: every mapping, every page's use, and all contents in use. */
  ghost predicate Unchanged(m0: Mem, r0: map<nat, Role>, s0: Spaces, m1: Mem, r1: map<nat, Role>, s1: Spaces) {
    MapsSame(m0, s0, m1, s1) && r1 == r0 && DataSame(m0, r0, m1)
  }

  lemma BuiltCreate(m0: Mem, r0: map<nat, Role>, s0: Spaces, m1: Mem, m2: Mem, p: nat)
    requires p in r0 && r0[p].Free? && p !in s0 && SameLeaves(m0, m1, s0) && SameLeaves(m1, m2, s0)
    requires m0.Keys == r0.Keys
    requires p in m1 && m1 == m0[p := m1[p]] && p in m2 && m2 == m1[p := m2[p]]
    ensures Built(m0, r0, s0, m2, r0[p := Held][p := Table(p, 2, 0)], WithSpace(s0, p), p)
  {
    hide Leaf;
  }

  lemma BuiltExtended(m0: Mem, r0: map<nat, Role>, s0: Spaces, m1: Mem, r1: map<nat, Role>, s1: Spaces,
                      m2: Mem, r2: map<nat, Role>, s2: Spaces, r: nat)
    requires Built(m0, r0, s0, m1, r1, s1, r) && Extended(m1, r1, s1, m2, r2, s2, r)
    ensures Built(m0, r0, s0, m2, r2, s2, r)
  {
    hide Leaf;
  }

  lemma BuiltMapped(m0: Mem, r0: map<nat, Role>, s0: Spaces, m1: Mem, r1: map<nat, Role>, s1: Spaces,
                    m2: Mem, r2: map<nat, Role>, s2: Spaces, r: nat, vpn: nat, n: nat, ppn: nat, flags: nat)
    requires flags < FLAGS && Built(m0, r0, s0, m1, r1, s1, r) && vpn >= TRAPFRAME
    requires Mapped(m1, r1, s1, m2, r2, s2, r, vpn, n, ppn, flags)
    ensures Built(m0, r0, s0, m2, r2, s2, r)
  {
    hide Leaf;
  }

  lemma BuiltGrew(m0: Mem, r0: map<nat, Role>, s0: Spaces, m1: Mem, r1: map<nat, Role>, s1: Spaces,
                  m2: Mem, r2: map<nat, Role>, s2: Spaces, r: nat, a: nat, n: nat)
    requires Built(m0, r0, s0, m1, r1, s1, r) && Grew(m1, r1, s1, m2, r2, s2, r, a, n)
    ensures Built(m0, r0, s0, m2, r2, s2, r)
  {
    hide Leaf;
  }

  /** Releasing a space that was only just built puts every page back. */
  lemma BuiltReleased(m0: Mem, r0: map<nat, Role>, s0: Spaces, m1: Mem, r1: map<nat, Role>, s1: Spaces,
                      m2: Mem, r2: map<nat, Role>, s2: Spaces, r: nat)
    requires Built(m0, r0, s0, m1, r1, s1, r) && Released(m1, r1, s1, m2, r2, s2, r)
    requires forall p | p in r0 && (r0[p].Table? || r0[p].User?) :: r0[p].root in s0
    ensures Unchanged(m0, r0, s0, m2, r2, s2)
  {
    hide Leaf;
  }

  lemma RootsKnown(k: Kernel)
    requires k.Valid()
    ensures forall p | p in k.role && (k.role[p].Table? || k.role[p].User?) :: k.role[p].root in k.sp
  {
    hide FreeListOk, TreesOk, LeavesOk;
  }

  lemma UnchangedNone(m: Mem, role: map<nat, Role>, sp: Spaces)
    requires m.Keys == role.Keys
    ensures Unchanged(m, role, sp, m, role, sp)
  {}

  /** uvmcreate(). */
  method Uvmcreate(k: Kernel) returns (r: nat)
    requires k.Valid()
    modifies k
    ensures k.Valid()
    ensures r == 0 <==> old(k.free) == []
    ensures r == 0 ==> Unchanged(old(k.mem), old(k.role), old(k.sp), k.mem, k.role, k.sp)
    ensures r != 0 ==> Built(old(k.mem), old(k.role), old(k.sp), k.mem, k.role, k.sp, r) && r in k.sp
    ensures r != 0 ==> forall v: nat :: Leaf(k.mem, k.sp[r], v) == 0
    ensures r != 0 ==> |k.free| == |old(k.free)| - 1 && k.sp[r].Keys == {Node(2, 0)}
  {
    hide TablesOk, TreesOk, UsersOk, LeavesOk, FreeListOk, Leaf, Built, Unchanged;
    ghost var m0, r0, s0 := k.mem, k.role, k.sp;
    KeysSame(k);
    r := k.Kalloc();
    if r == 0 {
      UnchangedNone(k.mem, k.role, k.sp);
      return;
    }
    ghost var m1 := k.mem;
    k.Zero(r);
    CreatePlaces(k.mem, k.role, k.sp, r);
    BuiltCreate(m0, r0, s0, m1, k.mem, r);
    FreeListFrame(k.mem, k.role, k.head, k.free, r, k.mem[r], Table(r, 2, 0));
    assert k.mem[r := k.mem[r]] == k.mem;
    k.role, k.sp := k.role[r := Table(r, 2, 0)], WithSpace(k.sp, r);
  }

  /** Of the pages above user memory only the first i of trampoline and trapframe are mapped; no user page is. */
  ghost predicate HighOnly(mem: Mem, s: Space, i: nat, tf: nat, tramp: nat) {
    forall v: nat :: Leaf(mem, s, v) ==
      if v == TRAPFRAME && i >= 2 then MakePte(tf, TRAPFRAME_PTE)
      else if v == TRAMPOLINE && i >= 1 then MakePte(tramp, TRAMPOLINE_PTE) else 0
  }

  lemma HighMapped(m1: Mem, r1: map<nat, Role>, s1: Spaces, m2: Mem, r2: map<nat, Role>, s2: Spaces, r: nat, i: nat,
                   tf: nat, tramp: nat)
    requires r in s1 && i < 2 && HighOnly(m1, s1[r], i, tf, tramp)
    requires if i == 0 then Mapped(m1, r1, s1, m2, r2, s2, r, TRAMPOLINE, 1, tramp, TRAMPOLINE_PTE)
             else Mapped(m1, r1, s1, m2, r2, s2, r, TRAPFRAME, 1, tf, TRAPFRAME_PTE)
    ensures r in s2 && HighOnly(m2, s2[r], i + 1, tf, tramp)
  {
    hide Leaf;
  }

  lemma HighKept(m1: Mem, r1: map<nat, Role>, s1: Spaces, m2: Mem, r2: map<nat, Role>, s2: Spaces, r: nat, i: nat,
                 tf: nat, tramp: nat)
    requires r in s1 && HighOnly(m1, s1[r], i, tf, tramp) && Extended(m1, r1, s1, m2, r2, s2, r)
    ensures r in s2 && HighOnly(m2, s2[r], i, tf, tramp)
  {
    hide Leaf;
  }

  lemma HighIs(mem: Mem, s: Space, i: nat, tf: nat, tramp: nat)
    requires HighOnly(mem, s, i, tf, tramp)
    ensures i == 0 ==> forall v: nat :: Leaf(mem, s, v) == 0
    ensures i == 0 ==> Leaf(mem, s, TRAMPOLINE) == 0
    ensures i <= 1 ==> Leaf(mem, s, TRAPFRAME) == 0
    ensures i >= 1 ==> Leaf(mem, s, TRAMPOLINE) != 0
    ensures i >= 2 ==> ImageOk(mem, s, 0, tf, tramp)
  {
    hide Leaf;
  }

  /** The roll back of proc_pagetable(): uvmfree() of a space without any mapping left. */
  method Abandon(k: Kernel, r: nat, ghost m0: Mem, ghost r0: map<nat, Role>, ghost s0: Spaces, ghost tf: nat,
                 ghost tramp: nat)
    requires k.Valid() && r in k.sp && Built(m0, r0, s0, k.mem, k.role, k.sp, r)
    requires HighOnly(k.mem, k.sp[r], 0, tf, tramp)
    requires forall p | p in r0 && (r0[p].Table? || r0[p].User?) :: r0[p].root in s0
    modifies k
    ensures k.Valid() && Unchanged(m0, r0, s0, k.mem, k.role, k.sp)
  {
    hide PlacesOk, FreeListOk, Leaf, Built, Unchanged, HighOnly, Released;
    HighIs(k.mem, k.sp[r], 0, tf, tramp);
    ghost var m1, r1, s1 := k.mem, k.role, k.sp;
    Uvmfree(k, r, 0);
    BuiltReleased(m0, r0, s0, m1, r1, s1, k.mem, k.role, k.sp, r);
  }

  /** The tables that every process has. */
  ghost const HIGH_TABLES: set<Node> := Path(TRAMPOLINE)

  /** proc_pagetable(): an address space with only the trapframe and the trampoline, or nothing at all. */
  method ProcPagetable(k: Kernel, tf: nat, tramp: nat) returns (r: nat)
    requires k.Valid()
    modifies k
    ensures k.Valid()
    ensures r == 0 ==> Unchanged(old(k.mem), old(k.role), old(k.sp), k.mem, k.role, k.sp)
    ensures r != 0 ==> r in k.sp && Built(old(k.mem), old(k.role), old(k.sp), k.mem, k.role, k.sp, r)
    ensures r != 0 ==> ImageOk(k.mem, k.sp[r], 0, tf, tramp)
    ensures r == 0 <==> |old(k.free)| < 3
    ensures r != 0 ==> |k.free| == |old(k.free)| - 3 && k.sp[r].Keys == HIGH_TABLES
  {
    hide PlacesOk, FreeListOk, Leaf, Built, Unchanged, Mapped, Unmapped, HighOnly, ImageOk, UsersOk, Extended, Billed,
         Path, Paths, Lack;
    HighTables();
    ghost var m0, r0, s0 := k.mem, k.role, k.sp;
    RootsKnown(k);
    r := Uvmcreate(k);
    if r == 0 {
      return;
    }
    NoneHigh(k.mem, k.sp[r], tf, tramp);
    HighIs(k.mem, k.sp[r], 0, tf, tramp);
    ghost var m1, r1, s1 := k.mem, k.role, k.sp;
    var res, done := k.Mappages(r, TRAMPOLINE * PGSIZE, PGSIZE, tramp, PTE_R + PTE_X);
    k.KeysKept(m1, r1, s1, k.mem, k.role, k.sp, r, TRAMPOLINE, done, tramp, TRAMPOLINE_PTE);
    BuiltMapped(m0, r0, s0, m1, r1, s1, k.mem, k.role, k.sp, r, TRAMPOLINE, done, tramp, TRAMPOLINE_PTE);
    if !res.MapOk? {
      assert done == 0 && res.NoMemory?;
      MappedZero(m1, r1, s1, k.mem, k.role, k.sp, r, TRAMPOLINE, tramp, TRAMPOLINE_PTE);
      HighKept(m1, r1, s1, k.mem, k.role, k.sp, r, 0, tf, tramp);
      Abandon(k, r, m0, r0, s0, tf, tramp);
      return 0;
    }
    HighMapped(m1, r1, s1, k.mem, k.role, k.sp, r, 0, tf, tramp);
    HighIs(k.mem, k.sp[r], 1, tf, tramp);
    Paid(|old(k.free)| - 1, {Node(2, 0)}, |k.free|, k.sp[r].Keys, HIGH_TABLES, 0);
    BillKeys(|old(k.free)| - 1, {Node(2, 0)}, |k.free|, k.sp[r].Keys, HIGH_TABLES, 0);
    ghost var f1, k1 := |k.free|, k.sp[r].Keys;
    m1, r1, s1 := k.mem, k.role, k.sp;
    res, done := k.Mappages(r, TRAPFRAME * PGSIZE, PGSIZE, tf, PTE_R + PTE_W);
    assert res.MapOk?;                              // its tables are those of the trampoline
    Paid(f1, k1, |k.free|, k.sp[r].Keys, HIGH_TABLES, 0);
    BillKeys(f1, k1, |k.free|, k.sp[r].Keys, HIGH_TABLES, 0);
    k.KeysKept(m1, r1, s1, k.mem, k.role, k.sp, r, TRAPFRAME, done, tf, TRAPFRAME_PTE);
    BuiltMapped(m0, r0, s0, m1, r1, s1, k.mem, k.role, k.sp, r, TRAPFRAME, done, tf, TRAPFRAME_PTE);
    HighMapped(m1, r1, s1, k.mem, k.role, k.sp, r, 1, tf, tramp);
    HighIs(k.mem, k.sp[r], 2, tf, tramp);
  }

  /** Trampoline and trapframe are reached through the same three tables. */
  lemma HighTables()
    ensures Paths(TRAMPOLINE, 1) == HIGH_TABLES == Paths(TRAPFRAME, 1) && Node(2, 0) in HIGH_TABLES
    ensures Lack(HIGH_TABLES, {Node(2, 0)}) == 2 && Lack(HIGH_TABLES, HIGH_TABLES) == 0
    ensures forall k: set<Node> | HIGH_TABLES <= k :: Lack(HIGH_TABLES, k) == 0
  {
    OnePath(TRAMPOLINE);
    OnePath(TRAPFRAME);
    assert HIGH_TABLES - {Node(2, 0)} == {Node(0, 0x1_ffff), Node(1, 0xff)};
  }

  lemma NoneHigh(mem: Mem, s: Space, tf: nat, tramp: nat)
    requires forall v: nat :: Leaf(mem, s, v) == 0
    ensures HighOnly(mem, s, 0, tf, tramp)
  {
    hide Leaf;
  }

  lemma LowOnly(m0: Mem, r0: map<nat, Role>, m1: Mem, r1: map<nat, Role>, m2: Mem, r2: map<nat, Role>, sp: Spaces,
                r: nat, sz: nat, tf: nat, tramp: nat)
    requires r in sp && ImageOk(m0, sp[r], sz, tf, tramp)
    requires Unmapped(m0, r0, m1, r1, sp, r, TRAMPOLINE, 1, Held) && Unmapped(m1, r1, m2, r2, sp, r, TRAPFRAME, 1, Held)
    ensures forall v: nat :: Leaf(m2, sp[r], v) != 0 <==> v < Pages(sz)
  {
    hide Leaf;
  }

  lemma ReleasedToo(m0: Mem, r0: map<nat, Role>, m1: Mem, r1: map<nat, Role>, m2: Mem, r2: map<nat, Role>, sp: Spaces,
                    m3: Mem, r3: map<nat, Role>, s3: Spaces, r: nat)
    requires UsersOk(m0, r0, sp) && UsersOk(m1, r1, sp)
    requires Unmapped(m0, r0, m1, r1, sp, r, TRAMPOLINE, 1, Held) && Unmapped(m1, r1, m2, r2, sp, r, TRAPFRAME, 1, Held)
    requires Released(m2, r2, sp, m3, r3, s3, r)
    ensures Released(m0, r0, sp, m3, r3, s3, r)
  {
    hide Leaf;
  }

  lemma HighPages(mem: Mem, s: Space, sz: nat, tf: nat, tramp: nat)
    requires ImageOk(mem, s, sz, tf, tramp)
    ensures Leaf(mem, s, TRAMPOLINE) != 0 && Leaf(mem, s, TRAPFRAME) != 0 && Pages(sz) <= TRAPFRAME
  {
    hide Leaf;
  }

  /** proc_freepagetable(): the whole of a process's address space goes back to the allocator, without a panic. */
  method ProcFreepagetable(k: Kernel, r: nat, sz: nat, ghost tf: nat, ghost tramp: nat)
    requires k.Valid() && r in k.sp && ImageOk(k.mem, k.sp[r], sz, tf, tramp)
    modifies k
    ensures k.Valid() && Released(old(k.mem), old(k.role), old(k.sp), k.mem, k.role, k.sp, r)
  {
    hide PlacesOk, FreeListOk, Leaf, Unmapped, UsersOk, Released, ImageOk;
    ghost var m0, r0 := k.mem, k.role;
    KeysSame(k);
    HighPages(m0, k.sp[r], sz, tf, tramp);
    var ok := k.Uvmunmap(r, TRAMPOLINE, 1, false);
    assert ok;
    KeysSame(k);
    ghost var m1, r1 := k.mem, k.role;
    StillHigh(m0, r0, m1, r1, k.sp, r);
    ok := k.Uvmunmap(r, TRAPFRAME, 1, false);
    assert ok;
    ghost var m2, r2, sp := k.mem, k.role, k.sp;
    LowOnly(m0, r0, m1, r1, m2, r2, sp, r, sz, tf, tramp);
    Uvmfree(k, r, sz);
    ReleasedToo(m0, r0, m1, r1, m2, r2, sp, k.mem, k.role, k.sp, r);
  }

  lemma StillHigh(m0: Mem, r0: map<nat, Role>, m1: Mem, r1: map<nat, Role>, sp: Spaces, r: nat)
    requires r in sp && Unmapped(m0, r0, m1, r1, sp, r, TRAMPOLINE, 1, Held)
    ensures Leaf(m1, sp[r], TRAPFRAME) == Leaf(m0, sp[r], TRAPFRAME)
  {}
}
