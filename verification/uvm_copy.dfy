/** uvmcopy() of kernel/vm.c: fork's copy of the parent's memory. */
module UvmCopy {
  import opened Sv39
  import opened PageTables
  import opened PageBill
  import opened Vm
  import opened Uvm

  /** Page v of one address space is a copy, flags and contents, of page v of another. */
  ghost predicate PageCopied(mem: Mem, s: Space, after: Mem, s': Space, v: nat) {
    var from, to := Leaf(mem, s, v), Leaf(after, s', v);
    && PteFlags(to) == PteFlags(from) && PteToPage(to) in after && PteToPage(from) in mem
    && after[PteToPage(to)] == mem[PteToPage(from)]
  }

  ghost predicate PagesCopied(mem: Mem, s: Space, after: Mem, s': Space, n: nat) {
    forall v: nat | v < n :: PageCopied(mem, s, after, s', v)
  }

  lemma OnePage(mem: Mem, s: Space, after: Mem, s': Space, v: nat, pa: nat, p: nat, flags: nat)
    requires flags < FLAGS && PteFlags(Leaf(mem, s, v)) == flags && PteToPage(Leaf(mem, s, v)) == pa && pa in mem
    requires Leaf(after, s', v) == MakePte(p, flags) && p in after && after[p] == mem[pa]
    ensures PageCopied(mem, s, after, s', v)
  {
    hide Leaf;
    PteRoundTrip(p, flags);
  }

  /** A page present and readable through walk(): its PTE, its page, and what follows for its flags. */
  lemma Present(k: Kernel, r: nat, v: nat)
    requires k.Valid() && r in k.sp && v < TRAPFRAME && Leaf(k.mem, k.sp[r], v) != 0
    ensures Node(0, v / 512) in k.sp[r]
    ensures var x := Leaf(k.mem, k.sp[r], v);
      IsValid(x) && 1 < PteFlags(x) < FLAGS && WithValid(PteFlags(x)) == PteFlags(x) && PteToPage(x) in k.mem
  {
    hide FreeListOk, TablesOk, TreesOk, UsersOk;
    k.NoTable(k.mem, k.sp[r], v);
    assert LeafPte(Leaf(k.mem, k.sp[r], v));
    LeafPage(k.mem, k.role, k.sp, r, v);
  }

  /** One turn of the loop of uvmcopy(): both panics of the loop are unreachable. */
  method CopyPage(k: Kernel, r: nat, c: nat, a: nat) returns (ok: bool)
    requires k.Valid() && r in k.sp && c in k.sp && a < TRAPFRAME
    requires Leaf(k.mem, k.sp[r], a) != 0 && Leaf(k.mem, k.sp[c], a) == 0
    modifies k
    ensures k.Valid() && k.role.Keys == old(k.role).Keys && k.sp.Keys == old(k.sp).Keys
    ensures ok ==>
      && Grew(old(k.mem), old(k.role), old(k.sp), k.mem, k.role, k.sp, c, a, 1)
      && PageCopied(old(k.mem), old(k.sp)[r], k.mem, k.sp[c], a)
    ensures !ok ==> Extended(old(k.mem), old(k.role), old(k.sp), k.mem, k.role, k.sp, c)
    ensures ok ==>
      && Billed(|old(k.free)|, old(k.sp)[c].Keys, |k.free|, k.sp[c].Keys, Path(a), 1) && Path(a) <= k.sp[c].Keys
    ensures !ok ==> |old(k.free)| < 1 + Lack(Path(a), old(k.sp)[c].Keys)
  {
    hide PlacesOk, FreeListOk, Leaf, Extended, Mapped, Grew, PageCopied, Billed, Path, Paths, Lack;
    ghost var m1, r1, s1, f1 := k.mem, k.role, k.sp, |k.free|;
    KeysSame(k);
    Present(k, r, a);
    var t, found := k.LookUp(r, a);
    assert found;                                   // never panic("uvmcopy: pte should exist")
    k.LeafAt(r, a);
    var pte := k.mem[t][a % 512];
    assert IsValid(pte);                            // never panic("uvmcopy: page not present")
    var pa, flags := PteToPage(pte), PteFlags(pte);
    var p := k.Kalloc();
    if p == 0 {
      ExtendedNone(k.mem, k.role, k.sp, c);
      return false;
    }
    ghost var mk := k.mem;
    InUse(k, m1, r1, r, a);
    k.Copy(p, pa);
    SameLeavesTwice(m1, mk, k.mem, s1);
    assert k.mem == m1[p := m1[pa]];
    ok := PlacePage(k, c, a, p, flags, m1, r1, s1, f1);
    if ok {
      OnePage(m1, s1[r], k.mem, k.sp[c], a, pa, p, flags);
    }
  }

  /** The page kalloc() took is not the page being copied. */
  lemma InUse(k: Kernel, m1: Mem, r1: map<nat, Role>, r: nat, v: nat)
    requires r in k.sp && v < TRAPFRAME && UsersOk(m1, r1, k.sp) && Leaf(m1, k.sp[r], v) != 0
    ensures PteToPage(Leaf(m1, k.sp[r], v)) in r1 && r1[PteToPage(Leaf(m1, k.sp[r], v))] == User(r, v)
  {
    LeafPage(m1, r1, k.sp, r, v);
  }

  /** Pages copied before stay copies, and the parent's memory stays what it was. */
  lemma StillCopied(m0: Mem, r0: map<nat, Role>, s0: Spaces, m1: Mem, r1: map<nat, Role>, s1: Spaces,
                    m2: Mem, r2: map<nat, Role>, s2: Spaces, r: nat, c: nat, n: nat)
    requires r in s0 && c in s0 && r != c && n < TRAPFRAME && UsersOk(m0, r0, s0) && UsersOk(m1, r1, s1)
    requires forall v: nat | v <= n :: Leaf(m0, s0[r], v) != 0
    requires Grew(m0, r0, s0, m1, r1, s1, c, 0, n) && c in s1 && r in s1 && PagesCopied(m0, s0[r], m1, s1[c], n)
    requires Grew(m1, r1, s1, m2, r2, s2, c, n, 1) && c in s2 && PageCopied(m1, s1[r], m2, s2[c], n)
    requires forall v: nat | v < n :: Leaf(m1, s1[c], v) != 0
    ensures PagesCopied(m0, s0[r], m2, s2[c], n + 1)
  {
    hide Leaf, RolesTo, SpacesGrow;
    forall v: nat | v < n + 1 ensures PageCopied(m0, s0[r], m2, s2[c], v) {
      if v < n {
        assert PageCopied(m0, s0[r], m1, s1[c], v);
        assert Leaf(m2, s2[c], v) == Leaf(m1, s1[c], v);
        LeafPage(m1, r1, s1, c, v);
      } else {
        assert Leaf(m1, s1[r], v) == Leaf(m0, s0[r], v);
        LeafPage(m0, r0, s0, r, v);
      }
    }
  }

  lemma CopiedMeans(mem: Mem, s: Space, after: Mem, s': Space, v: nat)
    requires PageCopied(mem, s, after, s', v) && IsValid(Leaf(mem, s, v))
    ensures Leaf(after, s', v) != 0
  {
    hide Leaf;
  }

  lemma GrewLeaf(m0: Mem, r0: map<nat, Role>, s0: Spaces, m1: Mem, r1: map<nat, Role>, s1: Spaces, r: nat, c: nat,
                 n: nat, v: nat)
    requires Grew(m0, r0, s0, m1, r1, s1, c, 0, n) && r in s0 && c in s0 && r != c
    ensures r in s1 && c in s1 && Leaf(m1, s1[r], v) == Leaf(m0, s0[r], v)
    ensures v >= n ==> Leaf(m1, s1[c], v) == Leaf(m0, s0[c], v)
  {}

  lemma ExtendedLeaf(m0: Mem, r0: map<nat, Role>, s0: Spaces, m1: Mem, r1: map<nat, Role>, s1: Spaces, c: nat)
    requires Extended(m0, r0, s0, m1, r1, s1, c) && c in s0
    ensures c in s1 && forall v: nat :: Leaf(m1, s1[c], v) == Leaf(m0, s0[c], v)
  {}

  /** uvmcopy(): the child has a copy of every page of the parent, or is as empty as before. */
  method Uvmcopy(k: Kernel, r: nat, c: nat, sz: nat) returns (ok: bool)
    requires k.Valid() && r in k.sp && c in k.sp && r != c && UserPages(k.mem, k.sp[r], Pages(sz))
    requires UserPages(k.mem, k.sp[c], 0)
    modifies k
    ensures k.Valid() && k.role.Keys == old(k.role).Keys && k.sp.Keys == old(k.sp).Keys
    ensures ok ==>
      && Grew(old(k.mem), old(k.role), old(k.sp), k.mem, k.role, k.sp, c, 0, Pages(sz))
      && PagesCopied(old(k.mem), old(k.sp)[r], k.mem, k.sp[c], Pages(sz)) && UserPages(k.mem, k.sp[c], Pages(sz))
    ensures !ok ==> Extended(old(k.mem), old(k.role), old(k.sp), k.mem, k.role, k.sp, c)
    ensures ok <==> |old(k.free)| >= Cost(old(k.sp)[c].Keys, 0, Pages(sz))
  {
    hide PlacesOk, FreeListOk, Leaf, Extended, Grew, UsersOk, PageCopied, PagesCopied, Unmapped, Billed, Path, Paths,
         Lack, Pages;
    ghost var m0, r0, s0, f0, k0 := k.mem, k.role, k.sp, |k.free|, k.sp[c].Keys;
    k.NoPaths(0);
    BilledNone(f0, k0, Paths(0, 0));
    KeysSame(k);
    GrewNone(m0, r0, s0, c, 0);
    NoneCopied(m0, s0[r], m0, s0[c]);
    var a := 0;
    TurnMeans(a, sz);
    while a * PGSIZE < sz
      invariant 0 <= a <= Pages(sz) && (a * PGSIZE < sz <==> a < Pages(sz))
      invariant k.Valid() && k.role.Keys == r0.Keys && k.sp.Keys == s0.Keys
      invariant Grew(m0, r0, s0, k.mem, k.role, k.sp, c, 0, a) && PagesCopied(m0, s0[r], k.mem, k.sp[c], a)
      invariant forall v: nat | v < TRAPFRAME :: Leaf(k.mem, k.sp[c], v) != 0 <==> v < a
      invariant Billed(f0, k0, |k.free|, k.sp[c].Keys, Paths(0, a), a) && Paths(0, a) <= k.sp[c].Keys
      decreases Pages(sz) - a
    {
      ghost var m1, r1, s1, f1, k1 := k.mem, k.role, k.sp, |k.free|, k.sp[c].Keys;
      KeysSame(k);
      GrewLeaf(m0, r0, s0, m1, r1, s1, r, c, a, a);
      Present(k, r, a);
      ok := CopyPage(k, r, c, a);
      if !ok {
        TooMuch(f0, k0, f1, k1, 0, a, Pages(sz));
        GrewTables(m0, r0, s0, m1, r1, s1, k.mem, k.role, k.sp, c, 0, a);
        ExtendedLeaf(m1, r1, s1, k.mem, k.role, k.sp, c);
        Undo(k, c, a, m0, r0, s0);
        return;
      }
      GrewJoin(m0, r0, s0, m1, r1, s1, k.mem, k.role, k.sp, c, 0, a);
      StillCopied(m0, r0, s0, m1, r1, s1, k.mem, k.role, k.sp, r, c, a);
      CopyMapped(m1, r1, s1, k.mem, k.role, k.sp, r, c, a);
      BillNext(f0, k0, f1, k1, |k.free|, k.sp[c].Keys, 0, a, a, 1);
      a := a + 1;
      TurnMeans(a, sz);
    }
    Paid(f0, k0, |k.free|, k.sp[c].Keys, Paths(0, a), a);
    ok := true;
  }

  /** The roll back of uvmcopy(). */
  method Undo(k: Kernel, c: nat, a: nat, ghost m0: Mem, ghost r0: map<nat, Role>, ghost s0: Spaces)
    requires k.Valid() && c in k.sp && c in s0 && a <= TRAPFRAME && UsersOk(m0, r0, s0)
    requires Grew(m0, r0, s0, k.mem, k.role, k.sp, c, 0, a)
    requires (forall v: nat | v < a :: Leaf(k.mem, k.sp[c], v) != 0) && forall v: nat | v < a :: Leaf(m0, s0[c], v) == 0
    modifies k
    ensures k.Valid() && k.role.Keys == old(k.role).Keys && k.sp == old(k.sp)
    ensures Extended(m0, r0, s0, k.mem, k.role, k.sp, c)
  {
    hide PlacesOk, FreeListOk, Leaf, Extended, Grew, UsersOk, Unmapped;
    ghost var m2, r2 := k.mem, k.role;
    KeysSame(k);
    var undone := k.Uvmunmap(c, 0, a, true);
    assert undone;                                  // never panic("uvmunmap: not mapped")
    UnmappedKeys(m2, r2, k.mem, k.role, k.sp, c, 0, a, Free);
    GrewUndone(m0, r0, s0, m2, r2, k.sp, k.mem, k.role, c, 0, a);
  }

  lemma NoneCopied(mem: Mem, s: Space, after: Mem, s': Space)
    ensures PagesCopied(mem, s, after, s', 0)
  {}

  lemma CopyMapped(m1: Mem, r1: map<nat, Role>, s1: Spaces, m2: Mem, r2: map<nat, Role>, s2: Spaces, r: nat, c: nat,
                   n: nat)
    requires r in s1 && c in s1 && c in s2 && UsersOk(m1, r1, s1) && Leaf(m1, s1[r], n) != 0 && n < TRAPFRAME
    requires Grew(m1, r1, s1, m2, r2, s2, c, n, 1) && PageCopied(m1, s1[r], m2, s2[c], n) && IsValid(Leaf(m1, s1[r], n))
    requires forall v: nat | v < TRAPFRAME :: Leaf(m1, s1[c], v) != 0 <==> v < n
    ensures forall v: nat | v < TRAPFRAME :: Leaf(m2, s2[c], v) != 0 <==> v < n + 1
  {
    hide Leaf, UsersOk;
    CopiedMeans(m1, s1[r], m2, s2[c], n);
  }
}
