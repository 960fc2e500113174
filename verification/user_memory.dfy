/** User memory as bytes: walkaddr() and copyout() of kernel/vm.c. */
module UserMemory {
  import opened Options
  import opened Sv39
  import opened PageTables
  import opened PageBytes
  import opened Vm
  import opened Uvm
  import opened ProcSpace

  /** The contents of page v of an address space. */
  function At(mem: Mem, s: Space, v: nat): Option<Page> {
    var p := PteToPage(Leaf(mem, s, v));
    if p in mem then Some(mem[p]) else None
  }

  /** The byte at virtual address a. */
  function ByteIn(mem: Mem, s: Space, a: nat): byte {
    var x := At(mem, s, a / PGSIZE);
    if x.Some? then ByteAt(x.value, a % PGSIZE) else 0
  }

  /** The first n pages hold the same bytes in both. */
  ghost predicate SameBytes(m1: Mem, s1: Space, m2: Mem, s2: Space, n: nat) {
    forall a: nat | a < n * PGSIZE :: ByteIn(m2, s2, a) == ByteIn(m1, s1, a)
  }

  ghost predicate ZeroFrom(mem: Mem, s: Space, n: nat, n': nat) {
    forall a: nat | n * PGSIZE <= a < n' * PGSIZE :: ByteIn(mem, s, a) == 0
  }

  /** The first n pages are as before, with `data` at address `at`. */
  ghost predicate Poked(m1: Mem, m2: Mem, s: Space, n: nat, at: nat, data: seq<byte>) {
    forall a: nat | a < n * PGSIZE ::
      ByteIn(m2, s, a) == if at <= a < at + |data| then data[a - at] else ByteIn(m1, s, a)
  }

  lemma PokedNothing(mem: Mem, s: Space, n: nat, at: nat)
    ensures Poked(mem, mem, s, n, at, [])
  {}

  lemma PokedMore(m1: Mem, m2: Mem, m3: Mem, s: Space, n: nat, at: nat, data: seq<byte>, x: nat, y: nat)
    requires x <= y <= |data| && Poked(m1, m2, s, n, at, data[..x]) && Poked(m2, m3, s, n, at + x, data[x..y])
    ensures Poked(m1, m3, s, n, at, data[..y])
  {
    hide ByteIn;
  }

  /** Only user pages of address space r have been written. */
  ghost predicate OnlyUser(m1: Mem, m2: Mem, role: map<nat, Role>, r: nat) {
    && m2.Keys == m1.Keys
    && forall p | p in role && p in m1 && !(role[p].User? && role[p].root == r) :: m2[p] == m1[p]
  }

  lemma OnlyUserTwice(m1: Mem, m2: Mem, m3: Mem, role: map<nat, Role>, r: nat)
    requires OnlyUser(m1, m2, role, r) && OnlyUser(m2, m3, role, r)
    ensures OnlyUser(m1, m3, role, r)
  {}

  // ----- the user bit -----

  /** *pte & PTE_U */
  predicate UserBit(pte: nat) {
    (pte / PTE_U) % 2 == 1
  }

  /** pte & ~PTE_U */
  function NoUser(pte: nat): nat {
    if UserBit(pte) then pte - PTE_U else pte
  }

  lemma UserFlagSet(x: nat)
    requires PteFlags(x) == USER_PERM + PTE_V
    ensures UserBit(x) && IsValid(x) && IsValid(NoUser(x)) && PteFlags(NoUser(x)) == USER_PERM + PTE_V - PTE_U
    ensures PteToPage(NoUser(x)) == PteToPage(x)
  {
    var ppn := x / FLAGS;
    assert x == MakePte(ppn, 31);
    UserBitOf(ppn);
    assert NoUser(x) == MakePte(ppn, 15) by { hide UserBit; }
    hide UserBit, NoUser;
    PteRoundTrip(ppn, 31);
    PteRoundTrip(ppn, 15);
  }

  lemma UserBitOf(ppn: nat)
    ensures UserBit(MakePte(ppn, 31))
  {
    DropLow(ppn * 64 + 1);
    IsOdd(ppn * 32);
  }

  lemma DropLow(y: nat)
    ensures (y * 16 + 15) / 16 == y
  {}

  lemma IsOdd(z: nat)
    ensures (z * 2 + 1) % 2 == 1
  {}

  /** The trapframe and the trampoline are not for user code. */
  lemma HighNotUser(ppn: nat)
    ensures !UserBit(MakePte(ppn, TRAPFRAME_PTE)) && !UserBit(MakePte(ppn, TRAMPOLINE_PTE)) && !UserBit(0)
  {
    assert MakePte(ppn, TRAPFRAME_PTE) / 16 == ppn * 64 && MakePte(ppn, TRAMPOLINE_PTE) / 16 == ppn * 64;
    assert ppn * 64 == ppn * 32 * 2;
    IsEven(ppn * 32);
  }

  lemma IsEven(z: nat)
    ensures z * 2 % 2 == 0
  {}

  /** User code may touch page v. */
  predicate Touchable(mem: Mem, s: Space, v: nat) {
    v < MAXVPN && Leaf(mem, s, v) != 0 && UserBit(Leaf(mem, s, v))
  }

  /** walkaddr(): the page that user code sees at page vpn, 0 if it sees none. */
  method Walkaddr(k: Kernel, r: nat, vpn: nat) returns (pa: nat)
    requires k.Valid() && r in k.sp
    ensures pa == if Touchable(k.mem, k.sp[r], vpn) then PteToPage(Leaf(k.mem, k.sp[r], vpn)) else 0
  {
    hide PlacesOk, FreeListOk, Leaf, UserBit;
    if vpn >= MAXVPN {
      return 0;
    }
    k.NoTable(k.mem, k.sp[r], vpn);
    var t, found := k.LookUp(r, vpn);
    if !found {
      return 0;
    }
    k.LeafAt(r, vpn);
    var pte := k.mem[t][vpn % 512];
    if !IsValid(pte) {
      return 0;
    }
    if !UserBit(pte) {
      return 0;
    }
    return PteToPage(pte);
  }

  /** In the address space of a process, what user code may touch is memory of its own. */
  lemma TouchableIsOwn(k: Kernel, r: nat, sz: nat, tf: nat, tramp: nat, v: nat)
    requires k.Valid() && r in k.sp && ImageOk(k.mem, k.sp[r], sz, tf, tramp) && Touchable(k.mem, k.sp[r], v)
    ensures v < Pages(sz)
    ensures var p := PteToPage(Leaf(k.mem, k.sp[r], v)); p != 0 && p in k.mem && p in k.role && k.role[p] == User(r, v)
  {
    hide FreeListOk, TablesOk, TreesOk, LeavesOk, UsersOk, Leaf, UserBit;
    HighNotUser(tf);
    HighNotUser(tramp);
    LeafPage(k.mem, k.role, k.sp, r, v);
  }

  /** A page of a mapped range has its own contents: changing one changes no other. */
  lemma StoreAt(k: Kernel, m1: Mem, r: nat, n: nat, v0: nat, x: Page, v: nat)
    requires k.Valid() && r in k.sp && v0 < n && v < n && UserPages(k.mem, k.sp[r], n) && SameLeaves(m1, k.mem, k.sp)
    requires k.mem == m1[PteToPage(Leaf(m1, k.sp[r], v0)) := x]
    ensures At(k.mem, k.sp[r], v) == if v == v0 then Some(x) else At(m1, k.sp[r], v)
  {
    hide FreeListOk, TablesOk, TreesOk, LeavesOk, UsersOk, Leaf;
    LeafPage(k.mem, k.role, k.sp, r, v0);
    LeafPage(k.mem, k.role, k.sp, r, v);
  }

  /** Writing bytes to a page of user memory changes those bytes of it and no others. */
  lemma StorePokes(k: Kernel, m1: Mem, r: nat, n: nat, v0: nat, at: nat, data: seq<byte>)
    requires k.Valid() && r in k.sp && v0 < n && UserPages(k.mem, k.sp[r], n) && SameLeaves(m1, k.mem, k.sp)
    requires at + |data| <= PGSIZE && At(m1, k.sp[r], v0).Some?
    requires k.mem == m1[PteToPage(Leaf(m1, k.sp[r], v0)) := PutBytes(At(m1, k.sp[r], v0).value, at, data)]
    ensures Poked(m1, k.mem, k.sp[r], n, v0 * PGSIZE + at, data)
  {
    hide At, Leaf, UserPages, SameLeaves, PlacesOk, FreeListOk;
    var x := PutBytes(At(m1, k.sp[r], v0).value, at, data);
    forall a: nat | a < n * PGSIZE ensures ByteIn(k.mem, k.sp[r], a) ==
      if v0 * PGSIZE + at <= a < v0 * PGSIZE + at + |data| then data[a - (v0 * PGSIZE + at)] else ByteIn(m1, k.sp[r], a)
    {
      StoreAt(k, m1, r, n, v0, x, a / PGSIZE);
      hide PutBytes;
      assert a == a / PGSIZE * PGSIZE + a % PGSIZE;
    }
  }

  lemma OnlyThat(m1: Mem, role: map<nat, Role>, p: nat, x: Page, r: nat)
    requires p in m1 && p in role && role[p].User? && role[p].root == r
    ensures OnlyUser(m1, m1[p := x], role, r)
  {}

  /** copyout(): all of `src` is in user memory from dstva on, and nothing else has changed; or some page in the range
      is not for user code, and what comes before it has been written. */
  method Copyout(k: Kernel, r: nat, dstva: nat, src: seq<byte>, ghost sz: nat, ghost tf: nat, ghost tramp: nat)
    returns (ok: bool, ghost done: nat)
    requires k.Valid() && r in k.sp && ImageOk(k.mem, k.sp[r], sz, tf, tramp)
    modifies k`mem
    ensures k.Valid() && SameLeaves(old(k.mem), k.mem, k.sp) && OnlyUser(old(k.mem), k.mem, k.role, r)
    ensures done <= |src| && Poked(old(k.mem), k.mem, k.sp[r], Pages(sz), dstva, src[..done])
    ensures ok ==>
      done == |src| && forall a: nat | dstva <= a < dstva + |src| :: Touchable(old(k.mem), k.sp[r], a / PGSIZE)
    ensures !ok ==> done < |src| && !Touchable(old(k.mem), k.sp[r], (dstva + done) / PGSIZE)
  {
    hide PlacesOk, FreeListOk, Leaf, ImageOk, SameLeaves, Touchable, Poked, At;
    ghost var m0 := k.mem;
    var len, from, va := |src|, 0, dstva;
    Still(m0, k.sp);
    PokedNothing(m0, k.sp[r], Pages(sz), dstva);
    assert src[..0] == [];
    while len > 0
      invariant 0 <= len && from + len == |src| && va == dstva + from && k.Valid()
      invariant SameLeaves(m0, k.mem, k.sp) && OnlyUser(m0, k.mem, k.role, r) && ImageOk(k.mem, k.sp[r], sz, tf, tramp)
      invariant Poked(m0, k.mem, k.sp[r], Pages(sz), dstva, src[..from])
      invariant forall a: nat | dstva <= a < va :: Touchable(m0, k.sp[r], a / PGSIZE)
      invariant len > 0 ==> from == 0 || va % PGSIZE == 0
    {
      var v := va / PGSIZE;
      SameTouch(m0, k.mem, k.sp, r, v);
      var pa := Walkaddr(k, r, v);
      if Touchable(k.mem, k.sp[r], v) { TouchableIsOwn(k, r, sz, tf, tramp, v); }
      if pa == 0 {
        return false, from;
      }
      var n := PGSIZE - va % PGSIZE;
      if n > len {
        n := len;
      }
      ghost var m1 := k.mem;
      CopyPage(k, r, pa, va, src[from..from + n], sz, tf, tramp);
      SameLeavesTwice(m0, m1, k.mem, k.sp);
      OnlyUserTwice(m0, m1, k.mem, k.role, r);
      PokedMore(m0, m1, k.mem, k.sp[r], Pages(sz), dstva, src, from, from + n);
      SameImage(m1, k.mem, k.sp, r, sz, tf, tramp);
      SamePageNumber(va, n);
      len, from, va := len - n, from + n, va + n;
    }
    assert src[..from] == src;
    ok, done := true, from;
  }

  /** memmove() to one page. */
  method CopyPage(k: Kernel, r: nat, pa: nat, va: nat, data: seq<byte>, ghost sz: nat, ghost tf: nat, ghost tramp: nat)
    requires k.Valid() && r in k.sp && ImageOk(k.mem, k.sp[r], sz, tf, tramp) && Touchable(k.mem, k.sp[r], va / PGSIZE)
    requires pa == PteToPage(Leaf(k.mem, k.sp[r], va / PGSIZE)) && va % PGSIZE + |data| <= PGSIZE
    modifies k`mem
    ensures k.Valid() && SameLeaves(old(k.mem), k.mem, k.sp) && OnlyUser(old(k.mem), k.mem, k.role, r)
    ensures Poked(old(k.mem), k.mem, k.sp[r], Pages(sz), va, data)
  {
    hide PlacesOk, FreeListOk, Leaf, HighOk, SameLeaves, Touchable, Poked, PutBytes, UserPages;
    TouchableIsOwn(k, r, sz, tf, tramp, va / PGSIZE);
    ghost var m1 := k.mem;
    var x := PutBytes(k.mem[pa], va % PGSIZE, data);
    k.Store(pa, x);
    OnlyThat(m1, k.role, pa, x, r);
    SameImage(m1, k.mem, k.sp, r, sz, tf, tramp);
    StorePokes(k, m1, r, Pages(sz), va / PGSIZE, va % PGSIZE, data);
  }

  lemma SamePageNumber(va: nat, n: nat)
    requires 0 < n <= PGSIZE - va % PGSIZE
    ensures forall a | va <= a < va + n :: a / PGSIZE == va / PGSIZE
    ensures n == PGSIZE - va % PGSIZE ==> (va + n) % PGSIZE == 0
  {}

  lemma Still(mem: Mem, sp: Spaces)
    ensures SameLeaves(mem, mem, sp)
  {}

  lemma SameTouch(m1: Mem, m2: Mem, sp: Spaces, r: nat, v: nat)
    requires SameLeaves(m1, m2, sp) && r in sp
    ensures Touchable(m2, sp[r], v) == Touchable(m1, sp[r], v)
  {
    hide Leaf, UserBit;
  }

  lemma SameImage(m1: Mem, m2: Mem, sp: Spaces, r: nat, sz: nat, tf: nat, tramp: nat)
    requires SameLeaves(m1, m2, sp) && r in sp && ImageOk(m1, sp[r], sz, tf, tramp)
    ensures ImageOk(m2, sp[r], sz, tf, tramp)
  {
    hide Leaf;
  }
}
