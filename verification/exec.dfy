/** kernel/exec.c: building a new address space beside the old one, and the switch to it or the way back. */
module Exec {
  import opened Sv39
  import opened PageTables
  import opened Vm
  import opened Uvm
  import opened FreeWalk
  import opened ProcSpace
  import opened Machines
  import opened Fork
  import opened Options
  import opened PageBill
  import opened PageBytes
  import opened UserMemory
  import opened ExecSpec

  // ----- what memory holds -----

  /** Address a gets a byte of the program file from the segment. */
  predicate Covers(seg: Segment, content: seq<byte>, a: nat) {
    && seg.Load? && seg.vaddr <= a < seg.vaddr + seg.filesz % UINT
    && seg.off % UINT + (a - seg.vaddr) < |content|
  }

  /** What address a holds after the first m program headers: the byte of the file that belongs there by the last
      segment that covers it, else zero. */
  function Wanted(content: seq<byte>, segs: seq<Segment>, m: nat, a: nat): byte
    requires m <= |segs|
  {
    if m == 0 then 0
    else if Covers(segs[m - 1], content, a) then content[segs[m - 1].off % UINT + (a - segs[m - 1].vaddr)]
    else Wanted(content, segs, m - 1, a)
  }

  /** The first n pages hold what the first m program headers want there, and these want nothing beyond. */
  ghost predicate Holds(mem: Mem, s: Space, content: seq<byte>, segs: seq<Segment>, m: nat, n: nat) {
    && m <= |segs| && (forall a: nat | a < n * PGSIZE :: ByteIn(mem, s, a) == Wanted(content, segs, m, a))
    && (forall j, a: nat | 0 <= j < m && Covers(segs[j], content, a) :: a < n * PGSIZE)
  }

  lemma {:induction false} WantsZero(content: seq<byte>, segs: seq<Segment>, m: nat, a: nat, n: nat)
    requires m <= |segs| && n * PGSIZE <= a
    requires forall j, x: nat | 0 <= j < m && Covers(segs[j], content, x) :: x < n * PGSIZE
    ensures Wanted(content, segs, m, a) == 0
  {
    if m > 0 { WantsZero(content, segs, m - 1, a, n); }
  }

  lemma HoldsMore(m1: Mem, s1: Space, m2: Mem, s2: Space, content: seq<byte>, segs: seq<Segment>, m: nat, n: nat,
                  n': nat)
    requires Holds(m1, s1, content, segs, m, n) && n <= n' && SameBytes(m1, s1, m2, s2, n) && ZeroFrom(m2, s2, n, n')
    ensures Holds(m2, s2, content, segs, m, n')
  {
    hide ByteIn, Wanted, Covers;
    forall a: nat | n * PGSIZE <= a < n' * PGSIZE ensures Wanted(content, segs, m, a) == 0 {
      WantsZero(content, segs, m, a, n);
    }
  }

  ghost predicate SamePages(m1: Mem, s1: Space, m2: Mem, s2: Space, n: nat) {
    forall v: nat | v < n :: At(m2, s2, v) == At(m1, s1, v)
  }

  lemma PagesBytes(m1: Mem, s1: Space, m2: Mem, s2: Space, n: nat)
    requires SamePages(m1, s1, m2, s2, n)
    ensures SameBytes(m1, s1, m2, s2, n)
  {
    hide At;
    forall a: nat | a < n * PGSIZE ensures ByteIn(m2, s2, a) == ByteIn(m1, s1, a) {
      assert a / PGSIZE < n;
    }
  }

  lemma ZeroPagesBytes(mem: Mem, s: Space, n: nat, n': nat)
    requires forall v: nat | n <= v < n' :: At(mem, s, v) == Some(Filled(0))
    ensures ZeroFrom(mem, s, n, n')
  {
    hide At, ByteAt;
    forall a: nat | n * PGSIZE <= a < n' * PGSIZE ensures ByteIn(mem, s, a) == 0 {
      assert n <= a / PGSIZE < n';
      ZeroBytes(a % PGSIZE);
    }
  }

  lemma GrewAt(m1: Mem, r1: map<nat, Role>, s1: Spaces, m2: Mem, r2: map<nat, Role>, s2: Spaces, r: nat, a: nat, n: nat)
    requires Added(m1, r1, s1, m2, r2, s2, r, a, n) && r in s1 && UsersOk(m1, r1, s1) && UserPages(m1, s1[r], a)
    ensures SameBytes(m1, s1[r], m2, s2[r], a) && ZeroFrom(m2, s2[r], a, a + n)
  {
    hide Leaf;
    forall v: nat | v < a ensures At(m2, s2[r], v) == At(m1, s1[r], v) {
      LeafPage(m1, r1, s1, r, v);
    }
    PagesBytes(m1, s1[r], m2, s2[r], a);
    ZeroPagesBytes(m2, s2[r], a, a + n);
  }

  lemma ClearedAt(k: Kernel, m1: Mem, r: nat, n: nat)
    requires k.Valid() && r in k.sp && n >= 2 && UserPages(k.mem, k.sp[r], n) && DataSame(m1, k.role, k.mem)
    requires LeafSet(m1, k.mem, k.sp, r, n - 2, NoUser(Leaf(m1, k.sp[r], n - 2)))
    requires PteFlags(Leaf(m1, k.sp[r], n - 2)) == USER_PERM + PTE_V
    ensures SameBytes(m1, k.sp[r], k.mem, k.sp[r], n)
  {
    hide Leaf, NoUser, FreeListOk, TablesOk, TreesOk, LeavesOk, UsersOk;
    UserFlagSet(Leaf(m1, k.sp[r], n - 2));
    forall v: nat | v < n ensures At(k.mem, k.sp[r], v) == At(m1, k.sp[r], v) {
      LeafPage(k.mem, k.role, k.sp, r, v);
    }
    PagesBytes(m1, k.sp[r], k.mem, k.sp[r], n);
  }

  lemma ReleasedAt(m1: Mem, r1: map<nat, Role>, s1: Spaces, m2: Mem, r2: map<nat, Role>, s2: Spaces, r: nat, dead: nat,
                   n: nat)
    requires r in s1 && r != dead && Released(m1, r1, s1, m2, r2, s2, dead) && UsersOk(m1, r1, s1)
    requires UserPages(m1, s1[r], n)
    ensures r in s2 && SameBytes(m1, s1[r], m2, s2[r], n)
  {
    hide Leaf;
    forall v: nat | v < n ensures At(m2, s2[r], v) == At(m1, s1[r], v) {
      LeafPage(m1, r1, s1, r, v);
    }
    PagesBytes(m1, s1[r], m2, s2[r], n);
  }

  /** All pages of the space may be reached by user code. */
  ghost predicate AllUser(mem: Mem, s: Space, n: nat) {
    forall v: nat | v < n :: PteFlags(Leaf(mem, s, v)) == USER_PERM + PTE_V
  }

  /** The half-built image: everything in it came from the free list, and it maps just [0, sz). */
  ghost predicate Building(m0: Mem, r0: map<nat, Role>, s0: Spaces, m1: Mem, r1: map<nat, Role>, s1: Spaces,
                           r: nat, sz: nat, tf: nat, tramp: nat)
  {
    Built(m0, r0, s0, m1, r1, s1, r) && r in s1 && ImageOk(m1, s1[r], sz, tf, tramp) && r1.Keys == r0.Keys
  }

  lemma BuildingGrew(m0: Mem, r0: map<nat, Role>, s0: Spaces, m1: Mem, r1: map<nat, Role>, s1: Spaces, m2: Mem,
                     r2: map<nat, Role>, s2: Spaces,
                     r: nat, sz: nat, sz': nat, tf: nat, tramp: nat)
    requires Building(m0, r0, s0, m1, r1, s1, r, sz, tf, tramp) && sz <= sz' && Pages(sz') <= TRAPFRAME
    requires Added(m1, r1, s1, m2, r2, s2, r, Pages(sz), Pages(sz') - Pages(sz)) && UserPages(m2, s2[r], Pages(sz'))
    ensures Building(m0, r0, s0, m2, r2, s2, r, sz', tf, tramp)
    ensures AllUser(m1, s1[r], Pages(sz)) ==> AllUser(m2, s2[r], Pages(sz'))
  {
    hide Leaf, HighOk, UserPages, Grew, Built;
    BuiltGrew(m0, r0, s0, m1, r1, s1, m2, r2, s2, r, Pages(sz), Pages(sz') - Pages(sz));
    GrewKeys(m1, r1, s1, m2, r2, s2, r, Pages(sz), Pages(sz') - Pages(sz));
    HighGrew(m1, r1, s1, m2, r2, s2, r, Pages(sz), Pages(sz') - Pages(sz), sz, sz', tf, tramp);
    if AllUser(m1, s1[r], Pages(sz)) {
      UserGrew(m1, r1, s1, m2, r2, s2, r, Pages(sz), Pages(sz') - Pages(sz));
    }
  }

  lemma UserGrew(m1: Mem, r1: map<nat, Role>, s1: Spaces, m2: Mem, r2: map<nat, Role>, s2: Spaces, r: nat, a: nat,
                 n: nat)
    requires Added(m1, r1, s1, m2, r2, s2, r, a, n) && r in s1 && AllUser(m1, s1[r], a)
    ensures AllUser(m2, s2[r], a + n)
  {
    hide Leaf;
  }

  lemma BuildingExtended(m0: Mem, r0: map<nat, Role>, s0: Spaces, m1: Mem, r1: map<nat, Role>, s1: Spaces, m2: Mem,
                         r2: map<nat, Role>, s2: Spaces,
                         r: nat, sz: nat, tf: nat, tramp: nat)
    requires Building(m0, r0, s0, m1, r1, s1, r, sz, tf, tramp) && Extended(m1, r1, s1, m2, r2, s2, r)
    ensures Building(m0, r0, s0, m2, r2, s2, r, sz, tf, tramp)
  {
    hide Leaf, Built, Extended, ImageOk;
    BuiltExtended(m0, r0, s0, m1, r1, s1, m2, r2, s2, r);
    ExtendedPrefix(m1, r1, s1, m2, r2, s2, r);
    ImageSame(m1, s1[r], m2, s2[r], sz, tf, tramp);
  }

  /** Writing to the new image's own memory. */
  lemma BuildingStore(m0: Mem, r0: map<nat, Role>, s0: Spaces, m1: Mem, r1: map<nat, Role>, s1: Spaces, m2: Mem,
                      r: nat, sz: nat, tf: nat, tramp: nat)
    requires Building(m0, r0, s0, m1, r1, s1, r, sz, tf, tramp) && OnlyUser(m1, m2, r1, r) && SameLeaves(m1, m2, s1)
    requires forall q | q in r0 && (r0[q].Table? || r0[q].User?) :: r0[q].root in s0
    ensures Building(m0, r0, s0, m2, r1, s1, r, sz, tf, tramp)
  {
    hide Leaf, ImageOk;
    ImageSame(m1, s1[r], m2, s1[r], sz, tf, tramp);
  }

  lemma SameUser(m1: Mem, m2: Mem, sp: Spaces, r: nat, n: nat)
    requires r in sp && SameLeaves(m1, m2, sp) && AllUser(m1, sp[r], n)
    ensures AllUser(m2, sp[r], n)
  {
    hide Leaf;
  }

  lemma UserPage(k: Kernel, r: nat, n: nat, v: nat)
    requires k.Valid() && r in k.sp && UserPages(k.mem, k.sp[r], n) && v < n
    requires PteFlags(Leaf(k.mem, k.sp[r], v)) == USER_PERM + PTE_V
    ensures var x := Leaf(k.mem, k.sp[r], v); v < MAXVPN && Touchable(k.mem, k.sp[r], v) && PteToPage(x) != 0
  {
    hide FreeListOk, TablesOk, TreesOk, LeavesOk, UsersOk, Leaf;
    UserFlagSet(Leaf(k.mem, k.sp[r], v));
    LeafPage(k.mem, k.role, k.sp, r, v);
  }

  /** loadseg(): readi() of each page's share of the segment into the page, which always exists; false where the file
      is short. */
  method Loadseg(k: Kernel, r: nat, va: nat, content: seq<byte>, offset: nat, filesz: nat, sz: nat,
                 ghost m0: Mem, ghost r0: map<nat, Role>, ghost s0: Spaces, ghost tf: nat, ghost tramp: nat)
    returns (ok: bool)
    requires k.Valid() && Building(m0, r0, s0, k.mem, k.role, k.sp, r, sz, tf, tramp)
    requires AllUser(k.mem, k.sp[r], Pages(sz))
    requires va % PGSIZE == 0 && va + filesz <= sz && offset < UINT && |content| < UINT
    requires forall q | q in r0 && (r0[q].Table? || r0[q].User?) :: r0[q].root in s0
    modifies k`mem
    ensures k.Valid() && Building(m0, r0, s0, k.mem, k.role, k.sp, r, sz, tf, tramp)
    ensures AllUser(k.mem, k.sp[r], Pages(sz))
    ensures SameLeaves(old(k.mem), k.mem, k.sp)
    ensures ok <==> filesz == 0 || offset + filesz <= |content|
    ensures ok ==> r in k.sp && Poked(old(k.mem), k.mem, k.sp[r], Pages(sz), va, Part(content, offset, filesz))
  {
    hide PlacesOk, FreeListOk, Leaf, HighOk, UserPages, Built, AllUser, SameLeaves, Poked, Touchable, Pages;
    ghost var m := k.mem;
    SameRefl(k.mem, k.sp);
    PokedNothing(k.mem, k.sp[r], Pages(sz), va);
    PartNothing(content, offset);
    var i := 0;
    while i < filesz
      invariant 0 <= i <= filesz && k.Valid() && (i > 0 ==> offset + i <= |content|) && (i < filesz ==> i % PGSIZE == 0)
      invariant Building(m0, r0, s0, k.mem, k.role, k.sp, r, sz, tf, tramp) && AllUser(k.mem, k.sp[r], Pages(sz))
      invariant SameLeaves(m, k.mem, k.sp) && Poked(m, k.mem, k.sp[r], Pages(sz), va, Part(content, offset, i))
    {
      var v := (va + i) / PGSIZE;
      InSegment(va, i, filesz, sz);
      UserFlags(k.mem, k.sp[r], Pages(sz), v);
      UserPage(k, r, Pages(sz), v);
      var pa := Walkaddr(k, r, v);
      assert pa != 0;                               // never panic("loadseg: address should exist")
      var n := PGSIZE;
      if filesz - i < PGSIZE {
        n := filesz - i;
      }
      var o := (offset + i) % UINT;                 // a uint
      assert o == offset + i;
      if o + n > |content| {                        // readi() comes up short
        return false;
      }
      ghost var m1 := k.mem;
      CopyPage(k, r, pa, va + i, content[o..o + n], sz, tf, tramp);
      BuildingStore(m0, r0, s0, m1, k.role, k.sp, k.mem, r, sz, tf, tramp);
      SameUser(m1, k.mem, k.sp, r, Pages(sz));
      SameLeavesTwice(m, m1, k.mem, k.sp);
      PartPoked(m, m1, k.mem, k.sp[r], Pages(sz), va, content, offset, i, n);
      i := i + n;
    }
    ok := true;
  }

  /** Bytes `offset` to `offset` + n of the file, as far as they exist. */
  function Part(content: seq<byte>, offset: nat, n: nat): seq<byte> {
    if offset + n <= |content| then content[offset..offset + n] else []
  }

  lemma PartNothing(content: seq<byte>, offset: nat)
    ensures Part(content, offset, 0) == []
  {}

  lemma PartPoked(m1: Mem, m2: Mem, m3: Mem, s: Space, n: nat, va: nat, content: seq<byte>, offset: nat, x: nat, y: nat)
    requires offset + x + y <= |content| && Poked(m1, m2, s, n, va, Part(content, offset, x))
    requires Poked(m2, m3, s, n, va + x, content[offset + x..offset + x + y])
    ensures Poked(m1, m3, s, n, va, Part(content, offset, x + y))
  {
    hide Poked;
    var data := Part(content, offset, x + y);
    assert data[..x] == Part(content, offset, x) && data[x..x + y] == content[offset + x..offset + x + y];
    assert data[..x + y] == data;
    PokedMore(m1, m2, m3, s, n, va, data, x, x + y);
  }

  lemma InSegment(va: nat, i: nat, filesz: nat, sz: nat)
    requires va % PGSIZE == 0 && i % PGSIZE == 0 && i < filesz && va + filesz <= sz
    ensures (va + i) / PGSIZE < Pages(sz) && (va + i) % PGSIZE == 0
  {
    var v := va / PGSIZE + i / PGSIZE;
    assert va + i == v * PGSIZE;
    assert v * PGSIZE < sz <= Pages(sz) * PGSIZE by { RoundsUp(sz); }
  }

  lemma SameRefl(mem: Mem, sp: Spaces)
    ensures SameLeaves(mem, mem, sp)
  {}

  lemma UserFlags(mem: Mem, s: Space, n: nat, v: nat)
    requires AllUser(mem, s, n) && v < n
    ensures PteFlags(Leaf(mem, s, v)) == USER_PERM + PTE_V
  {}

  /** uvmclear(): user code may no longer touch the page. */
  method Uvmclear(k: Kernel, r: nat, vpn: nat)
    requires k.Valid() && r in k.sp && vpn < TRAPFRAME && PteFlags(Leaf(k.mem, k.sp[r], vpn)) == USER_PERM + PTE_V
    modifies k`mem
    ensures k.Valid() && LeafSet(old(k.mem), k.mem, k.sp, r, vpn, NoUser(Leaf(old(k.mem), k.sp[r], vpn)))
    ensures DataSame(old(k.mem), k.role, k.mem)
  {
    hide TablesOk, TreesOk, UsersOk, LeavesOk, FreeListOk, Leaf, NoUser;
    k.NoTable(k.mem, k.sp[r], vpn);
    UserFlagSet(Leaf(k.mem, k.sp[r], vpn));
    var t, found := k.LookUp(r, vpn);
    assert found;                                   // never panic("uvmclear")
    k.LeafAt(r, vpn);
    var pte := k.mem[t][vpn % 512];
    var x := NoUser(pte);
    ReflagLeaf(k.mem, k.role, k.sp, r, vpn, x);
    FreeListFrame(k.mem, k.role, k.head, k.free, t, k.mem[t][vpn % 512 := x], k.role[t]);
    assert k.role[t := k.role[t]] == k.role;
    k.mem := k.mem[t := k.mem[t][vpn % 512 := x]];
  }

  lemma BuildingClear(m0: Mem, r0: map<nat, Role>, s0: Spaces, m1: Mem, r1: map<nat, Role>, s1: Spaces, m2: Mem,
                      r: nat, sz: nat, tf: nat, tramp: nat, v: nat, x: nat)
    requires Building(m0, r0, s0, m1, r1, s1, r, sz, tf, tramp) && v < Pages(sz) && x != 0
    requires LeafSet(m1, m2, s1, r, v, x) && DataSame(m1, r1, m2)
    ensures Building(m0, r0, s0, m2, r1, s1, r, sz, tf, tramp)
  {
    hide Leaf;
  }

  /** uvmalloc() on the image being built. */
  method Enlarge(k: Kernel, r: nat, sz: nat, newsz: nat,
                 ghost m0: Mem, ghost r0: map<nat, Role>, ghost s0: Spaces, ghost tf: nat, ghost tramp: nat,
                 ghost f0: nat)
    returns (sz1: nat)
    requires k.Valid() && Building(m0, r0, s0, k.mem, k.role, k.sp, r, sz, tf, tramp) && |r0.Keys| <= TRAPFRAME
    requires AllUser(k.mem, k.sp[r], Pages(sz)) && Settled(f0, |k.free|, k.sp[r].Keys, Pages(sz))
    modifies k
    ensures k.Valid()
    ensures sz1 == 0 ==> Building(m0, r0, s0, k.mem, k.role, k.sp, r, sz, tf, tramp)
    ensures sz1 != 0 ==>
      && Building(m0, r0, s0, k.mem, k.role, k.sp, r, sz1, tf, tramp)
      && AllUser(k.mem, k.sp[r], Pages(sz1)) && sz1 == (if newsz < sz then sz else newsz) && r in old(k.sp)
      && SameBytes(old(k.mem), old(k.sp)[r], k.mem, k.sp[r], Pages(sz))
      && ZeroFrom(k.mem, k.sp[r], Pages(sz), Pages(sz1))
    ensures sz1 != 0 <==> Larger(sz, newsz) > 0 && Affords(f0, Pages(Larger(sz, newsz)))
    ensures sz1 != 0 ==> Settled(f0, |k.free|, k.sp[r].Keys, Pages(sz1))
  {
    hide PlacesOk, FreeListOk, Leaf, HighOk, UserPages, Built, AllUser, Added, Extended, ByteIn, Settled, Affords, Cost,
         Billed, Paths, Pages;
    ghost var m1, r1, s1, f1, k1 := k.mem, k.role, k.sp, |k.free|, k.sp[r].Keys;
    KeysSame(k);
    SettledAffords(f0, f1, k1, Pages(sz));
    if newsz >= sz {
      PagesUp(sz, newsz);
      SettledNext(f0, f1, k1, Pages(sz), Pages(newsz) - Pages(sz));
    }
    SameNow(k.mem, k.sp[r], Pages(sz));
    NoneFrom(k.mem, k.sp[r], Pages(sz));
    var fine;
    sz1, fine := Uvmalloc(k, r, sz, newsz);
    if fine && newsz >= sz {
      SettledMore(f0, f1, k1, Pages(sz), |k.free|, k.sp[r].Keys, Pages(newsz) - Pages(sz));
    }
    if !fine {
      BuildingExtended(m0, r0, s0, m1, r1, s1, k.mem, k.role, k.sp, r, sz, tf, tramp);
    } else if newsz >= sz {
      BuildingGrew(m0, r0, s0, m1, r1, s1, k.mem, k.role, k.sp, r, sz, newsz, tf, tramp);
      GrewAt(m1, r1, s1, k.mem, k.role, k.sp, r, Pages(sz), Pages(newsz) - Pages(sz));
    }
  }

  lemma BuildingRoot(m0: Mem, r0: map<nat, Role>, s0: Spaces, m1: Mem, r1: map<nat, Role>, s1: Spaces,
                     r: nat, sz: nat, tf: nat, tramp: nat)
    requires Building(m0, r0, s0, m1, r1, s1, r, sz, tf, tramp)
    ensures r in s1
  {}

  /** One turn of the loop over program headers. `sz` is kept up to date as exec()'s own variable is. */
  method LoadSegment(k: Kernel, r: nat, sz: nat, content: seq<byte>, segs: seq<Segment>, m: nat,
                     ghost m0: Mem, ghost r0: map<nat, Role>, ghost s0: Spaces, ghost tf: nat, ghost tramp: nat,
                     ghost f0: nat)
    returns (ok: bool, sz': nat)
    requires k.Valid() && Building(m0, r0, s0, k.mem, k.role, k.sp, r, sz, tf, tramp) && |r0.Keys| <= TRAPFRAME
    requires AllUser(k.mem, k.sp[r], Pages(sz)) && m < |segs| && Holds(k.mem, k.sp[r], content, segs, m, Pages(sz))
    requires forall q | q in r0 && (r0[q].Table? || r0[q].User?) :: r0[q].root in s0
    requires segs[m].Load? ==> segs[m].vaddr < UINT64 && segs[m].memsz < UINT64
    requires |content| < UINT && sz == SizeAfter(segs, m) && Settled(f0, |k.free|, k.sp[r].Keys, Pages(sz))
    modifies k
    ensures k.Valid() && Building(m0, r0, s0, k.mem, k.role, k.sp, r, sz', tf, tramp)
    ensures ok ==>
      && AllUser(k.mem, k.sp[r], Pages(sz')) && sz <= sz'
      && Holds(k.mem, k.sp[r], content, segs, m + 1, Pages(sz'))
    ensures ok <==>
      && HeaderOk(segs[m], |content|)
      && (segs[m].Load? ==> SizeAfter(segs, m + 1) > 0 && Affords(f0, Pages(SizeAfter(segs, m + 1))))
    ensures ok ==> sz' == SizeAfter(segs, m + 1) && Settled(f0, |k.free|, k.sp[r].Keys, Pages(sz'))
  {
    hide PlacesOk, FreeListOk, Leaf, HighOk, UserPages, Built, AllUser, SameLeaves, Poked, Holds, Covers, SameBytes,
         ZeroFrom, Part, Settled, Affords, Pages, Building;
    sz' := sz;
    BuildingRoot(m0, r0, s0, k.mem, k.role, k.sp, r, sz, tf, tramp);
    match segs[m] {
      case Unreadable => return false, sz';
      case Skipped =>
        HoldsSkipped(k.mem, k.sp[r], content, segs, m, Pages(sz));
        return true, sz';
      case Load(vaddr, memsz, filesz, off) =>
        if memsz < filesz {
          return false, sz';
        }
        if (vaddr + memsz) % UINT64 < vaddr {
          return false, sz';
        }
        assert (vaddr + memsz) % UINT64 == vaddr + memsz < UINT64;
        ghost var m1, s1 := k.mem, k.sp;
        var sz1 := Enlarge(k, r, sz, vaddr + memsz, m0, r0, s0, tf, tramp, f0);
        if sz1 == 0 {
          return false, sz';
        }
        sz' := sz1;
        if vaddr % PGSIZE != 0 {
          return false, sz';
        }
        PagesUp(sz, sz');
        BuildingRoot(m0, r0, s0, k.mem, k.role, k.sp, r, sz', tf, tramp);
        HoldsMore(m1, s1[r], k.mem, k.sp[r], content, segs, m, Pages(sz), Pages(sz'));
        ghost var m2 := k.mem;
        ok := Loadseg(k, r, vaddr, content, off % UINT, filesz % UINT, sz', m0, r0, s0, tf, tramp);
        if ok {
          RoundsUp(sz');
          HoldsLoaded(m2, k.mem, k.sp[r], content, segs, m, Pages(sz'));
        }
    }
  }

  /** The program in the finished image of n pages: all below the stack page, guard page included. */
  ghost predicate ProgramLoaded(mem: Mem, s: Space, content: seq<byte>, segs: seq<Segment>, n: nat) {
    && n == ImagePages(segs) && HeadersOk(segs, |segs|, |content|)
    && (forall a: nat | a < (n - 1) * PGSIZE :: ByteIn(mem, s, a) == Wanted(content, segs, |segs|, a))
  }

  lemma ProgramDone(m1: Mem, m2: Mem, s: Space, content: seq<byte>, segs: seq<Segment>, n: nat)
    requires n == ImagePages(segs) && Holds(m1, s, content, segs, |segs|, n) && SameBytes(m1, s, m2, s, n - 1)
    requires HeadersOk(segs, |segs|, |content|)
    ensures ProgramLoaded(m2, s, content, segs, n)
  {
    hide ByteIn, Wanted, Covers, HeadersOk, ImagePages;
  }

  lemma ProgramStays(m1: Mem, s1: Space, m2: Mem, s2: Space, content: seq<byte>, segs: seq<Segment>, n: nat)
    requires ProgramLoaded(m1, s1, content, segs, n) && SameBytes(m1, s1, m2, s2, n)
    ensures ProgramLoaded(m2, s2, content, segs, n)
  {
    hide ByteIn, Wanted, HeadersOk, ImagePages;
  }

  lemma SameTwice(m1: Mem, s1: Space, m2: Mem, s2: Space, m3: Mem, s3: Space, n: nat)
    requires SameBytes(m1, s1, m2, s2, n) && SameBytes(m2, s2, m3, s3, n)
    ensures SameBytes(m1, s1, m3, s3, n)
  {
    hide ByteIn;
  }

  lemma SameNow(mem: Mem, s: Space, n: nat)
    ensures SameBytes(mem, s, mem, s, n)
  {}

  lemma HoldsSkipped(mem: Mem, s: Space, content: seq<byte>, segs: seq<Segment>, m: nat, n: nat)
    requires m < |segs| && segs[m].Skipped? && Holds(mem, s, content, segs, m, n)
    ensures Holds(mem, s, content, segs, m + 1, n)
  {
    hide ByteIn;
  }

  lemma HoldsLoaded(was: Mem, mem: Mem, s: Space, content: seq<byte>, segs: seq<Segment>, m: nat, n: nat)
    requires m < |segs| && segs[m].Load? && Holds(was, s, content, segs, m, n)
    requires var g := segs[m]; var size := g.filesz % UINT;
      && (size == 0 || g.off % UINT + size <= |content|) && g.vaddr + size <= n * PGSIZE
      && Poked(was, mem, s, n, g.vaddr, Part(content, g.off % UINT, size))
    ensures Holds(mem, s, content, segs, m + 1, n)
  {
    hide ByteIn;
    var g := segs[m];
    forall a: nat | a < n * PGSIZE ensures ByteIn(mem, s, a) == Wanted(content, segs, m + 1, a) {
      assert ByteIn(was, s, a) == Wanted(content, segs, m, a);
    }
  }

  lemma PageAligned(top: nat)
    requires top % PGSIZE == 0
    ensures top % 16 == 0
  {
    assert top == top / PGSIZE * 256 * 16;
  }

  /** The bytes at address a are `data`. */
  ghost predicate HasBytes(mem: Mem, s: Space, a: nat, data: seq<byte>) {
    forall k | 0 <= k < |data| :: ByteIn(mem, s, a + k) == data[k]
  }

  /** The string as copyout() gets it, its NUL included. */
  function CString(arg: seq<byte>): seq<byte> {
    arg + [0]
  }

  /** The first n strings are where ustack says. */
  ghost predicate StringsAt(mem: Mem, s: Space, args: seq<seq<byte>>, ustack: seq<nat>, n: nat) {
    n <= |args| && n <= |ustack| && forall j | 0 <= j < n :: HasBytes(mem, s, ustack[j], CString(args[j]))
  }

  /** The stack that main(argc, argv) finds: the strings, and at sp the array that points to them and ends in 0. */
  ghost predicate StackReady(mem: Mem, s: Space, args: seq<seq<byte>>, ustack: seq<nat>, sp: nat) {
    StringsAt(mem, s, args, ustack, |args|) && HasBytes(mem, s, sp, Bytes(ustack + [0]))
  }

  lemma StackStays(m1: Mem, s1: Space, m2: Mem, s2: Space, args: seq<seq<byte>>, ustack: seq<nat>, sp: nat, n: nat)
    requires StackReady(m1, s1, args, ustack, sp) && SameBytes(m1, s1, m2, s2, n) && |ustack| == |args|
    requires forall j | 0 <= j < |args| :: ustack[j] + |args[j]| + 1 <= n * PGSIZE
    requires sp + (|args| + 1) * 8 <= n * PGSIZE
    ensures StackReady(m2, s2, args, ustack, sp)
  {
    hide ByteIn;
    forall j | 0 <= j < |args| ensures HasBytes(m2, s2, ustack[j], CString(args[j])) {
      assert HasBytes(m1, s1, ustack[j], CString(args[j]));
    }
  }

  lemma PokedHas(m1: Mem, m2: Mem, s: Space, n: nat, at: nat, data: seq<byte>)
    requires Poked(m1, m2, s, n, at, data) && at + |data| <= n * PGSIZE
    ensures HasBytes(m2, s, at, data)
  {
    hide ByteIn;
  }

  /** A write below the strings leaves them alone. */
  lemma StringsKept(m1: Mem, m2: Mem, s: Space, n: nat, at: nat, data: seq<byte>, args: seq<seq<byte>>,
                    ustack: seq<nat>, c: nat)
    requires StringsAt(m1, s, args, ustack, c) && Poked(m1, m2, s, n, at, data)
    requires forall j | 0 <= j < c :: at + |data| <= ustack[j] && ustack[j] + |args[j]| + 1 <= n * PGSIZE
    ensures StringsAt(m2, s, args, ustack, c)
  {
    hide ByteIn;
    forall j | 0 <= j < c ensures HasBytes(m2, s, ustack[j], CString(args[j])) {
      assert HasBytes(m1, s, ustack[j], CString(args[j]));
    }
  }

  lemma StringsMore(mem: Mem, s: Space, args: seq<seq<byte>>, ustack: seq<nat>, sp: nat)
    requires |ustack| < |args| && StringsAt(mem, s, args, ustack, |ustack|)
    requires HasBytes(mem, s, sp, CString(args[|ustack|]))
    ensures StringsAt(mem, s, args, ustack + [sp], |ustack| + 1)
  {
    hide HasBytes;
  }

  lemma NoStrings(mem: Mem, s: Space, args: seq<seq<byte>>)
    ensures StringsAt(mem, s, args, [], 0)
  {}

  /** Writing to the stack page leaves the pages below it alone. */
  lemma BelowStack(m1: Mem, m2: Mem, s: Space, n: nat, at: nat, data: seq<byte>)
    requires n >= 1 && Poked(m1, m2, s, n, at, data) && (n - 1) * PGSIZE <= at
    ensures SameBytes(m1, s, m2, s, n - 1)
  {
    hide ByteIn;
  }

  /** Pushes the strings and the argv array below `top`, one page deep at most. */
  method PushArgs(k: Kernel, r: nat, top: nat, args: seq<seq<byte>>,
                  ghost m0: Mem, ghost r0: map<nat, Role>, ghost s0: Spaces, ghost tf: nat, ghost tramp: nat)
    returns (ok: bool, sp: nat, ustack: seq<nat>)
    requires k.Valid() && Building(m0, r0, s0, k.mem, k.role, k.sp, r, top, tf, tramp)
    requires top % PGSIZE == 0 && top >= 2 * PGSIZE
    requires PteFlags(Leaf(k.mem, k.sp[r], top / PGSIZE - 1)) == USER_PERM + PTE_V
    requires forall q | q in r0 && (r0[q].Table? || r0[q].User?) :: r0[q].root in s0
    requires forall j | 0 <= j < |args| :: |args[j]| < PGSIZE
    modifies k`mem
    ensures k.Valid() && Building(m0, r0, s0, k.mem, k.role, k.sp, r, top, tf, tramp)
    ensures SameLeaves(old(k.mem), k.mem, k.sp)
    ensures ok ==> |ustack| == |args| <= MAXARG && ArgsPlaced(top, args, ustack, |args|)
    ensures ok ==>
      && top - PGSIZE <= sp && sp % 16 == 0 && sp + (|args| + 1) * 8 <= top
      && forall j | 0 <= j < |args| :: sp + (|args| + 1) * 8 <= ustack[j]
    ensures ok ==>
      && r in k.sp && SameBytes(old(k.mem), k.sp[r], k.mem, k.sp[r], top / PGSIZE - 1)
      && StackReady(k.mem, k.sp[r], args, ustack, sp)
    ensures ok <==> ArgsFit(top, args)
  {
    hide PlacesOk, FreeListOk, Leaf, Building, SameLeaves, Down, StackAt, ArgsPlaced, Pages, SameBytes, StringsAt,
         HasBytes, Poked, Bytes;
    SameRefl(k.mem, k.sp);
    PageAligned(top);
    NonePlaced(top, args);
    BuildingHas(m0, r0, s0, k.mem, k.role, k.sp, r, top, tf, tramp);
    SameNow(k.mem, k.sp[r], top / PGSIZE - 1);
    NoStrings(k.mem, k.sp[r], args);
    ghost var start := k.mem;
    StackNone(top, args);
    sp, ustack := top, [];
    var stackbase := top - PGSIZE;
    var argc := 0;
    while argc < |args|
      invariant 0 <= argc <= |args| && |ustack| == argc <= MAXARG && stackbase <= sp <= top && sp % 16 == 0
      invariant k.Valid() && Building(m0, r0, s0, k.mem, k.role, k.sp, r, top, tf, tramp)
      invariant SameLeaves(start, k.mem, k.sp)
      invariant ArgsPlaced(top, args, ustack, argc) && sp == Above(top, ustack, argc) == StackAt(top, args, argc)
      invariant SameBytes(start, k.sp[r], k.mem, k.sp[r], top / PGSIZE - 1)
      invariant StringsAt(k.mem, k.sp[r], args, ustack, argc)
    {
      if argc >= MAXARG {
        return false, sp, ustack;
      }
      StackNext(top, args, argc);
      sp := Down(sp, |args[argc]| + 1);
      if sp < stackbase {
        StackFalls(top, args, argc + 1, |args|);
        return false, sp, ustack;
      }
      AllAbove(top, args, ustack, argc);
      PushBytes(k, r, top, sp, CString(args[argc]), args, ustack, start, m0, r0, s0, tf, tramp);
      ArgsMore(top, args, ustack, sp);
      StringsMore(k.mem, k.sp[r], args, ustack, sp);
      ustack := ustack + [sp];
      argc := argc + 1;
    }
    AllAbove(top, args, ustack, argc);
    sp := Down(sp, (argc + 1) * 8);
    if sp < stackbase {
      return false, sp, ustack;
    }
    PushBytes(k, r, top, sp, Bytes(ustack + [0]), args, ustack, start, m0, r0, s0, tf, tramp);
    ok := true;
  }

  lemma StackNone(top: int, args: seq<seq<byte>>)
    ensures StackAt(top, args, 0) == top
  {}

  lemma StackNext(top: int, args: seq<seq<byte>>, j: nat)
    requires j < |args|
    ensures StackAt(top, args, j + 1) == Down(StackAt(top, args, j), |args[j]| + 1)
  {}

  /** The first n strings lie one below the other, aligned. */
  ghost predicate ArgsPlaced(top: nat, args: seq<seq<byte>>, ustack: seq<nat>, n: nat)
    requires n <= |args| && n <= |ustack|
  {
    forall j {:trigger ustack[j]} | 0 <= j < n ::
      Aligned(ustack[j]) && ustack[j] + |args[j]| + 1 <= Above(top, ustack, j)
  }

  predicate Aligned(sp: nat) {
    sp % 16 == 0
  }

  function Above(top: nat, ustack: seq<nat>, j: nat): nat
    requires j <= |ustack|
  {
    if j == 0 then top else ustack[j - 1]
  }

  lemma NonePlaced(top: nat, args: seq<seq<byte>>)
    ensures ArgsPlaced(top, args, [], 0)
  {}

  lemma BuildingHas(m0: Mem, r0: map<nat, Role>, s0: Spaces, m1: Mem, r1: map<nat, Role>, s1: Spaces, r: nat, sz: nat,
                    tf: nat, tramp: nat)
    requires Building(m0, r0, s0, m1, r1, s1, r, sz, tf, tramp)
    ensures r in s1 && ImageOk(m1, s1[r], sz, tf, tramp)
  {}

  lemma ArgsMore(top: nat, args: seq<seq<byte>>, ustack: seq<nat>, sp: nat)
    requires |ustack| < |args| && ArgsPlaced(top, args, ustack, |ustack|) && Aligned(sp)
    requires sp + |args[|ustack|]| + 1 <= Above(top, ustack, |ustack|)
    ensures ArgsPlaced(top, args, ustack + [sp], |ustack| + 1)
  {
    hide Aligned;
    forall j | 0 <= j < |ustack| + 1 ensures (ustack + [sp])[j] + |args[j]| + 1 <= Above(top, ustack + [sp], j) {
      assert j < |ustack| ==> (ustack + [sp])[j] == ustack[j];
    }
  }

  lemma {:induction false} Descending(top: nat, args: seq<seq<byte>>, ustack: seq<nat>, n: nat, j: nat)
    requires j <= n <= |ustack| && n <= |args| && ArgsPlaced(top, args, ustack, n)
    ensures Above(top, ustack, n) <= Above(top, ustack, j) <= top
    decreases n
  {
    hide Aligned;
    if n > 0 {
      assert ustack[n - 1] <= Above(top, ustack, n - 1);
      Descending(top, args, ustack, n - 1, if j < n then j else n - 1);
    }
  }

  /** All strings lie between the stack pointer and the top. */
  lemma AllAbove(top: nat, args: seq<seq<byte>>, ustack: seq<nat>, n: nat)
    requires |ustack| == n <= |args| && ArgsPlaced(top, args, ustack, n)
    ensures forall j | 0 <= j < n :: Above(top, ustack, n) <= ustack[j] && ustack[j] + |args[j]| + 1 <= top
  {
    hide Aligned;
    forall j | 0 <= j < n ensures Above(top, ustack, n) <= ustack[j] && ustack[j] + |args[j]| + 1 <= top {
      Descending(top, args, ustack, n, j + 1);
      Descending(top, args, ustack, n, j);
    }
  }

  /** copyout() to the stack page: it is there, so this cannot fail. The strings pushed before stay. */
  method PushBytes(k: Kernel, r: nat, top: nat, va: nat, data: seq<byte>, ghost args: seq<seq<byte>>,
                   ghost ustack: seq<nat>,
                   ghost start: Mem, ghost m0: Mem, ghost r0: map<nat, Role>, ghost s0: Spaces, ghost tf: nat,
                   ghost tramp: nat)
    requires k.Valid() && Building(m0, r0, s0, k.mem, k.role, k.sp, r, top, tf, tramp) && SameLeaves(start, k.mem, k.sp)
    requires top % PGSIZE == 0 && top >= 2 * PGSIZE
    requires PteFlags(Leaf(start, k.sp[r], top / PGSIZE - 1)) == USER_PERM + PTE_V
    requires top - PGSIZE <= va && va + |data| <= top
    requires SameBytes(start, k.sp[r], k.mem, k.sp[r], top / PGSIZE - 1)
    requires StringsAt(k.mem, k.sp[r], args, ustack, |ustack|)
    requires forall j | 0 <= j < |ustack| :: va + |data| <= ustack[j] && ustack[j] + |args[j]| + 1 <= top
    requires forall q | q in r0 && (r0[q].Table? || r0[q].User?) :: r0[q].root in s0
    modifies k`mem
    ensures k.Valid() && Building(m0, r0, s0, k.mem, k.role, k.sp, r, top, tf, tramp) && SameLeaves(start, k.mem, k.sp)
    ensures r in k.sp && SameBytes(start, k.sp[r], k.mem, k.sp[r], top / PGSIZE - 1)
    ensures StringsAt(k.mem, k.sp[r], args, ustack, |ustack|) && HasBytes(k.mem, k.sp[r], va, data)
  {
    hide PlacesOk, FreeListOk, Leaf, Building, SameLeaves, SameBytes, StringsAt, HasBytes, Poked, Touchable, ImageOk,
         Pages;
    ghost var m1, n := k.mem, top / PGSIZE;
    BuildingHas(m0, r0, s0, k.mem, k.role, k.sp, r, top, tf, tramp);
    StackTouchable(k, start, m0, r0, s0, r, top, tf, tramp);
    WholePages(top);
    ghost var done;
    var fine;
    fine, done := Copyout(k, r, va, data, top, tf, tramp);
    assert fine by { if !fine { StackPage(top, va + done); } }
    assert data[..done] == data;
    BuildingStore(m0, r0, s0, m1, k.role, k.sp, k.mem, r, top, tf, tramp);
    SameLeavesTwice(start, m1, k.mem, k.sp);
    BelowStack(m1, k.mem, k.sp[r], n, va, data);
    SameTwice(start, k.sp[r], m1, k.sp[r], k.mem, k.sp[r], n - 1);
    StringsKept(m1, k.mem, k.sp[r], n, va, data, args, ustack, |ustack|);
    PokedHas(m1, k.mem, k.sp[r], n, va, data);
  }

  lemma WholePages(top: nat)
    requires top % PGSIZE == 0
    ensures Pages(top) == top / PGSIZE && top / PGSIZE * PGSIZE == top
  {}

  lemma StackPage(top: nat, a: nat)
    requires top % PGSIZE == 0 && top - PGSIZE <= a < top
    ensures a / PGSIZE == top / PGSIZE - 1
  {}

  lemma StackTouchable(k: Kernel, start: Mem, m0: Mem, r0: map<nat, Role>, s0: Spaces, r: nat, top: nat, tf: nat,
                       tramp: nat)
    requires k.Valid() && Building(m0, r0, s0, k.mem, k.role, k.sp, r, top, tf, tramp) && SameLeaves(start, k.mem, k.sp)
    requires top % PGSIZE == 0 && top >= 2 * PGSIZE
    requires PteFlags(Leaf(start, k.sp[r], top / PGSIZE - 1)) == USER_PERM + PTE_V
    ensures Touchable(k.mem, k.sp[r], top / PGSIZE - 1)
  {
    hide PlacesOk, FreeListOk, Leaf, HighOk, UserPages, Built, Touchable;
    WholePages(top);
    assert Leaf(k.mem, k.sp[r], top / PGSIZE - 1) == Leaf(start, k.sp[r], top / PGSIZE - 1);
    UserPage(k, r, Pages(top), top / PGSIZE - 1);
  }

  /** The `bad:` label: what has been built is dropped, and everything is as before. */
  method Bad(k: Kernel, r: nat, sz: nat, ghost m0: Mem, ghost r0: map<nat, Role>, ghost s0: Spaces, ghost tf: nat,
             ghost tramp: nat)
    requires k.Valid() && Building(m0, r0, s0, k.mem, k.role, k.sp, r, sz, tf, tramp)
    requires forall q | q in r0 && (r0[q].Table? || r0[q].User?) :: r0[q].root in s0
    modifies k
    ensures k.Valid() && Unchanged(m0, r0, s0, k.mem, k.role, k.sp)
  {
    hide PlacesOk, FreeListOk, Leaf, Built, Unchanged, ImageOk, Released;
    ghost var m1, r1, s1 := k.mem, k.role, k.sp;
    ProcFreepagetable(k, r, sz, tf, tramp);
    BuiltReleased(m0, r0, s0, m1, r1, s1, k.mem, k.role, k.sp, r);
  }

  /** The loop over the program headers. */
  method LoadProgram(k: Kernel, r: nat, content: seq<byte>, segs: seq<Segment>,
                     ghost m0: Mem, ghost r0: map<nat, Role>, ghost s0: Spaces, ghost tf: nat, ghost tramp: nat,
                     ghost f0: nat)
    returns (ok: bool, sz: nat)
    requires k.Valid() && Building(m0, r0, s0, k.mem, k.role, k.sp, r, 0, tf, tramp) && |r0.Keys| <= TRAPFRAME
    requires AllUser(k.mem, k.sp[r], Pages(0)) && Settled(f0, |k.free|, k.sp[r].Keys, Pages(0))
    requires forall q | q in r0 && (r0[q].Table? || r0[q].User?) :: r0[q].root in s0
    requires forall j | 0 <= j < |segs| && segs[j].Load? :: segs[j].vaddr < UINT64 && segs[j].memsz < UINT64
    requires |content| < UINT
    modifies k
    ensures k.Valid() && Building(m0, r0, s0, k.mem, k.role, k.sp, r, sz, tf, tramp)
    ensures ok ==>
      && AllUser(k.mem, k.sp[r], Pages(sz)) && Holds(k.mem, k.sp[r], content, segs, |segs|, Pages(sz))
      && sz == SizeAfter(segs, |segs|) && Settled(f0, |k.free|, k.sp[r].Keys, Pages(sz))
    ensures ok <==> HeadersOk(segs, |segs|, |content|) && Affords(f0, Pages(SizeAfter(segs, |segs|)))
  {
    hide PlacesOk, FreeListOk, Leaf, Building, AllUser, Built, ImageOk, Pages, Holds, HeaderOk, Settled, Affords,
         SizeAfter;
    BuildingHas(m0, r0, s0, k.mem, k.role, k.sp, r, 0, tf, tramp);
    NothingHeld(k.mem, k.sp[r], content, segs);
    SettledAffords(f0, |k.free|, k.sp[r].Keys, Pages(0));
    ok, sz := true, 0;
    var i := 0;
    while i < |segs|
      invariant 0 <= i <= |segs| && k.Valid() && r in k.sp && ok
      invariant Building(m0, r0, s0, k.mem, k.role, k.sp, r, sz, tf, tramp) && AllUser(k.mem, k.sp[r], Pages(sz))
      invariant Holds(k.mem, k.sp[r], content, segs, i, Pages(sz)) && HeadersOk(segs, i, |content|)
      invariant sz == SizeAfter(segs, i) && Settled(f0, |k.free|, k.sp[r].Keys, Pages(sz))
      invariant Affords(f0, Pages(SizeAfter(segs, i)))
    {
      ok, sz := LoadSegment(k, r, sz, content, segs, i, m0, r0, s0, tf, tramp, f0);
      BuildingHas(m0, r0, s0, k.mem, k.role, k.sp, r, sz, tf, tramp);
      if !ok {
        NotAll(segs, i, f0, |content|);
        return;
      }
      SettledAffords(f0, |k.free|, k.sp[r].Keys, Pages(sz));
      i := i + 1;
    }
  }

  /** One header that is refused, or for which there is no memory, is enough. */
  lemma NotAll(segs: seq<Segment>, i: nat, f0: nat, size: nat)
    requires i < |segs|
    requires !(&& HeaderOk(segs[i], size)
               && (segs[i].Load? ==> SizeAfter(segs, i + 1) > 0 && Affords(f0, Pages(SizeAfter(segs, i + 1)))))
    ensures !(HeadersOk(segs, |segs|, size) && Affords(f0, Pages(SizeAfter(segs, |segs|))))
  {
    hide HeaderOk, Affords, SizeAfter, Pages;
    SizeGrows(segs, i + 1, |segs|);
    PagesUp(SizeAfter(segs, i + 1), SizeAfter(segs, |segs|));
    if Affords(f0, Pages(SizeAfter(segs, |segs|))) {
      AffordsLess(f0, Pages(SizeAfter(segs, i + 1)), Pages(SizeAfter(segs, |segs|)));
    }
  }

  /** Two more pages at the next page boundary: the guard page and the stack. */
  method MakeStack(k: Kernel, r: nat, sz: nat, ghost content: seq<byte>, ghost segs: seq<Segment>,
                   ghost m0: Mem, ghost r0: map<nat, Role>, ghost s0: Spaces, ghost tf: nat, ghost tramp: nat,
                   ghost f0: nat)
    returns (ok: bool, sz': nat)
    requires k.Valid() && Building(m0, r0, s0, k.mem, k.role, k.sp, r, sz, tf, tramp) && |r0.Keys| <= TRAPFRAME
    requires AllUser(k.mem, k.sp[r], Pages(sz)) && Holds(k.mem, k.sp[r], content, segs, |segs|, Pages(sz))
    requires Settled(f0, |k.free|, k.sp[r].Keys, Pages(sz))
    modifies k
    ensures k.Valid() && Building(m0, r0, s0, k.mem, k.role, k.sp, r, sz', tf, tramp)
    ensures ok ==>
      && sz' % PGSIZE == 0 && sz' >= 2 * PGSIZE && r in k.sp && Guarded(k.mem, k.sp[r], sz' / PGSIZE)
      && sz' - 2 * PGSIZE == Pages(sz) * PGSIZE
      && Holds(k.mem, k.sp[r], content, segs, |segs|, sz' / PGSIZE)
    ensures ok <==> Affords(f0, Pages(sz) + 2)
  {
    hide PlacesOk, FreeListOk, Leaf, Building, AllUser, Built, ImageOk, Guarded, Pages, Holds, SameBytes,
         ZeroFrom, Settled, Affords;
    Rounded(m0, r0, s0, k.mem, k.role, k.sp, r, sz, tf, tramp);
    RoundTwice(Pages(sz) + 2);
    sz' := Pages(sz) * PGSIZE;
    ghost var m, s := k.mem, k.sp;
    var sz1 := Enlarge(k, r, sz', sz' + 2 * PGSIZE, m0, r0, s0, tf, tramp, f0);
    if sz1 == 0 {
      return false, sz';
    }
    sz' := sz1;
    BuildingHas(m0, r0, s0, k.mem, k.role, k.sp, r, sz', tf, tramp);
    GuardPage(m0, r0, s0, k.mem, k.role, k.sp, r, sz', tf, tramp);
    HoldsMore(m, s[r], k.mem, k.sp[r], content, segs, |segs|, Pages(sz), sz' / PGSIZE);
    ghost var m1 := k.mem;
    Uvmclear(k, r, sz' / PGSIZE - 2);
    BuildingClear(m0, r0, s0, m1, k.role, k.sp, k.mem, r, sz', tf, tramp, sz' / PGSIZE - 2,
                  NoUser(Leaf(m1, k.sp[r], sz' / PGSIZE - 2)));
    Cleared(m1, k.mem, k.sp, r, sz' / PGSIZE);
    NewImageLeaves(k, m0, r0, s0, r, sz', tf, tramp);
    ClearedAt(k, m1, r, sz' / PGSIZE);
    NoneFrom(k.mem, k.sp[r], sz' / PGSIZE);
    HoldsMore(m1, k.sp[r], k.mem, k.sp[r], content, segs, |segs|, sz' / PGSIZE, sz' / PGSIZE);
    ok := true;
  }

  lemma NoneFrom(mem: Mem, s: Space, n: nat)
    ensures ZeroFrom(mem, s, n, n)
  {}

  /** exec() up to its commit: a complete new address space beside the old one, or no change. */
  method BuildImage(k: Kernel, content: seq<byte>, segs: seq<Segment>, args: seq<seq<byte>>, tf: nat, tramp: nat)
    returns (ok: bool, r: nat, sz: nat, sp: nat, ustack: seq<nat>)
    requires k.Valid() && |k.role.Keys| <= MAXPAGES
    requires forall j | 0 <= j < |segs| && segs[j].Load? :: segs[j].vaddr < UINT64 && segs[j].memsz < UINT64
    requires |content| < UINT
    requires forall j | 0 <= j < |args| :: |args[j]| < PGSIZE
    modifies k
    ensures k.Valid()
    ensures !ok ==> Unchanged(old(k.mem), old(k.role), old(k.sp), k.mem, k.role, k.sp)
    ensures ok ==> Building(old(k.mem), old(k.role), old(k.sp), k.mem, k.role, k.sp, r, sz, tf, tramp)
    ensures ok ==> Started(k.mem, k.sp[r], sz, content, segs, args, ustack, sp)
    ensures ok <==> Loadable(segs, |content|, args, |old(k.free)|)
  {
    hide PlacesOk, FreeListOk, Leaf, Building, Unchanged, AllUser, ArgsPlaced, Built, ImageOk, Pages, Holds,
         ProgramLoaded, SameBytes, StackReady, HeadersOk, Settled, Affords, ArgsFit, SizeAfter, Path;
    ghost var m0, r0, s0 := k.mem, k.role, k.sp;
    RootsKnown(k);
    sz, sp, ustack := 0, 0, [];
    r := ProcPagetable(k, tf, tramp);
    if r == 0 {
      return false, r, sz, sp, ustack;
    }
    StartBuilding(m0, r0, s0, k.mem, k.role, k.sp, r, tf, tramp);
    ghost var f0 := |k.free|;
    SettledStart(f0);
    ok, sz := LoadProgram(k, r, content, segs, m0, r0, s0, tf, tramp, f0);
    if ok {
      ok, sz := MakeStack(k, r, sz, content, segs, m0, r0, s0, tf, tramp, f0);
    }
    if !ok {
      if Affords(f0, ImagePages(segs)) {
        AffordsLess(f0, Pages(SizeAfter(segs, |segs|)), ImagePages(segs));
      }
      Bad(k, r, sz, m0, r0, s0, tf, tramp);
      return;
    }
    ghost var m2 := k.mem;
    ok, sp, ustack := PushArgs(k, r, sz, args, m0, r0, s0, tf, tramp);
    if !ok {
      Bad(k, r, sz, m0, r0, s0, tf, tramp);
      return;
    }
    StillGuarded(m2, k.mem, k.sp, r, sz / PGSIZE);
    ProgramDone(m2, k.mem, k.sp[r], content, segs, sz / PGSIZE);
  }

  lemma NothingHeld(mem: Mem, s: Space, content: seq<byte>, segs: seq<Segment>)
    ensures Holds(mem, s, content, segs, 0, Pages(0)) && HeadersOk(segs, 0, |content|) && SizeAfter(segs, 0) == 0
  {}

  lemma RoundsUp(sz: nat)
    ensures sz <= Pages(sz) * PGSIZE
  {}

  /** Below the stack page lies a page that user code cannot touch. */
  ghost predicate Guarded(mem: Mem, s: Space, n: nat)
    requires n >= 2
  {
    && PteFlags(Leaf(mem, s, n - 2)) == USER_PERM + PTE_V - PTE_U
    && PteFlags(Leaf(mem, s, n - 1)) == USER_PERM + PTE_V
  }

  lemma StartBuilding(m0: Mem, r0: map<nat, Role>, s0: Spaces, m1: Mem, r1: map<nat, Role>, s1: Spaces, r: nat,
                      tf: nat, tramp: nat)
    requires Built(m0, r0, s0, m1, r1, s1, r) && r in s1 && ImageOk(m1, s1[r], 0, tf, tramp)
    ensures Building(m0, r0, s0, m1, r1, s1, r, 0, tf, tramp) && AllUser(m1, s1[r], Pages(0))
  {}

  lemma Rounded(m0: Mem, r0: map<nat, Role>, s0: Spaces, m1: Mem, r1: map<nat, Role>, s1: Spaces, r: nat, sz: nat,
                tf: nat, tramp: nat)
    requires Building(m0, r0, s0, m1, r1, s1, r, sz, tf, tramp)
    ensures Pages(Pages(sz) * PGSIZE) == Pages(sz) && Building(m0, r0, s0, m1, r1, s1, r, Pages(sz) * PGSIZE, tf, tramp)
  {
    hide Leaf, Built, HighOk, UserPages;
    RoundTwice(Pages(sz));
  }

  lemma RoundTwice(n: nat)
    ensures Pages(n * PGSIZE) == n && (n * PGSIZE) % PGSIZE == 0 && (n * PGSIZE) / PGSIZE == n
  {}

  lemma GuardPage(m0: Mem, r0: map<nat, Role>, s0: Spaces, m1: Mem, r1: map<nat, Role>, s1: Spaces, r: nat, sz: nat,
                  tf: nat, tramp: nat)
    requires Building(m0, r0, s0, m1, r1, s1, r, sz, tf, tramp) && r in s1 && AllUser(m1, s1[r], Pages(sz))
    requires sz >= 2 * PGSIZE
    requires exists n: nat :: sz == n * PGSIZE + 2 * PGSIZE
    ensures sz % PGSIZE == 0 && Pages(sz) == sz / PGSIZE >= 2 && Pages(sz) <= TRAPFRAME
    ensures PteFlags(Leaf(m1, s1[r], sz / PGSIZE - 2)) == PteFlags(Leaf(m1, s1[r], sz / PGSIZE - 1)) ==
      USER_PERM + PTE_V
    ensures NoUser(Leaf(m1, s1[r], sz / PGSIZE - 2)) != 0
  {
    hide Leaf, Built, HighOk, NoUser;
    var n: nat :| sz == n * PGSIZE + 2 * PGSIZE;
    RoundTwice(n + 2);
    UserFlagSet(Leaf(m1, s1[r], sz / PGSIZE - 2));
  }

  lemma Cleared(m1: Mem, m2: Mem, sp: Spaces, r: nat, n: nat)
    requires r in sp && n >= 2 && LeafSet(m1, m2, sp, r, n - 2, NoUser(Leaf(m1, sp[r], n - 2)))
    requires PteFlags(Leaf(m1, sp[r], n - 2)) == PteFlags(Leaf(m1, sp[r], n - 1)) == USER_PERM + PTE_V
    ensures Guarded(m2, sp[r], n)
  {
    hide Leaf, NoUser;
    UserFlagSet(Leaf(m1, sp[r], n - 2));
  }

  lemma StillGuarded(m1: Mem, m2: Mem, sp: Spaces, r: nat, n: nat)
    requires r in sp && n >= 2 && SameLeaves(m1, m2, sp) && Guarded(m1, sp[r], n)
    ensures Guarded(m2, sp[r], n)
  {
    hide Leaf;
  }

  // ----- the commit -----

  /** The places of epc, sp and a1 in struct trapframe. */
  const EPC: nat := 3
  const SP: nat := 6
  const A1: nat := 15

  /** The saved registers with which the new program starts: a0 is set when the system call returns. */
  function EntryFrame(was: Page, entry: nat, sp: nat): Page {
    was[A1 := sp][EPC := entry][SP := sp]
  }

  /** Address space `dead` has been replaced by address space r, built from free pages; trapframe tf apart, everything
      else is as it was, the other trapframes too. */
  ghost predicate Replaced(m0: Mem, r0: map<nat, Role>, s0: Spaces, m1: Mem, r1: map<nat, Role>, s1: Spaces,
                           dead: nat, r: nat, tf: nat)
  {
    && r !in s0 && s1.Keys == s0.Keys - {dead} + {r} && r1.Keys == r0.Keys
    && (forall q, v: nat | q in s0 && q != dead :: Leaf(m1, s1[q], v) == Leaf(m0, s0[q], v))
    && (forall p | p in r0 ::
          if (r0[p].Table? || r0[p].User?) && r0[p].root == dead then r1[p].Free?
          else if r1[p] == r0[p] then Plain(r0[p]) && p != tf ==> p in m0 && p in m1 && m1[p] == m0[p]
          else r0[p].Free? && (r1[p].Table? || r1[p].User?) && r1[p].root == r)
  }

  lemma ReplacedBy(m0: Mem, r0: map<nat, Role>, s0: Spaces, m1: Mem, r1: map<nat, Role>, s1: Spaces,
                   m2: Mem, r2: map<nat, Role>, s2: Spaces, m3: Mem, dead: nat, r: nat, tf: nat)
    requires Built(m0, r0, s0, m1, r1, s1, r) && Released(m1, r1, s1, m2, r2, s2, dead) && dead in s0
    requires SameLeaves(m2, m3, s2) && m3.Keys == m2.Keys && forall p | p in m2 && p != tf :: m3[p] == m2[p]
    ensures Replaced(m0, r0, s0, m3, r2, s2, dead, r, tf)
  {
    hide Leaf;
  }

  lemma CommitImages(m0: Mem, r0: map<nat, Role>, s0: Spaces, m1: Mem, r1: map<nat, Role>, s1: Spaces,
                     proc: map<nat, Image>,
                     owner: map<nat, nat>, tramp: nat, i: nat, img: Image)
    requires ImagesOk(m0, s0, proc, tramp) && OwnersOk(s0.Keys, proc, owner) && i in proc
    requires Replaced(m0, r0, s0, m1, r1, s1, proc[i].pagetable, img.pagetable, img.trapframe)
    requires img.pagetable in s1 && ImageOk(m1, s1[img.pagetable], img.sz, img.trapframe, tramp)
    ensures ImagesOk(m1, s1, proc[i := img], tramp)
  {
    hide Leaf, ImageOk;
    forall j | j in proc && j != i
      ensures proc[j].pagetable in s1 && ImageOk(m1, s1[proc[j].pagetable], proc[j].sz, proc[j].trapframe, tramp)
    {
      ImageSame(m0, s0[proc[j].pagetable], m1, s1[proc[j].pagetable], proc[j].sz, proc[j].trapframe, tramp);
    }
  }

  lemma CommitOwner(m0: Mem, s0: Spaces, s1: Spaces, proc: map<nat, Image>, owner: map<nat, nat>, tramp: nat, i: nat,
                    img: Image)
    requires ImagesOk(m0, s0, proc, tramp) && OwnersOk(s0.Keys, proc, owner) && i in proc
    requires img.pagetable !in s0 && s1.Keys == s0.Keys - {proc[i].pagetable} + {img.pagetable}
    ensures OwnersOk(s1.Keys, proc[i := img], owner[img.pagetable := i])
  {
    hide ImageOk;
  }

  lemma CommitFrames(m0: Mem, r0: map<nat, Role>, s0: Spaces, m1: Mem, r1: map<nat, Role>, s1: Spaces,
                     proc: map<nat, Image>,
                     framer: map<nat, nat>, i: nat, img: Image)
    requires FramesOk(r0, proc, framer) && i in proc && img.trapframe == proc[i].trapframe
    requires Replaced(m0, r0, s0, m1, r1, s1, proc[i].pagetable, img.pagetable, img.trapframe)
    ensures FramesOk(r1, proc[i := img], framer)
  {
    hide Leaf;
  }

  lemma NewImageStays(m0: Mem, r0: map<nat, Role>, s0: Spaces, m1: Mem, r1: map<nat, Role>, s1: Spaces, m2: Mem,
                      r2: map<nat, Role>, s2: Spaces,
                      dead: nat, r: nat, sz: nat, tf: nat, tramp: nat)
    requires Building(m0, r0, s0, m1, r1, s1, r, sz, tf, tramp) && Released(m1, r1, s1, m2, r2, s2, dead) && dead in s0
    ensures r in s2 && ImageOk(m2, s2[r], sz, tf, tramp) && forall v: nat :: Leaf(m2, s2[r], v) == Leaf(m1, s1[r], v)
  {
    hide Leaf, ImageOk;
    ImageSame(m1, s1[r], m2, s2[r], sz, tf, tramp);
  }

  lemma OldImageStays(m0: Mem, r0: map<nat, Role>, s0: Spaces, m1: Mem, r1: map<nat, Role>, s1: Spaces, r: nat,
                      dead: nat, sz: nat, tf: nat, tramp: nat)
    requires Built(m0, r0, s0, m1, r1, s1, r) && dead in s0 && ImageOk(m0, s0[dead], sz, tf, tramp)
    ensures dead in s1 && ImageOk(m1, s1[dead], sz, tf, tramp)
  {
    hide Leaf, ImageOk;
    ImageSame(m0, s0[dead], m1, s1[dead], sz, tf, tramp);
  }

  lemma FrameOfExec(m0: Mem, r0: map<nat, Role>, s0: Spaces, m1: Mem, r1: map<nat, Role>, s1: Spaces,
                    m2: Mem, r2: map<nat, Role>, s2: Spaces, dead: nat, r: nat, tf: nat)
    requires Built(m0, r0, s0, m1, r1, s1, r) && Released(m1, r1, s1, m2, r2, s2, dead) && tf in r0 && r0[tf].Frame?
    ensures tf in m0 && tf in m2 && m2[tf] == m0[tf] && tf in r2 && r2[tf].Frame?
  {
    hide Leaf;
  }

  /** Writing to a trapframe changes no user memory. */
  lemma FrameStoreBytes(k: Kernel, m1: Mem, r: nat, n: nat, tf: nat)
    requires k.Valid() && r in k.sp && UserPages(m1, k.sp[r], n) && SameLeaves(m1, k.mem, k.sp)
    requires tf in k.role && k.role[tf].Frame? && tf in m1 && tf in k.mem && k.mem == m1[tf := k.mem[tf]]
    ensures SameBytes(m1, k.sp[r], k.mem, k.sp[r], n)
  {
    hide Leaf, FreeListOk, TablesOk, TreesOk, LeavesOk, UsersOk;
    forall v: nat | v < n ensures At(k.mem, k.sp[r], v) == At(m1, k.sp[r], v) {
      assert Leaf(k.mem, k.sp[r], v) == Leaf(m1, k.sp[r], v);
      LeafPage(k.mem, k.role, k.sp, r, v);
    }
    PagesBytes(m1, k.sp[r], k.mem, k.sp[r], n);
  }

  /** What is in memory when the new program starts. */
  ghost predicate Started(mem: Mem, s: Space, sz: nat, content: seq<byte>, segs: seq<Segment>, args: seq<seq<byte>>,
                          ustack: seq<nat>, sp: nat)
  {
    && sz % PGSIZE == 0 && sz >= 2 * PGSIZE && Guarded(mem, s, sz / PGSIZE)
    && |ustack| == |args| <= MAXARG && ArgsPlaced(sz, args, ustack, |args|)
    && sz - PGSIZE <= sp && sp % 16 == 0 && sp + (|args| + 1) * 8 <= sz
    && (forall j | 0 <= j < |args| :: sp + (|args| + 1) * 8 <= ustack[j])
    && ProgramLoaded(mem, s, content, segs, sz / PGSIZE) && StackReady(mem, s, args, ustack, sp)
  }

  lemma StartedStays(m1: Mem, s1: Space, m2: Mem, s2: Space, sz: nat, content: seq<byte>, segs: seq<Segment>,
                     args: seq<seq<byte>>, ustack: seq<nat>, sp: nat)
    requires Started(m1, s1, sz, content, segs, args, ustack, sp) && SameBytes(m1, s1, m2, s2, sz / PGSIZE)
    requires forall v: nat :: Leaf(m2, s2, v) == Leaf(m1, s1, v)
    ensures Started(m2, s2, sz, content, segs, args, ustack, sp)
  {
    hide Leaf, SameBytes, ProgramLoaded, StackReady, ArgsPlaced, Guarded;
    GuardStays(m1, s1, m2, s2, sz / PGSIZE);
    ProgramStays(m1, s1, m2, s2, content, segs, sz / PGSIZE);
    AllAbove(sz, args, ustack, |args|);
    WholePages(sz);
    StackStays(m1, s1, m2, s2, args, ustack, sp, sz / PGSIZE);
  }

  /** The switch to the new image: the old one is freed and the registers are set. */
  method Commit(k: Kernel, dead: nat, oldsz: nat, r: nat, sz: nat, tf: nat, entry: nat, sp: nat, ghost tramp: nat,
                ghost m0: Mem, ghost r0: map<nat, Role>, ghost s0: Spaces, ghost content: seq<byte>,
                ghost segs: seq<Segment>,
                ghost args: seq<seq<byte>>, ghost ustack: seq<nat>)
    requires k.Valid() && Building(m0, r0, s0, k.mem, k.role, k.sp, r, sz, tf, tramp)
    requires dead in s0 && ImageOk(m0, s0[dead], oldsz, tf, tramp) && tf in r0 && r0[tf].Frame?
    requires Started(k.mem, k.sp[r], sz, content, segs, args, ustack, sp)
    modifies k
    ensures k.Valid() && Replaced(m0, r0, s0, k.mem, k.role, k.sp, dead, r, tf) && r in k.sp
    ensures ImageOk(k.mem, k.sp[r], sz, tf, tramp) && Started(k.mem, k.sp[r], sz, content, segs, args, ustack, sp)
    ensures tf in m0 && tf in k.mem && k.mem[tf] == EntryFrame(m0[tf], entry, sp)
  {
    hide PlacesOk, FreeListOk, Leaf, Built, Released, Replaced, ImageOk, Started, SameBytes, UserPages, SameLeaves,
         UsersOk, EntryFrame;
    ghost var m1, r1, s1 := k.mem, k.role, k.sp;
    OldImageStays(m0, r0, s0, m1, r1, s1, r, dead, oldsz, tf, tramp);
    StartedWhole(m1, s1[r], sz, content, segs, args, ustack, sp);
    NewImageLeaves(k, m0, r0, s0, r, sz, tf, tramp);
    ProcFreepagetable(k, dead, oldsz, tf, tramp);
    ghost var m2, r2, s2 := k.mem, k.role, k.sp;
    NewImageStays(m0, r0, s0, m1, r1, s1, m2, r2, s2, dead, r, sz, tf, tramp);
    ReleasedAt(m1, r1, s1, m2, r2, s2, r, dead, sz / PGSIZE);
    StartedStays(m1, s1[r], m2, s2[r], sz, content, segs, args, ustack, sp);
    FrameOfExec(m0, r0, s0, m1, r1, s1, m2, r2, s2, dead, r, tf);
    k.Store(tf, EntryFrame(k.mem[tf], entry, sp));
    ReplacedBy(m0, r0, s0, m1, r1, s1, m2, r2, s2, k.mem, dead, r, tf);
    SameImage(m2, k.mem, s2, r, sz, tf, tramp);
    ImageLeaves(m2, s2[r], sz, tf, tramp);
    FrameStoreBytes(k, m2, r, sz / PGSIZE, tf);
    SameLeavesAt(m2, k.mem, s2, r);
    StartedStays(m2, s2[r], k.mem, s2[r], sz, content, segs, args, ustack, sp);
  }

  lemma StartedWhole(mem: Mem, s: Space, sz: nat, content: seq<byte>, segs: seq<Segment>, args: seq<seq<byte>>,
                     ustack: seq<nat>, sp: nat)
    requires Started(mem, s, sz, content, segs, args, ustack, sp)
    ensures sz % PGSIZE == 0 && Pages(sz) == sz / PGSIZE
  {
    hide Leaf;
    WholePages(sz);
  }

  lemma ImageLeaves(mem: Mem, s: Space, sz: nat, tf: nat, tramp: nat)
    requires ImageOk(mem, s, sz, tf, tramp) && Pages(sz) == sz / PGSIZE
    ensures UserPages(mem, s, sz / PGSIZE)
  {}

  lemma SameLeavesAt(m1: Mem, m2: Mem, sp: Spaces, r: nat)
    requires SameLeaves(m1, m2, sp) && r in sp
    ensures forall v: nat :: Leaf(m2, sp[r], v) == Leaf(m1, sp[r], v)
  {
    hide Leaf;
  }

  /** exec(): process i gets a new image and its old one is freed, or everything stays as it was. The program file is
      `content`; `entry` and `segs` are what its headers say. */
  method ExecProgram(w: Machine, i: nat, headerOk: bool, entry: nat, content: seq<byte>, segs: seq<Segment>,
                     args: seq<seq<byte>>)
    returns (ret: int, sp: nat, ustack: seq<nat>)
    requires w.Valid() && i in w.proc && |content| < UINT
    requires forall j | 0 <= j < |segs| && segs[j].Load? :: segs[j].vaddr < UINT64 && segs[j].memsz < UINT64
    requires forall j | 0 <= j < |args| :: |args[j]| < PGSIZE
    modifies w, w.k
    ensures w.Valid() && (ret == -1 || ret == |args|)
    ensures ret == -1 ==>
      w.proc == old(w.proc) && Unchanged(old(w.k.mem), old(w.k.role), old(w.k.sp), w.k.mem, w.k.role, w.k.sp)
    ensures ret >= 0 ==>
      i in w.proc && w.proc == old(w.proc)[i := w.proc[i]] && w.proc[i].trapframe == old(w.proc)[i].trapframe
    ensures ret >= 0 ==>
      Replaced(old(w.k.mem), old(w.k.role), old(w.k.sp), w.k.mem, w.k.role, w.k.sp,
               old(w.proc)[i].pagetable, w.proc[i].pagetable, w.proc[i].trapframe)
    ensures ret >= 0 ==>
      && w.proc[i].trapframe in old(w.k.mem) && w.proc[i].trapframe in w.k.mem
      && w.k.mem[w.proc[i].trapframe] == EntryFrame(old(w.k.mem)[w.proc[i].trapframe], entry, sp)
    ensures ret >= 0 ==>
      && w.proc[i].pagetable in w.k.sp
      && Started(w.k.mem, w.k.sp[w.proc[i].pagetable], w.proc[i].sz, content, segs, args, ustack, sp)
    ensures ret >= 0 <==> headerOk && Loadable(segs, |content|, args, |old(w.k.free)|)
  {
    hide Loadable, PlacesOk, FreeListOk, Leaf, ImagesOk, OwnersOk, FramesOk, Unchanged, Built, Replaced, ImageOk,
         Started, EntryFrame;
    ghost var m0, r0, s0 := w.k.mem, w.k.role, w.k.sp;
    sp, ustack := 0, [];
    w.ImageAt(i);
    FrameAt(r0, w.proc, w.framer, i);
    if !headerOk {
      KeysSame(w.k);
      UnchangedNone(m0, r0, s0);
      return -1, sp, ustack;
    }
    var tf := w.proc[i].trapframe;
    var ok, r, sz;
    ok, r, sz, sp, ustack := BuildImage(w.k, content, segs, args, tf, w.trampoline);
    if !ok {
      w.UnchangedKeys(m0, r0, s0, w.k.mem, w.k.role, w.k.sp);
      UnchangedImages(m0, r0, s0, w.k.mem, w.k.role, w.k.sp, w.proc, w.trampoline);
      return -1, sp, ustack;
    }
    var oldpagetable, oldsz := w.proc[i].pagetable, w.proc[i].sz;
    Commit(w.k, oldpagetable, oldsz, r, sz, tf, entry, sp, w.trampoline, m0, r0, s0, content, segs, args, ustack);
    ReplacedKeys(m0, r0, s0, w.k.mem, w.k.role, w.k.sp, oldpagetable, r, tf);
    var img := Image(r, tf, sz);
    CommitImages(m0, r0, s0, w.k.mem, w.k.role, w.k.sp, w.proc, w.owner, w.trampoline, i, img);
    CommitOwner(m0, s0, w.k.sp, w.proc, w.owner, w.trampoline, i, img);
    CommitFrames(m0, r0, s0, w.k.mem, w.k.role, w.k.sp, w.proc, w.framer, i, img);
    w.proc, w.owner := w.proc[i := img], w.owner[r := i];
    ret := |args|;
  }

  lemma NewImageLeaves(k: Kernel, m0: Mem, r0: map<nat, Role>, s0: Spaces, r: nat, sz: nat, tf: nat, tramp: nat)
    requires k.Valid() && Building(m0, r0, s0, k.mem, k.role, k.sp, r, sz, tf, tramp) && sz % PGSIZE == 0
    ensures r !in s0 && r in k.sp && UsersOk(k.mem, k.role, k.sp) && UserPages(k.mem, k.sp[r], sz / PGSIZE)
  {
    hide Leaf, FreeListOk, TablesOk, TreesOk, LeavesOk, UsersOk, HighOk, UserPages;
    RoundTwice(sz / PGSIZE);
  }

  lemma GuardStays(m1: Mem, s1: Space, m2: Mem, s2: Space, n: nat)
    requires n >= 2 && Guarded(m1, s1, n) && forall v: nat :: Leaf(m2, s2, v) == Leaf(m1, s1, v)
    ensures Guarded(m2, s2, n)
  {
    hide Leaf;
  }

  lemma ReplacedKeys(m0: Mem, r0: map<nat, Role>, s0: Spaces, m1: Mem, r1: map<nat, Role>, s1: Spaces,
                     dead: nat, r: nat, tf: nat)
    requires Replaced(m0, r0, s0, m1, r1, s1, dead, r, tf)
    ensures r1.Keys == r0.Keys && r !in s0 && s1.Keys == s0.Keys - {dead} + {r}
  {}
}
