/** kernel/kalloc.c and kernel/vm.c: the page allocator, and the page tables built from its pages. */
module Vm {
  import opened Sv39
  import opened PageTables
  import opened PageBill

  const JUNK_FREE: nat := 0x0101_0101_0101_0101
  const JUNK_ALLOC: nat := 0x0505_0505_0505_0505

  /** The free list is threaded through the first word of the free pages, and holds each of them once. */
  ghost predicate FreeListOk(mem: Mem, role: map<nat, Role>, head: nat, free: seq<nat>) {
    && head == (if free == [] then 0 else free[0])
    && (forall i | 0 <= i < |free| :: free[i] in role && role[free[i]].Free? && free[i] in mem)
    && (forall i {:trigger mem[free[i]]} | 0 <= i < |free| ::
          mem[free[i]][0] == if i + 1 < |free| then free[i + 1] else 0)
    && (forall i, j | 0 <= i < j < |free| :: free[i] != free[j])
    && (forall p | p in role && role[p].Free? :: p in free)
  }

  lemma FreeListFrame(mem: Mem, role: map<nat, Role>, head: nat, free: seq<nat>, p: nat, x: Page, y: Role)
    requires FreeListOk(mem, role, head, free) && p in role && !role[p].Free? && !y.Free?
    ensures FreeListOk(mem[p := x], role[p := y], head, free)
  {}

  lemma FreeListPop(mem: Mem, role: map<nat, Role>, head: nat, free: seq<nat>, x: Page)
    requires FreeListOk(mem, role, head, free) && free != []
    ensures head in mem && head in role && role[head].Free?
      && FreeListOk(mem[head := x], role[head := Held], mem[head][0], free[1..])
  {
    var mem', role', rest := mem[head := x], role[head := Held], free[1..];
    assert free[0] == head;
    forall i | 0 <= i < |rest| ensures rest[i] in role' && role'[rest[i]].Free? && rest[i] in mem' {
      PoppedLink(mem, role, head, free, i);
    }
    forall i {:trigger mem'[rest[i]]} | 0 <= i < |rest|
      ensures mem'[rest[i]][0] == if i + 1 < |rest| then rest[i + 1] else 0
    {
      PoppedLink(mem, role, head, free, i);
    }
    forall p | p in role' && role'[p].Free? ensures p in rest {
      PoppedFree(mem, role, head, free, p);
    }
  }

  lemma PoppedLink(mem: Mem, role: map<nat, Role>, head: nat, free: seq<nat>, i: nat)
    requires FreeListOk(mem, role, head, free) && free != [] && i < |free| - 1
    ensures free[1..][i] in role && role[free[1..][i]].Free? && free[1..][i] in mem && free[1..][i] != head
    ensures mem[free[1..][i]][0] == if i + 1 < |free| - 1 then free[1..][i + 1] else 0
  {
    assert free[1..][i] == free[i + 1] && free[i + 1] != free[0];
  }

  lemma PoppedFree(mem: Mem, role: map<nat, Role>, head: nat, free: seq<nat>, p: nat)
    requires FreeListOk(mem, role, head, free) && free != [] && p in role && role[p].Free? && p != head
    ensures p in free[1..]
  {
    var i :| 0 <= i < |free| && free[i] == p;
    assert free[1..][i - 1] == p;
  }

  lemma FreeListPush(mem: Mem, role: map<nat, Role>, head: nat, free: seq<nat>, p: nat, x: Page)
    requires FreeListOk(mem, role, head, free) && p in role && !role[p].Free? && p != 0 && x[0] == head
    ensures FreeListOk(mem[p := x], role[p := Free], p, [p] + free)
  {
    var mem', free' := mem[p := x], [p] + free;
    forall i | 0 <= i < |free'|
      ensures free'[i] in role[p := Free] && role[p := Free][free'[i]].Free? && free'[i] in mem'
    {
      if i > 0 { assert free'[i] == free[i - 1]; }
    }
    forall i {:trigger mem'[free'[i]]} | 0 <= i < |free'|
      ensures mem'[free'[i]][0] == if i + 1 < |free'| then free'[i + 1] else 0
    {
      if i > 0 { assert free'[i] == free[i - 1] && (i < |free| ==> free'[i + 1] == free[i]); }
    }
  }

  lemma PathInTree(mem: Mem, s: Space, vpn: nat, l: nat)
    requires TreeOk(mem, s) && l <= 2
    ensures Node(0, vpn / 512) in s ==> Node(l, Key(vpn, l)) in s
  {
    if Node(0, vpn / 512) in s && l > 0 {
      assert Node(1, Key(vpn, 0) / 512) in s && Key(vpn, 1) == Key(vpn, 0) / 512;
      assert Node(2, Key(vpn, 1) / 512) in s && Key(vpn, 2) == Key(vpn, 1) / 512;
    }
  }

  lemma FreeHead(mem: Mem, role: map<nat, Role>, head: nat, free: seq<nat>)
    requires FreeListOk(mem, role, head, free) && 0 !in role
    ensures head == 0 <==> free == []
  {}

  lemma NoSpaces(mem: Mem, role: map<nat, Role>)
    requires mem.Keys == role.Keys && 0 !in role && forall p | p in role :: role[p].Held?
    ensures PlacesOk(mem, role, map[]) && FreeListOk(mem, role, 0, [])
  {}

  /** Pages only went from the free list into the tables of address space r. */
  ghost predicate OnlyTables(role: map<nat, Role>, after: map<nat, Role>, r: nat) {
    && after.Keys == role.Keys
    && forall p | p in role :: after[p] == role[p] || (role[p].Free? && after[p].Table? && after[p].root == r)
  }

  /** No mapping of any address space changed. */
  ghost predicate MapsSame(mem: Mem, sp: Spaces, after: Mem, sp': Spaces) {
    && sp'.Keys == sp.Keys
    && forall q, v: nat | q in sp :: Leaf(after, sp'[q], v) == Leaf(mem, sp[q], v)
  }

  /** Address spaces kept their tables and may have gained some. */
  ghost predicate SpacesGrow(sp: Spaces, sp': Spaces) {
    && sp'.Keys == sp.Keys
    && forall q, n | q in sp && n in sp[q] :: n in sp'[q] && sp'[q][n] == sp[q][n]
  }

  /** Pages whose contents matter to somebody other than this file. */
  predicate Plain(y: Role) {
    y.Held? || y.User? || y.Frame?
  }

  ghost predicate DataSame(mem: Mem, role: map<nat, Role>, after: Mem) {
    forall p | p in role && Plain(role[p]) :: p in mem && p in after && after[p] == mem[p]
  }

  /** What an operation may have changed that only adds tables to address space r. */
  ghost predicate Extended(mem: Mem, role: map<nat, Role>, sp: Spaces, after: Mem, role': map<nat, Role>, sp': Spaces,
                           r: nat)
  {
    MapsSame(mem, sp, after, sp') && OnlyTables(role, role', r) && SpacesGrow(sp, sp') && DataSame(mem, role, after)
  }

  lemma ExtendedTwice(m0: Mem, r0: map<nat, Role>, s0: Spaces, m1: Mem, r1: map<nat, Role>, s1: Spaces,
                      m2: Mem, r2: map<nat, Role>, s2: Spaces, r: nat)
    requires Extended(m0, r0, s0, m1, r1, s1, r) && Extended(m1, r1, s1, m2, r2, s2, r)
    ensures Extended(m0, r0, s0, m2, r2, s2, r)
  {
    hide Leaf;
  }

  lemma TableAdded(m0: Mem, r0: map<nat, Role>, s0: Spaces, m1: Mem, r: nat, c: Node, t: nat, pg: nat)
    requires r in s0 && c !in s0[r] && t in r0 && r0[t].Free? && pg in r0 && r0[pg].Table? && m0.Keys == r0.Keys
    requires forall q, v: nat | q in s0 :: Leaf(m1, WithTable(s0, r, c, t)[q], v) == Leaf(m0, s0[q], v)
    requires forall p | p in r0 && p != t && p != pg :: p in m1 && m1[p] == m0[p]
    ensures Extended(m0, r0, s0, m1, r0[t := Table(r, c.level, c.key)], WithTable(s0, r, c, t), r)
  {
    hide Leaf;
  }

  lemma ExtendedNone(m: Mem, role: map<nat, Role>, sp: Spaces, r: nat)
    requires m.Keys == role.Keys
    ensures Extended(m, role, sp, m, role, sp, r)
  {}

  /** What happened when n pages from ppn on were mapped at vpn and up in address space r: these PTEs and the
      tables they needed are all that is new. */
  ghost predicate Mapped(mem: Mem, role: map<nat, Role>, sp: Spaces, after: Mem, role': map<nat, Role>, sp': Spaces,
                         r: nat, vpn: nat, n: nat, ppn: nat, flags: nat)
    requires flags < FLAGS
  {
    && SpacesGrow(sp, sp') && role'.Keys == role.Keys && DataSame(mem, role, after)
    && (forall q, v: nat | q in sp :: Leaf(after, sp'[q], v) ==
          if q == r && vpn <= v < vpn + n then MakePte(ppn + (v - vpn), flags) else Leaf(mem, sp[q], v))
    && (forall p | p in role ::
          if ppn <= p < ppn + n && vpn + (p - ppn) < TRAPFRAME then role'[p] == User(r, vpn + (p - ppn))
          else role'[p] == role[p] || (role[p].Free? && role'[p].Table? && role'[p].root == r))
  }

  /** The n pages that are to appear at vpn and up are at hand: held, where they are to be user memory. */
  ghost predicate AtHand(role: map<nat, Role>, vpn: nat, n: nat, ppn: nat) {
    forall p | ppn <= p < ppn + n && vpn + (p - ppn) < TRAPFRAME :: p in role && role[p].Held?
  }

  lemma MappedFirst(m0: Mem, r0: map<nat, Role>, s0: Spaces, m1: Mem, r1: map<nat, Role>, s1: Spaces,
                    m2: Mem, r2: map<nat, Role>, r: nat, vpn: nat, ppn: nat, flags: nat)
    requires flags < FLAGS && Extended(m0, r0, s0, m1, r1, s1, r) && LeafSet(m1, m2, s1, r, vpn, MakePte(ppn, flags))
    requires r in s0 && AtHand(r0, vpn, 1, ppn) && DataSame(m1, r1, m2)
    requires r2 == if vpn < TRAPFRAME then r1[ppn := User(r, vpn)] else r1
    ensures Mapped(m0, r0, s0, m2, r2, s1, r, vpn, 1, ppn, flags)
  {
    hide Leaf;
  }

  lemma MappedMore(m0: Mem, r0: map<nat, Role>, s0: Spaces, m1: Mem, r1: map<nat, Role>, s1: Spaces,
                   m2: Mem, r2: map<nat, Role>, s2: Spaces, r: nat, vpn: nat, n: nat, ppn: nat, flags: nat)
    requires flags < FLAGS && Mapped(m0, r0, s0, m1, r1, s1, r, vpn, n, ppn, flags)
    requires Mapped(m1, r1, s1, m2, r2, s2, r, vpn + n, 1, ppn + n, flags)
    ensures Mapped(m0, r0, s0, m2, r2, s2, r, vpn, n + 1, ppn, flags)
  {
    hide Leaf;
  }

  lemma MappedTables(m0: Mem, r0: map<nat, Role>, s0: Spaces, m1: Mem, r1: map<nat, Role>, s1: Spaces,
                     m2: Mem, r2: map<nat, Role>, s2: Spaces, r: nat, vpn: nat, n: nat, ppn: nat, flags: nat)
    requires flags < FLAGS && Mapped(m0, r0, s0, m1, r1, s1, r, vpn, n, ppn, flags)
    requires Extended(m1, r1, s1, m2, r2, s2, r)
    ensures Mapped(m0, r0, s0, m2, r2, s2, r, vpn, n, ppn, flags)
  {
    hide Leaf;
  }

  /** What happened when the n pages from vpn on were unmapped in address space r: their PTEs are gone, and the
      user pages among them have role y. */
  ghost predicate Unmapped(mem: Mem, role: map<nat, Role>, after: Mem, role': map<nat, Role>, sp: Spaces,
                           r: nat, vpn: nat, n: nat, y: Role)
  {
    && role'.Keys == role.Keys
    && (forall q, v: nat | q in sp ::
          Leaf(after, sp[q], v) == if q == r && vpn <= v < vpn + n then 0 else Leaf(mem, sp[q], v))
    && (forall p | p in role ::
          && role'[p] == (if role[p].User? && role[p].root == r && vpn <= role[p].vpn < vpn + n then y else role[p])
          && (Plain(role[p]) && role'[p] == role[p] ==> p in mem && p in after && after[p] == mem[p]))
  }

  lemma UnmappedFirst(m0: Mem, r0: map<nat, Role>, m1: Mem, r1: map<nat, Role>, m2: Mem, sp: Spaces, r: nat, vpn: nat,
                      y: Role)
    requires UsersOk(m0, r0, sp) && r in sp && Leaf(m0, sp[r], vpn) != 0
    requires LeafSet(m0, m1, sp, r, vpn, 0) && SameLeaves(m1, m2, sp)
    requires forall p | p in r0 && Plain(r0[p]) && p in r1 && r1[p] == r0[p] :: p in m0 && p in m2 && m2[p] == m0[p]
    requires r1 == if vpn < TRAPFRAME then r0[PteToPage(Leaf(m0, sp[r], vpn)) := y] else r0
    ensures Unmapped(m0, r0, m2, r1, sp, r, vpn, 1, y)
  {
    hide Leaf;
  }

  lemma UnmappedMore(m0: Mem, r0: map<nat, Role>, m1: Mem, r1: map<nat, Role>, m2: Mem, r2: map<nat, Role>, sp: Spaces,
                     r: nat, vpn: nat, n: nat, y: Role)
    requires !y.User? && Unmapped(m0, r0, m1, r1, sp, r, vpn, n, y) && Unmapped(m1, r1, m2, r2, sp, r, vpn + n, 1, y)
    ensures Unmapped(m0, r0, m2, r2, sp, r, vpn, n + 1, y)
  {
    hide Leaf;
  }

  /** perm | PTE_V */
  function WithValid(perm: nat): (f: nat)
    requires perm < FLAGS
    ensures f < FLAGS && f % 2 == 1 && f / 2 == perm / 2
  {
    if perm % 2 == 1 then perm else perm + 1
  }

  datatype MapResult = MapOk | NoMemory | Remap

  class Kernel {
    var mem: Mem
    var head: nat
    ghost var free: seq<nat>
    ghost var role: map<nat, Role>
    ghost var sp: Spaces

    ghost predicate Valid()
      reads this
    {
      PlacesOk(mem, role, sp) && FreeListOk(mem, role, head, free)
    }

    /** The allocator's range before kinit(): every page is still to be freed. */
    constructor (start: Mem)
      requires 0 !in start
      ensures Valid() && sp == map[] && free == [] && role.Keys == start.Keys && mem == start
      ensures forall p | p in role :: role[p].Held?
    {
      NoSpaces(start, map p | p in start :: Held);
      mem := start;
      head := 0;
      free := [];
      role := map p | p in start :: Held;
      sp := map[];
    }

    /** freerange(): frees the pages lo..hi one after the other. */
    method Freerange(lo: nat, hi: nat)
      requires Valid() && forall p: nat | lo <= p < hi :: p in role && role[p].Held?
      modifies this`mem, this`head, this`free, this`role
      ensures Valid() && SameLeaves(old(mem), mem, sp) && role.Keys == old(role).Keys
      ensures forall p | p in role :: role[p] == if lo <= p < hi then Free else old(role)[p]
    {
      hide TablesOk, TreesOk, UsersOk, LeavesOk, FreeListOk, Leaf;
      var p := lo;
      while p < hi
        invariant lo <= p && (p <= hi || p == lo) && Valid() && SameLeaves(old(mem), mem, sp)
        invariant role.Keys == old(role).Keys
        invariant forall x | x in role :: role[x] == if lo <= x < p then Free else old(role)[x]
      {
        Kfree(p);
        p := p + 1;
      }
    }

    /** kalloc(): 0 when there is no page. */
    method Kalloc() returns (p: nat)
      requires Valid()
      modifies this`mem, this`head, this`free, this`role
      ensures Valid() && SameLeaves(old(mem), mem, sp)
      ensures p == 0 <==> old(free) == []
      ensures p == 0 ==> mem == old(mem) && role == old(role) && free == old(free)
      ensures p != 0 ==> p in old(role) && old(role)[p].Free? && role == old(role)[p := Held] && free == old(free)[1..]
      ensures p != 0 ==> p in mem && mem == old(mem)[p := mem[p]]
    {
      hide TablesOk, TreesOk, UsersOk, LeavesOk, Leaf, FreeListOk;
      FreeHead(mem, role, head, free);
      p := head;
      if p != 0 {
        FreeListPop(mem, role, head, free, Filled(JUNK_ALLOC));
        PlainPage(mem, role, sp, p, Filled(JUNK_ALLOC), Held);
        head := mem[p][0];
        mem := mem[p := Filled(JUNK_ALLOC)];
        free, role := free[1..], role[p := Held];
      }
    }

    /** kfree() of a page that its caller holds. */
    method Kfree(p: nat)
      requires Valid() && p in role && role[p].Held?
      modifies this`mem, this`head, this`free, this`role
      ensures Valid() && SameLeaves(old(mem), mem, sp)
      ensures role == old(role)[p := Free] && free == [p] + old(free)
      ensures p in mem && mem == old(mem)[p := mem[p]]
    {
      hide TablesOk, TreesOk, UsersOk, LeavesOk, Leaf, FreeListOk;
      var x: Page := Filled(JUNK_FREE)[0 := head];
      FreeListPush(mem, role, head, free, p, x);
      PlainPage(mem, role, sp, p, x, Free);
      mem := mem[p := Filled(JUNK_FREE)];
      mem := mem[p := mem[p][0 := head]];
      assert mem == old(mem)[p := x];
      head := p;
      free, role := [p] + free, role[p := Free];
    }

    /** Ghost steps: a held page becomes a trapframe, and back. */
    ghost method HeldToFrame(p: nat)
      requires Valid() && p in role && role[p].Held?
      modifies this`role
      ensures Valid() && role == old(role)[p := Frame]
    {
      hide TablesOk, TreesOk, UsersOk, LeavesOk, Leaf, FreeListOk;
      PlainPage(mem, role, sp, p, mem[p], Frame);
      FreeListFrame(mem, role, head, free, p, mem[p], Frame);
      assert mem[p := mem[p]] == mem;
      role := role[p := Frame];
    }

    ghost method FrameToHeld(p: nat)
      requires Valid() && p in role && role[p].Frame?
      modifies this`role
      ensures Valid() && role == old(role)[p := Held]
    {
      hide TablesOk, TreesOk, UsersOk, LeavesOk, Leaf, FreeListOk;
      PlainPage(mem, role, sp, p, mem[p], Held);
      FreeListFrame(mem, role, head, free, p, mem[p], Held);
      assert mem[p := mem[p]] == mem;
      role := role[p := Held];
    }

    /** memset(page, 0, PGSIZE) on a held page. */
    method Zero(p: nat)
      requires Valid() && p in role && role[p].Held?
      modifies this`mem
      ensures Valid() && SameLeaves(old(mem), mem, sp) && p in mem && mem == old(mem)[p := Filled(0)]
    {
      hide TablesOk, TreesOk, UsersOk, LeavesOk, Leaf, FreeListOk;
      PlainPage(mem, role, sp, p, Filled(0), Held);
      FreeListFrame(mem, role, head, free, p, Filled(0), Held);
      assert role[p := Held] == role;
      mem := mem[p := Filled(0)];
    }

    /** memmove(page, other page, PGSIZE) to a held page. */
    method Copy(p: nat, from: nat)
      requires Valid() && p in role && role[p].Held? && from in mem
      modifies this`mem
      ensures Valid() && SameLeaves(old(mem), mem, sp) && p in mem && mem == old(mem)[p := old(mem)[from]]
    {
      hide TablesOk, TreesOk, UsersOk, LeavesOk, Leaf, FreeListOk;
      PlainPage(mem, role, sp, p, mem[from], Held);
      FreeListFrame(mem, role, head, free, p, mem[from], Held);
      assert role[p := Held] == role;
      mem := mem[p := mem[from]];
    }

    /** Storing to a page of user memory or a trapframe. */
    method Store(p: nat, x: Page)
      requires Valid() && p in role && (role[p].User? || role[p].Frame?)
      modifies this`mem
      ensures Valid() && SameLeaves(old(mem), mem, sp) && mem == old(mem)[p := x]
    {
      hide TablesOk, TreesOk, UsersOk, LeavesOk, Leaf, FreeListOk;
      PlainPage(mem, role, sp, p, x, role[p]);
      FreeListFrame(mem, role, head, free, p, x, role[p]);
      assert role[p := role[p]] == role;
      mem := mem[p := x];
    }

    /** Storing one word in a held page. */
    method Poke(p: nat, i: nat, x: nat)
      requires Valid() && p in role && role[p].Held? && i < ENTRIES
      modifies this`mem
      ensures Valid() && SameLeaves(old(mem), mem, sp) && p in old(mem) && mem == old(mem)[p := old(mem)[p][i := x]]
    {
      hide TablesOk, TreesOk, UsersOk, LeavesOk, Leaf, FreeListOk;
      PlainPage(mem, role, sp, p, mem[p][i := x], Held);
      FreeListFrame(mem, role, head, free, p, mem[p][i := x], Held);
      assert role[p := Held] == role;
      mem := mem[p := mem[p][i := x]];
    }

    lemma EntryIs(r: nat, n: Node, i: nat)
      requires Valid() && r in sp && n in sp[r] && n.level > 0 && i < ENTRIES
      ensures sp[r][n] in mem && mem[sp[r][n]][i] == TableEntry(sp[r], n, i) && sp[r][n] in role
      ensures role[sp[r][n]].Table?
    {
      assert TreeOk(mem, sp[r]) && SpaceRoles(role, r, sp[r]);
    }

    lemma RootIs(r: nat)
      requires Valid() && r in sp
      ensures Node(2, 0) in sp[r] && sp[r][Node(2, 0)] == r && r in mem
    {
      assert TreeOk(mem, sp[r]) && SpaceRoles(role, r, sp[r]);
    }

    /** One missing table on the way down: kalloc(), memset(), and the PTE that points to it. */
    method GrowTable(pg: nat, i: nat, ghost r: nat, ghost n: Node) returns (t: nat)
      requires Valid() && r in sp && n in sp[r] && pg == sp[r][n] && n.level > 0 && i < ENTRIES && Child(n, i) !in sp[r]
      modifies this
      ensures Valid() && Extended(old(mem), old(role), old(sp), mem, role, sp, r)
      ensures t == 0 <==> old(free) == []
      ensures t == 0 ==> mem == old(mem) && sp == old(sp) && role == old(role) && free == old(free)
      ensures t != 0 ==> sp == WithTable(old(sp), r, Child(n, i), t) && free == old(free)[1..]
      ensures r in sp && Billed(|old(free)|, old(sp)[r].Keys, |free|, sp[r].Keys, {Child(n, i)}, 0)
    {
      hide TablesOk, TreesOk, UsersOk, LeavesOk, Leaf, FreeListOk, Extended;
      EntryIs(r, n, i);
      ghost var m0, r0 := mem, role;
      t := Kalloc();
      if t == 0 {
        ExtendedNone(mem, role, sp, r);
        return;
      }
      Zero(t);
      EntryIs(r, n, i);
      LinkTable(mem, role, sp, r, n, i, t);
      ghost var c := Child(n, i);
      FreeListFrame(mem, role, head, free, pg, mem[pg][i := MakePte(t, PTE_V)], role[pg]);
      assert role[pg := role[pg]] == role;
      mem := mem[pg := mem[pg][i := MakePte(t, PTE_V)]];
      FreeListFrame(mem, role, head, free, t, mem[t], Table(r, c.level, c.key));
      assert mem[t := mem[t]] == mem;
      TableAdded(m0, r0, sp, mem, r, c, t, pg);
      role := role[t := Table(r, c.level, c.key)];
      assert role == r0[t := Table(r, c.level, c.key)];
      sp := WithTable(sp, r, c, t);
      assert sp[r].Keys == old(sp)[r].Keys + {c};
    }

    /** walk(): the last-level table for page vpn. With `alloc`, missing tables are made, and only an empty
        free list stops it; without, nothing changes. */
    method Walk(r: nat, vpn: nat, alloc: bool) returns (t: nat, ok: bool)
      requires Valid() && r in sp && vpn < MAXVPN
      modifies this
      ensures Valid() && Extended(old(mem), old(role), old(sp), mem, role, sp, r)
      ensures ok ==> Node(0, vpn / 512) in sp[r] && t == sp[r][Node(0, vpn / 512)]
      ensures !alloc ==> mem == old(mem) && role == old(role) && sp == old(sp) && free == old(free)
      ensures !alloc ==> (ok <==> Node(0, vpn / 512) in sp[r])
      ensures alloc && !ok ==> free == []
      ensures Node(0, vpn / 512) in old(sp)[r] ==> ok
      ensures r in sp && Billed(|old(free)|, old(sp)[r].Keys, |free|, sp[r].Keys, Path(vpn), 0)
      ensures !ok ==> Node(0, vpn / 512) !in sp[r]
    {
      hide PlacesOk, FreeListOk, Extended, Billed, Path, TableEntry, PteToPage, IsValid, Leaf;
      KeysAgree();
      ExtendedNone(mem, role, sp, r);
      RootIs(r);
      KeyTop(vpn);
      BilledNone(|free|, sp[r].Keys, Path(vpn));
      t := r;
      var level := 2;
      while level > 0
        invariant 0 <= level <= 2 && Valid() && r in sp
        invariant Extended(old(mem), old(role), old(sp), mem, role, sp, r)
        invariant Node(level, Key(vpn, level)) in sp[r] && t == sp[r][Node(level, Key(vpn, level))]
        invariant !alloc ==> mem == old(mem) && role == old(role) && sp == old(sp) && free == old(free)
        invariant Node(0, vpn / 512) in old(sp)[r] ==> sp == old(sp) && mem == old(mem) && role == old(role)
        invariant Billed(|old(free)|, old(sp)[r].Keys, |free|, sp[r].Keys, Path(vpn), 0)
      {
        ghost var n := Node(level, Key(vpn, level));
        var i := Index(vpn, level);
        EntryIs(r, n, i);
        EntryMeans(sp[r], n, i);
        KeyStep(vpn, level);
        var pte := mem[t][i];
        if IsValid(pte) {
          t := PteToPage(pte);
        } else {
          PathTo(r, vpn, level - 1);
          if !alloc {
            return 0, false;
          }
          ghost var m1, r1, s1, f1 := mem, role, sp, free;
          t := GrowTable(t, i, r, n);
          ExtendedTwice(old(mem), old(role), old(sp), m1, r1, s1, mem, role, sp, r);
          OnPath(vpn, level - 1);
          BilledTwice(|old(free)|, old(sp)[r].Keys, |f1|, s1[r].Keys, Path(vpn), 0,
                      |free|, sp[r].Keys, {Child(n, i)}, 0);
          assert Path(vpn) + {Child(n, i)} == Path(vpn);
          if t == 0 {
            return 0, false;
          }
        }
        level := level - 1;
      }
      ok := true;
    }

    static lemma NoPaths(a: nat)
      ensures Paths(a, 0) == {}
    {}

    static lemma OnPath(vpn: nat, l: nat)
      requires l <= 2
      ensures Node(l, Key(vpn, l)) in Path(vpn)
    {}

    /** A last-level table is reached through tables of every level. */
    lemma PathTo(r: nat, vpn: nat, l: nat)
      requires Valid() && r in sp && l <= 2
      ensures Node(0, vpn / 512) in sp[r] ==> Node(l, Key(vpn, l)) in sp[r]
    {
      hide TreeOk, TablesOk, UsersOk, LeavesOk, FreeListOk;
      PathInTree(mem, sp[r], vpn, l);
    }

    lemma LeafAt(r: nat, vpn: nat)
      requires Valid() && r in sp && Node(0, vpn / 512) in sp[r]
      ensures var t := sp[r][Node(0, vpn / 512)];
        && t in mem && t in role && role[t].Table? && Leaf(mem, sp[r], vpn) == mem[t][vpn % 512]
        && LeafPte(mem[t][vpn % 512])
    {
      hide UsersOk, FreeListOk;
      assert TreeOk(mem, sp[r]) && SpaceRoles(role, r, sp[r]);
      assert LeafPte(Leaf(mem, sp[r], vpn));
    }

    /** One turn of the loop of mappages(). */
    method MapPage(r: nat, vpn: nat, ppn: nat, perm: nat) returns (res: MapResult)
      requires Valid() && r in sp && vpn < MAXVPN && 1 < perm < FLAGS && AtHand(role, vpn, 1, ppn)
      modifies this
      ensures Valid()
      ensures res.Remap? <==> Leaf(old(mem), old(sp)[r], vpn) != 0
      ensures res.MapOk? ==> Mapped(old(mem), old(role), old(sp), mem, role, sp, r, vpn, 1, ppn, WithValid(perm))
      ensures !res.MapOk? ==> Extended(old(mem), old(role), old(sp), mem, role, sp, r)
      ensures r in sp && Billed(|old(free)|, old(sp)[r].Keys, |free|, sp[r].Keys, Path(vpn), 0)
      ensures res.MapOk? ==> Path(vpn) <= sp[r].Keys
      ensures res.NoMemory? ==> |old(free)| < Lack(Path(vpn), old(sp)[r].Keys)
    {
      hide FreeListOk, TablesOk, TreesOk, UsersOk, LeavesOk, Leaf, Mapped, Billed, Path, Lack;
      var t, ok := Walk(r, vpn, true);
      if !ok {
        NoTable(old(mem), old(sp)[r], vpn);
        OnPath(vpn, 0);
        Broke(|old(free)|, old(sp)[r].Keys, sp[r].Keys, Path(vpn), 0, Node(0, vpn / 512));
        return NoMemory;
      }
      LeafAt(r, vpn);
      WholePath(r, vpn);
      if IsValid(mem[t][vpn % 512]) {
        return Remap;
      }
      var x := MakePte(ppn, WithValid(perm));
      PteRoundTrip(ppn, WithValid(perm));
      MapLeaf(mem, role, sp, r, vpn, x);
      FreeListFrame(mem, role, head, free, t, mem[t][vpn % 512 := x], role[t]);
      assert role[t := role[t]] == role;
      ghost var m1, r1 := mem, role;
      mem := mem[t := mem[t][vpn % 512 := x]];
      if vpn < TRAPFRAME {
        FreeListFrame(mem, role, head, free, ppn, mem[ppn], User(r, vpn));
        assert mem[ppn := mem[ppn]] == mem;
        role := role[ppn := User(r, vpn)];
      }
      MappedFirst(old(mem), old(role), old(sp), m1, r1, sp, mem, role, r, vpn, ppn, WithValid(perm));
      return MapOk;
    }

    lemma WholePath(r: nat, vpn: nat)
      requires Valid() && r in sp && Node(0, vpn / 512) in sp[r]
      ensures Path(vpn) <= sp[r].Keys
    {
      hide PlacesOk, FreeListOk;
      PathTo(r, vpn, 1);
      PathTo(r, vpn, 2);
    }

    lemma NoTable(m: Mem, s: Space, vpn: nat)
      ensures Node(0, vpn / 512) !in s ==> Leaf(m, s, vpn) == 0
    {}

    /** mappages(): maps the pages that [va, va + size) touches to consecutive physical pages. `done` of them
        are mapped: all, unless a table could not be made or a page was mapped already (a panic). */
    method Mappages(r: nat, va: nat, size: nat, ppn: nat, perm: nat) returns (res: MapResult, done: nat)
      requires Valid() && r in sp && size > 0 && (va + size - 1) / PGSIZE < MAXVPN && 1 < perm < FLAGS
      requires AtHand(role, va / PGSIZE, (va + size - 1) / PGSIZE - va / PGSIZE + 1, ppn)
      modifies this
      ensures Valid()
      ensures Mapped(old(mem), old(role), old(sp), mem, role, sp, r, va / PGSIZE, done, ppn, WithValid(perm))
      ensures done <= (va + size - 1) / PGSIZE - va / PGSIZE + 1
      ensures res.MapOk? <==> done == (va + size - 1) / PGSIZE - va / PGSIZE + 1
      ensures res.Remap? ==> Leaf(old(mem), old(sp)[r], va / PGSIZE + done) != 0
      ensures res.NoMemory? ==> |old(free)| < Lack(Paths(va / PGSIZE, done + 1), old(sp)[r].Keys)
      ensures res.MapOk? ==>
        && r in sp && Paths(va / PGSIZE, done) <= sp[r].Keys
        && Billed(|old(free)|, old(sp)[r].Keys, |free|, sp[r].Keys, Paths(va / PGSIZE, done), 0)
      ensures res.MapOk? ==>
        forall v | va / PGSIZE <= v <= (va + size - 1) / PGSIZE :: Leaf(old(mem), old(sp)[r], v) == 0
    {
      hide PlacesOk, FreeListOk, Leaf, Mapped, Billed, Paths, AtHand, Lack;
      res, done := MapRange(r, va / PGSIZE, (va + size - 1) / PGSIZE, ppn, perm);
    }

    /** The loop of mappages(). */
    method MapRange(r: nat, first: nat, last: nat, ppn: nat, perm: nat) returns (res: MapResult, done: nat)
      requires Valid() && r in sp && first <= last < MAXVPN && 1 < perm < FLAGS
      requires AtHand(role, first, last - first + 1, ppn)
      modifies this
      ensures Valid() && Mapped(old(mem), old(role), old(sp), mem, role, sp, r, first, done, ppn, WithValid(perm))
      ensures done <= last - first + 1 && (res.MapOk? <==> done == last - first + 1)
      ensures res.Remap? ==> Leaf(old(mem), old(sp)[r], first + done) != 0
      ensures res.NoMemory? ==> |old(free)| < Lack(Paths(first, done + 1), old(sp)[r].Keys)
      ensures res.MapOk? ==>
        && r in sp && Paths(first, done) <= sp[r].Keys
        && Billed(|old(free)|, old(sp)[r].Keys, |free|, sp[r].Keys, Paths(first, done), 0)
      ensures res.MapOk? ==> forall v | first <= v <= last :: Leaf(old(mem), old(sp)[r], v) == 0
    {
      hide PlacesOk, FreeListOk, Leaf, Extended, Mapped, Billed, Path, Paths, AtHand, Lack;
      var flags := WithValid(perm);
      KeysAgree();
      MappedNone(mem, role, sp, r, first, ppn, flags);
      BilledNone(|free|, sp[r].Keys, Paths(first, 0));
      NoPaths(first);
      ghost var m0, r0, s0, f0, k0 := mem, role, sp, |free|, sp[r].Keys;
      var a := first;
      done := 0;
      while true
        invariant first <= a <= last && done == a - first && Valid() && r in sp
        invariant Mapped(m0, r0, s0, mem, role, sp, r, first, done, ppn, flags)
        invariant AtHand(role, a, last - a + 1, ppn + done)
        invariant Billed(f0, k0, |free|, sp[r].Keys, Paths(first, done), 0)
        invariant Paths(first, done) <= sp[r].Keys
        invariant forall v | first <= v < a :: Leaf(m0, s0[r], v) == 0
        decreases last - a
      {
        ghost var m1, r1, s1, f1, k1 := mem, role, sp, |free|, sp[r].Keys;
        MappedLeaf(m0, r0, s0, mem, role, sp, r, first, done, ppn, flags, a);
        FirstAtHand(role, a, last - a + 1, ppn + done);
        res := MapPage(r, a, ppn + (a - first), perm);
        ghost var f2, k2 := |free|, sp[r].Keys;
        BillNext(f0, k0, f1, k1, f2, k2, first, done, 0, 0);
        if !res.MapOk? {
          MappedTables(m0, r0, s0, m1, r1, s1, mem, role, sp, r, first, done, ppn, flags);
          return;
        }
        MappedMore(m0, r0, s0, m1, r1, s1, mem, role, sp, r, first, done, ppn, flags);
        KeysKept(m1, r1, s1, mem, role, sp, r, a, 1, ppn + done, flags);
        if a == last {
          done := done + 1;
          break;
        }
        StillAtHand(m1, r1, s1, mem, role, sp, r, a, ppn + done, flags, last - a);
        a := a + 1;
        done := done + 1;
      }
    }

    static lemma FirstAtHand(role: map<nat, Role>, vpn: nat, n: nat, ppn: nat)
      requires AtHand(role, vpn, n, ppn) && n >= 1
      ensures AtHand(role, vpn, 1, ppn)
    {}

    lemma MappedNone(m: Mem, ro: map<nat, Role>, s: Spaces, r: nat, vpn: nat, ppn: nat, flags: nat)
      requires flags < FLAGS && m.Keys == ro.Keys
      ensures Mapped(m, ro, s, m, ro, s, r, vpn, 0, ppn, flags)
    {}

    lemma KeysAgree()
      requires Valid()
      ensures mem.Keys == role.Keys
    {
      hide TablesOk, TreesOk, UsersOk, LeavesOk, FreeListOk;
    }

    lemma KeysKept(m0: Mem, r0: map<nat, Role>, s0: Spaces, m1: Mem, r1: map<nat, Role>, s1: Spaces,
                   r: nat, vpn: nat, n: nat, ppn: nat, flags: nat)
      requires flags < FLAGS && Mapped(m0, r0, s0, m1, r1, s1, r, vpn, n, ppn, flags)
      ensures s1.Keys == s0.Keys && r1.Keys == r0.Keys
    {}

    lemma MappedLeaf(m0: Mem, r0: map<nat, Role>, s0: Spaces, m1: Mem, r1: map<nat, Role>, s1: Spaces,
                     r: nat, vpn: nat, n: nat, ppn: nat, flags: nat, v: nat)
      requires flags < FLAGS && Mapped(m0, r0, s0, m1, r1, s1, r, vpn, n, ppn, flags) && r in s0 && v >= vpn + n
      ensures r in s1 && Leaf(m1, s1[r], v) == Leaf(m0, s0[r], v)
    {}

    /** Mapping one page leaves the pages after it at hand. */
    lemma StillAtHand(m0: Mem, r0: map<nat, Role>, s0: Spaces, m1: Mem, r1: map<nat, Role>, s1: Spaces,
                      r: nat, vpn: nat, ppn: nat, flags: nat, n: nat)
      requires flags < FLAGS && Mapped(m0, r0, s0, m1, r1, s1, r, vpn, 1, ppn, flags)
      requires AtHand(r0, vpn, n + 1, ppn)
      ensures AtHand(r1, vpn + 1, n, ppn + 1)
    {
      hide Leaf;
    }

    /** One turn of the loop of uvmunmap(). */
    method UnmapPage(r: nat, vpn: nat, dofree: bool) returns (ok: bool)
      requires Valid() && r in sp && vpn < MAXVPN && (dofree ==> vpn < TRAPFRAME)
      modifies this`mem, this`head, this`free, this`role
      ensures Valid()
      ensures ok <==> Leaf(old(mem), sp[r], vpn) != 0
      ensures ok ==> Unmapped(old(mem), old(role), mem, role, sp, r, vpn, 1, if dofree then Free else Held)
      ensures !ok ==> mem == old(mem) && role == old(role) && free == old(free)
    {
      hide FreeListOk, TablesOk, TreesOk, UsersOk, LeavesOk, Leaf, Unmapped;
      NoTable(mem, sp[r], vpn);
      var t, found := LookUp(r, vpn);
      if !found {
        return false;
      }
      LeafAt(r, vpn);
      var pte := mem[t][vpn % 512];
      if !IsValid(pte) || PteFlags(pte) == PTE_V {
        return false;
      }
      ghost var m0, r0 := mem, role;
      ghost var p := PteToPage(pte);
      UnmapLeaf(mem, role, sp, r, vpn);
      if vpn < TRAPFRAME {
        LeafPage(mem, role, sp, r, vpn);
      }
      FreeListFrame(mem, role, head, free, t, mem[t][vpn % 512 := 0], role[t]);
      assert role[t := role[t]] == role;
      mem := mem[t := mem[t][vpn % 512 := 0]];
      if vpn < TRAPFRAME {
        FreeListFrame(mem, role, head, free, p, mem[p], Held);
        assert mem[p := mem[p]] == mem;
        role := role[p := Held];
      }
      ghost var m1 := mem;
      assert SameLeaves(m1, m1, sp);
      if dofree {
        Kfree(PteToPage(pte));
        assert r0[p := Held][p := Free] == r0[p := Free];
      }
      UnmappedFirst(m0, r0, m1, role, mem, sp, r, vpn, if dofree then Free else Held);
      ok := true;
    }

    static lemma EntryMeans(s: Space, n: Node, i: nat)
      requires n.level > 0
      ensures IsValid(TableEntry(s, n, i)) <==> Child(n, i) in s
      ensures Child(n, i) in s ==> PteToPage(TableEntry(s, n, i)) == s[Child(n, i)]
    {
      if Child(n, i) in s { PteRoundTrip(s[Child(n, i)], PTE_V); }
    }

    /** walk() without alloc, as a search. */
    method LookUp(r: nat, vpn: nat) returns (t: nat, found: bool)
      requires Valid() && r in sp && vpn < MAXVPN
      ensures found <==> Node(0, vpn / 512) in sp[r]
      ensures found ==> t == sp[r][Node(0, vpn / 512)]
    {
      hide PlacesOk, FreeListOk, Leaf, TableEntry, PteToPage, IsValid;
      RootIs(r);
      KeyTop(vpn);
      t := r;
      var level := 2;
      while level > 0
        invariant 0 <= level <= 2
        invariant Node(level, Key(vpn, level)) in sp[r] && t == sp[r][Node(level, Key(vpn, level))]
      {
        ghost var n := Node(level, Key(vpn, level));
        var i := Index(vpn, level);
        EntryIs(r, n, i);
        EntryMeans(sp[r], n, i);
        KeyStep(vpn, level);
        PathTo(r, vpn, level - 1);
        var pte := mem[t][i];
        if !IsValid(pte) {
          return 0, false;
        }
        t := PteToPage(pte);
        level := level - 1;
      }
      found := true;
    }

    /** uvmunmap(): removes the mappings of n pages, and with `dofree` frees the pages; false is a panic, which
        happens exactly if one of the pages is not mapped. */
    method Uvmunmap(r: nat, vpn: nat, n: nat, dofree: bool) returns (ok: bool)
      requires Valid() && r in sp && vpn + n <= MAXVPN && (dofree ==> vpn + n <= TRAPFRAME)
      modifies this`mem, this`head, this`free, this`role
      ensures Valid()
      ensures ok <==> forall v | vpn <= v < vpn + n :: Leaf(old(mem), sp[r], v) != 0
      ensures ok ==> Unmapped(old(mem), old(role), mem, role, sp, r, vpn, n, if dofree then Free else Held)
    {
      hide TablesOk, TreesOk, UsersOk, LeavesOk, FreeListOk, Leaf, Unmapped;
      ghost var y := if dofree then Free else Held;
      UnmappedNone(mem, role, sp, r, vpn, y);
      var a := vpn;
      while a < vpn + n
        invariant vpn <= a <= vpn + n && Valid()
        invariant Unmapped(old(mem), old(role), mem, role, sp, r, vpn, a - vpn, y)
        invariant forall v | vpn <= v < a :: Leaf(old(mem), sp[r], v) != 0
      {
        ghost var m1, r1 := mem, role;
        UnmappedLeaf(old(mem), old(role), mem, role, sp, r, vpn, a - vpn, y, a);
        ok := UnmapPage(r, a, dofree);
        if !ok {
          return;
        }
        UnmappedMore(old(mem), old(role), m1, r1, mem, role, sp, r, vpn, a - vpn, y);
        a := a + 1;
      }
      ok := true;
    }

    lemma UnmappedNone(m: Mem, ro: map<nat, Role>, s: Spaces, r: nat, vpn: nat, y: Role)
      requires m.Keys == ro.Keys
      ensures Unmapped(m, ro, m, ro, s, r, vpn, 0, y)
    {}

    lemma UnmappedLeaf(m0: Mem, r0: map<nat, Role>, m1: Mem, r1: map<nat, Role>, s: Spaces, r: nat, vpn: nat, n: nat,
                       y: Role, v: nat)
      requires Unmapped(m0, r0, m1, r1, s, r, vpn, n, y) && r in s && v >= vpn + n
      ensures Leaf(m1, s[r], v) == Leaf(m0, s[r], v)
    {}
  }
}
