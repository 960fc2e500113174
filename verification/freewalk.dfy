/** freewalk() and uvmfree() of kernel/vm.c: taking an address space apart. */
module FreeWalk {
  import opened Sv39
  import opened PageTables
  import opened Vm
  import opened Uvm

  /** The key of the ancestor d levels up. */
  function Rise(key: nat, d: nat): nat
    decreases d
  {
    if d == 0 then key else Rise(key / 512, d - 1)
  }

  /** Node m is in the subtree of node n. */
  predicate Under(m: Node, n: Node) {
    m.level <= n.level && Rise(m.key, n.level - m.level) == n.key
  }

  /** Node m is in the subtree of one of the first i children of n. */
  predicate UnderFirst(m: Node, n: Node, i: nat) {
    m.level < n.level && n.key * 512 <= Rise(m.key, n.level - 1 - m.level) < n.key * 512 + i
  }

  lemma {:induction false} RiseMore(key: nat, d: nat)
    ensures Rise(key, d + 1) == Rise(key, d) / 512
    decreases d
  {
    if d > 0 { RiseMore(key / 512, d - 1); }
  }

  lemma UnderSplit(m: Node, n: Node)
    ensures Under(m, n) <==> m == n || UnderFirst(m, n, ENTRIES)
  {
    if m.level < n.level {
      RiseMore(m.key, n.level - 1 - m.level);
    }
  }

  lemma UnderNext(m: Node, n: Node, i: nat)
    requires n.level > 0 && i < ENTRIES
    ensures UnderFirst(m, n, i + 1) <==> UnderFirst(m, n, i) || Under(m, Child(n, i))
    ensures !(UnderFirst(m, n, i) && Under(m, Child(n, i)))
  {}

  /** The pages of the tables in the subtree of n. */
  ghost function SubPages(s: Space, n: Node): set<nat> {
    set m | m in s && Under(m, n) :: s[m]
  }

  ghost function FirstPages(s: Space, n: Node, i: nat): set<nat> {
    set m | m in s && UnderFirst(m, n, i) :: s[m]
  }

  /** The tables in the subtree of n are held, linked as `s` says, and map nothing. */
  ghost predicate Detached(mem: Mem, role: map<nat, Role>, s: Space, n: Node) {
    && n in s && n.level <= 2 && Injective(s)
    && (forall m | m in s && m.level < 2 :: Node(m.level + 1, m.key / 512) in s)
    && (forall m | m in s && Under(m, n) :: s[m] in role && role[s[m]].Held? && s[m] in mem)
    && (forall m, i | m in s && Under(m, n) && 0 <= i < ENTRIES ::
          mem[s[m]][i] == if m.level > 0 then TableEntry(s, m, i) else 0)
  }

  /** The pages in `gone` have been freed; the other pages are as they were. */
  ghost predicate Gone(mem: Mem, role: map<nat, Role>, after: Mem, role': map<nat, Role>, gone: set<nat>) {
    && role'.Keys == role.Keys == mem.Keys == after.Keys
    && forall p | p in role ::
         if p in gone then role'[p].Free? else role'[p] == role[p] && (!role[p].Free? ==> after[p] == mem[p])
  }

  lemma DetachedChild(mem: Mem, role: map<nat, Role>, s: Space, n: Node, i: nat)
    requires Detached(mem, role, s, n) && n.level > 0 && i < ENTRIES && Child(n, i) in s
    ensures Detached(mem, role, s, Child(n, i))
  {
    forall m | m in s && Under(m, Child(n, i)) ensures Under(m, n) {
      UnderSplit(m, n);
      UnderNext(m, n, i);
    }
  }

  lemma {:induction false} Climb(s: Space, m: Node, n: Node)
    requires m in s && Under(m, n) && n.level <= 2
    requires forall x | x in s && x.level < 2 :: Node(x.level + 1, x.key / 512) in s
    ensures n in s
    decreases n.level - m.level
  {
    if m.level < n.level {
      Climb(s, Node(m.level + 1, m.key / 512), n);
    }
  }

  lemma FirstNext(s: Space, n: Node, i: nat)
    requires n.level > 0 && i < ENTRIES
    ensures FirstPages(s, n, i + 1) == FirstPages(s, n, i) + SubPages(s, Child(n, i))
  {
    forall m: Node ensures UnderFirst(m, n, i + 1) <==> UnderFirst(m, n, i) || Under(m, Child(n, i)) {
      UnderNext(m, n, i);
    }
    hide Under, UnderFirst;
  }

  lemma SubAll(s: Space, n: Node)
    requires n in s
    ensures SubPages(s, n) == FirstPages(s, n, ENTRIES) + {s[n]}
  {
    forall m: Node ensures Under(m, n) <==> m == n || UnderFirst(m, n, ENTRIES) {
      UnderSplit(m, n);
    }
    hide Under, UnderFirst;
  }

  lemma NoSubtree(s: Space, n: Node, i: nat)
    requires n.level > 0 && n.level <= 2 && i < ENTRIES && Child(n, i) !in s
    requires forall x | x in s && x.level < 2 :: Node(x.level + 1, x.key / 512) in s
    ensures SubPages(s, Child(n, i)) == {}
  {
    forall m | m in s ensures !Under(m, Child(n, i)) {
      if Under(m, Child(n, i)) { Climb(s, m, Child(n, i)); }
    }
  }

  /** Freewalk() at node n has emptied its first i children. */
  ghost predicate Halfway(mem: Mem, role: map<nat, Role>, after: Mem, role': map<nat, Role>, s: Space, n: Node, i: nat)
    requires n in s
  {
    && role'.Keys == role.Keys == mem.Keys == after.Keys
    && s[n] in after && s[n] in mem && s[n] in role && role'[s[n]] == role[s[n]]
    && (forall p | p in role && p != s[n] ::
          if p in FirstPages(s, n, i) then role'[p].Free?
          else role'[p] == role[p] && (!role[p].Free? ==> after[p] == mem[p]))
    && (forall j | 0 <= j < ENTRIES :: after[s[n]][j] == if j < i then 0 else mem[s[n]][j])
  }

  lemma HalfwayChild(mem: Mem, role: map<nat, Role>, after: Mem, role': map<nat, Role>, s: Space, n: Node, i: nat)
    requires Detached(mem, role, s, n) && Halfway(mem, role, after, role', s, n, i)
    requires n.level > 0 && i < ENTRIES && Child(n, i) in s
    ensures Detached(after, role', s, Child(n, i)) && s[Child(n, i)] != s[n]
    ensures s[n] !in SubPages(s, Child(n, i)) && FirstPages(s, n, i) !! SubPages(s, Child(n, i))
  {
    DetachedChild(mem, role, s, n, i);
    var c := Child(n, i);
    forall m | m in s && Under(m, c)
      ensures s[m] != s[n] && s[m] !in FirstPages(s, n, i) && role'[s[m]] == role[s[m]] && after[s[m]] == mem[s[m]]
    {
      forall x | x in s && UnderFirst(x, n, i) ensures s[x] != s[m] {
        UnderNext(x, n, i);
      }
    }
  }

  lemma HalfwayStart(mem: Mem, role: map<nat, Role>, s: Space, n: Node)
    requires n in s && s[n] in role && role.Keys == mem.Keys
    ensures Halfway(mem, role, mem, role, s, n, 0)
  {
    assert FirstPages(s, n, 0) == {};
  }

  /** Entry i led nowhere, or its subtree has been freed and the entry cleared. */
  lemma HalfwayNext(m0: Mem, r0: map<nat, Role>, m1: Mem, r1: map<nat, Role>, m2: Mem, r2: map<nat, Role>, m3: Mem,
                    s: Space, n: Node, i: nat)
    requires n in s && n.level > 0 && i < ENTRIES && Halfway(m0, r0, m1, r1, s, n, i) && r0[s[n]].Held?
    requires Gone(m1, r1, m2, r2, SubPages(s, Child(n, i)))
    requires s[n] !in SubPages(s, Child(n, i)) && FirstPages(s, n, i) !! SubPages(s, Child(n, i))
    requires s[n] in m2 && m3 == m2[s[n] := m2[s[n]][i := 0]]
    ensures Halfway(m0, r0, m3, r2, s, n, i + 1)
  {
    FirstNext(s, n, i);
    hide FirstPages, SubPages;
  }

  lemma HalfwaySkip(m0: Mem, r0: map<nat, Role>, m1: Mem, r1: map<nat, Role>, s: Space, n: Node, i: nat)
    requires n in s && i < ENTRIES && Halfway(m0, r0, m1, r1, s, n, i) && m0[s[n]][i] == 0
    requires n.level > 0 ==> SubPages(s, Child(n, i)) == {}
    ensures Halfway(m0, r0, m1, r1, s, n, i + 1)
  {
    if n.level > 0 {
      FirstNext(s, n, i);
    }
  }

  lemma HalfwayEnd(m0: Mem, r0: map<nat, Role>, m1: Mem, r1: map<nat, Role>, m2: Mem, s: Space, n: Node)
    requires n in s && Halfway(m0, r0, m1, r1, s, n, ENTRIES)
    requires s[n] in m2 && m2 == m1[s[n] := m2[s[n]]]
    ensures Gone(m0, r0, m2, r1[s[n] := Free], SubPages(s, n))
  {
    SubAll(s, n);
    hide FirstPages, SubPages;
  }

  lemma DetachedEntry(mem: Mem, role: map<nat, Role>, s: Space, n: Node, i: nat)
    requires Detached(mem, role, s, n) && i < ENTRIES
    ensures n in s && s[n] in role && role[s[n]].Held? && s[n] in mem
    ensures mem[s[n]][i] == if n.level > 0 then TableEntry(s, n, i) else 0
    ensures n.level > 0 && Child(n, i) !in s ==> SubPages(s, Child(n, i)) == {}
    ensures IsValid(mem[s[n]][i]) <==> n.level > 0 && Child(n, i) in s
    ensures IsValid(mem[s[n]][i]) ==>
      PteToPage(mem[s[n]][i]) == s[Child(n, i)] && (PteFlags(mem[s[n]][i]) / PTE_R) % 8 == 0
    ensures !IsValid(mem[s[n]][i]) ==> mem[s[n]][i] == 0
  {
    assert Under(n, n);
    if n.level > 0 && Child(n, i) in s { PteRoundTrip(s[Child(n, i)], PTE_V); }
    if n.level > 0 && Child(n, i) !in s { NoSubtree(s, n, i); }
  }

  /** freewalk(): frees the tables of a subtree that maps nothing. It panics at a leaf; there is none. */
  method Freewalk(k: Kernel, t: nat, ghost s: Space, ghost n: Node)
    requires k.Valid() && Detached(k.mem, k.role, s, n) && t == s[n]
    modifies k`mem, k`head, k`free, k`role
    ensures k.Valid() && Gone(old(k.mem), old(k.role), k.mem, k.role, SubPages(s, n))
    decreases n.level
  {
    hide PlacesOk, FreeListOk, Detached, Halfway, SubPages, FirstPages, Gone, IsValid, PteFlags, PteToPage, TableEntry;
    ghost var m0, r0 := k.mem, k.role;
    KeysSame(k);
    DetachedEntry(m0, r0, s, n, 0);
    HalfwayStart(m0, r0, s, n);
    var i := 0;
    while i < ENTRIES
      invariant 0 <= i <= ENTRIES && k.Valid() && n in s && Halfway(m0, r0, k.mem, k.role, s, n, i)
    {
      DetachedEntry(m0, r0, s, n, i);
      HalfwayHere(m0, r0, k.mem, k.role, s, n, i);
      var pte := k.mem[t][i];
      if IsValid(pte) && (PteFlags(pte) / PTE_R) % 8 == 0 {
        HalfwayChild(m0, r0, k.mem, k.role, s, n, i);
        ghost var m1, r1 := k.mem, k.role;
        Freewalk(k, PteToPage(pte), s, Child(n, i));
        GoneKeeps(m1, r1, k.mem, k.role, SubPages(s, Child(n, i)), t);
        ghost var m2 := k.mem;
        k.Poke(t, i, 0);
        HalfwayNext(m0, r0, m1, r1, m2, k.role, k.mem, s, n, i);
      } else if IsValid(pte) {
        assert false;                               // panic("freewalk: leaf")
      } else {
        HalfwaySkip(m0, r0, k.mem, k.role, s, n, i);
      }
      i := i + 1;
    }
    HalfwayHere(m0, r0, k.mem, k.role, s, n, i);
    ghost var m1, r1 := k.mem, k.role;
    k.Kfree(t);
    HalfwayEnd(m0, r0, m1, r1, k.mem, s, n);
  }

  lemma HalfwayHere(mem: Mem, role: map<nat, Role>, after: Mem, role': map<nat, Role>, s: Space, n: Node, i: nat)
    requires n in s && Halfway(mem, role, after, role', s, n, i)
    ensures s[n] in after && s[n] in role' && s[n] in role && role'[s[n]] == role[s[n]]
    ensures i < ENTRIES ==> after[s[n]][i] == mem[s[n]][i]
  {}

  lemma GoneKeeps(mem: Mem, role: map<nat, Role>, after: Mem, role': map<nat, Role>, gone: set<nat>, t: nat)
    requires Gone(mem, role, after, role', gone) && t in role && role[t].Held? && t !in gone
    ensures t in role' && role'[t].Held? && t in after && t in mem && after[t] == mem[t]
  {}

  /** The roles once address space r is no longer an address space: its tables are loose pages. */
  function Loosened(role: map<nat, Role>, r: nat): map<nat, Role> {
    map p | p in role :: if role[p].Table? && role[p].root == r then Held else role[p]
  }

  function Without(sp: Spaces, r: nat): Spaces {
    map q | q in sp && q != r :: sp[q]
  }

  lemma DetachTables(role: map<nat, Role>, sp: Spaces, r: nat)
    requires TablesOk(role, sp) && r in sp
    ensures TablesOk(Loosened(role, r), Without(sp, r))
  {
    var role', sp' := Loosened(role, r), Without(sp, r);
    forall q | q in sp' ensures SpaceRoles(role', q, sp'[q]) {
      assert SpaceRoles(role, q, sp[q]);
    }
  }

  lemma DetachUsers(mem: Mem, role: map<nat, Role>, sp: Spaces, r: nat)
    requires UsersOk(mem, role, sp) && r in sp && forall v: nat :: Leaf(mem, sp[r], v) == 0
    ensures UsersOk(mem, Loosened(role, r), Without(sp, r))
  {
    hide Leaf;
  }

  lemma AllUnder(mem: Mem, s: Space, m: Node)
    requires TreeOk(mem, s) && m in s
    ensures Under(m, Node(2, 0))
  {
    if m.level < 2 {
      assert Node(m.level + 1, m.key / 512) in s;
      if m.level == 0 {
        assert Node(2, m.key / 512 / 512) in s;
      }
    }
  }

  lemma LooseTree(mem: Mem, role: map<nat, Role>, sp: Spaces, r: nat)
    requires TablesOk(role, sp) && r in sp && TreeOk(mem, sp[r]) && forall v: nat :: Leaf(mem, sp[r], v) == 0
    ensures Detached(mem, Loosened(role, r), sp[r], Node(2, 0)) && sp[r][Node(2, 0)] == r
  {
    hide TablesOk, TreeOk, Leaf, TableEntry, Under, Loosened;
    var s := sp[r];
    SpaceInjective(role, sp, r);
    TreeShape(mem, s);
    forall m | m in s
      ensures s[m] in Loosened(role, r) && Loosened(role, r)[s[m]].Held?
    {
      LooseTable(role, sp, r, m);
    }
    forall m, i | m in s && Under(m, Node(2, 0)) && 0 <= i < ENTRIES
      ensures mem[s[m]][i] == if m.level > 0 then TableEntry(s, m, i) else 0
    {
      LooseEntry(mem, s, m, i);
    }
    LooseTable(role, sp, r, Node(2, 0));
  }

  lemma TreeShape(mem: Mem, s: Space)
    requires TreeOk(mem, s)
    ensures Node(2, 0) in s && forall m | m in s :: s[m] in mem
    ensures forall m | m in s && m.level < 2 :: Node(m.level + 1, m.key / 512) in s
  {
    hide TableEntry;
  }

  lemma LooseTable(role: map<nat, Role>, sp: Spaces, r: nat, m: Node)
    requires TablesOk(role, sp) && r in sp && m in sp[r]
    ensures sp[r][m] in Loosened(role, r) && Loosened(role, r)[sp[r][m]].Held?
    ensures Node(2, 0) in sp[r] && sp[r][Node(2, 0)] == r
  {
    assert SpaceRoles(role, r, sp[r]);
  }

  lemma LooseEntry(mem: Mem, s: Space, m: Node, i: nat)
    requires TreeOk(mem, s) && m in s && i < ENTRIES && s[m] in mem && forall v: nat :: Leaf(mem, s, v) == 0
    ensures mem[s[m]][i] == if m.level > 0 then TableEntry(s, m, i) else 0
  {
    hide TableEntry;
    if m.level == 0 {
      Below(m.key, i);
      assert Leaf(mem, s, m.key * 512 + i) == 0;
    }
  }

  lemma Below(key: nat, i: nat)
    requires i < ENTRIES
    ensures (key * 512 + i) / 512 == key && (key * 512 + i) % 512 == i
  {}

  lemma DetachPlaces(mem: Mem, role: map<nat, Role>, sp: Spaces, r: nat)
    requires PlacesOk(mem, role, sp) && r in sp && forall v: nat :: Leaf(mem, sp[r], v) == 0
    ensures PlacesOk(mem, Loosened(role, r), Without(sp, r))
    ensures Detached(mem, Loosened(role, r), sp[r], Node(2, 0)) && sp[r][Node(2, 0)] == r
  {
    hide TablesOk, UsersOk, TreeOk, Leaf, Detached;
    DetachTables(role, sp, r);
    DetachUsers(mem, role, sp, r);
    LooseTree(mem, role, sp, r);
  }

  lemma DetachList(mem: Mem, role: map<nat, Role>, head: nat, free: seq<nat>, r: nat)
    requires FreeListOk(mem, role, head, free)
    ensures FreeListOk(mem, Loosened(role, r), head, free)
  {}

  /** Address space r is gone: its tables and its user pages are free, and nothing else has changed. */
  ghost predicate Released(mem: Mem, role: map<nat, Role>, sp: Spaces, after: Mem, role': map<nat, Role>, sp': Spaces,
                           r: nat)
  {
    && sp' == Without(sp, r) && SameMaps(mem, sp, after, sp') && ReleasedPages(mem, role, after, role', r)
  }

  ghost predicate SameMaps(mem: Mem, sp: Spaces, after: Mem, sp': Spaces) {
    forall q, v: nat | q in sp' && q in sp :: Leaf(after, sp'[q], v) == Leaf(mem, sp[q], v)
  }

  ghost predicate ReleasedPages(mem: Mem, role: map<nat, Role>, after: Mem, role': map<nat, Role>, r: nat) {
    && role'.Keys == role.Keys
    && forall p | p in role ::
         if (role[p].Table? || role[p].User?) && role[p].root == r then role'[p].Free?
         else role'[p] == role[p] && (Plain(role[p]) ==> p in mem && p in after && after[p] == mem[p])
  }

  lemma GoneLeaves(mem: Mem, role: map<nat, Role>, sp: Spaces, after: Mem, role': map<nat, Role>, gone: set<nat>)
    requires TablesOk(role, sp) && TreesOk(mem, sp) && Gone(mem, role, after, role', gone)
    requires forall p | p in gone :: p in role && role[p].Held?
    ensures SameLeaves(mem, after, sp)
  {
    hide TreesOk, TreeOk, Gone;
    forall q, v: nat | q in sp ensures Leaf(after, sp[q], v) == Leaf(mem, sp[q], v) {
      if Node(0, v / 512) in sp[q] {
        TableRole(role, sp, q, Node(0, v / 512));
        TableStays(mem, role, after, role', gone, sp[q][Node(0, v / 512)]);
      }
    }
  }

  lemma TableRole(role: map<nat, Role>, sp: Spaces, q: nat, n: Node)
    requires TablesOk(role, sp) && q in sp && n in sp[q]
    ensures sp[q][n] in role && role[sp[q][n]].Table?
  {
    assert SpaceRoles(role, q, sp[q]);
  }

  lemma TableStays(mem: Mem, role: map<nat, Role>, after: Mem, role': map<nat, Role>, gone: set<nat>, t: nat)
    requires Gone(mem, role, after, role', gone) && t in role && role[t].Table? && t !in gone
    ensures (t in after <==> t in mem) && (t in mem ==> after[t] == mem[t])
  {}

  lemma SubPagesAre(mem: Mem, role: map<nat, Role>, sp: Spaces, r: nat, p: nat)
    requires TablesOk(role, sp) && r in sp && TreeOk(mem, sp[r])
    ensures p in SubPages(sp[r], Node(2, 0)) <==> p in role && role[p].Table? && role[p].root == r
  {
    assert SpaceRoles(role, r, sp[r]);
    if p in role && role[p].Table? && role[p].root == r {
      AllUnder(mem, sp[r], Node(role[p].level, role[p].key));
    }
  }

  lemma ReleasedUsers(m0: Mem, r0: map<nat, Role>, sp: Spaces, m1: Mem, r1: map<nat, Role>, m2: Mem, r2: map<nat, Role>,
                      r: nat, n: nat, gone: set<nat>)
    requires r in sp && UsersOk(m0, r0, sp) && (forall v: nat :: Leaf(m0, sp[r], v) != 0 <==> v < n)
    requires Unmapped(m0, r0, m1, r1, sp, r, 0, n, Free) && Gone(m1, Loosened(r1, r), m2, r2, gone)
    requires forall p: nat :: p in gone <==> p in r1 && r1[p].Table? && r1[p].root == r
    ensures ReleasedPages(m0, r0, m2, r2, r)
  {
    hide Leaf;
    forall p | p in r0 && r0[p].User? && r0[p].root == r ensures r1[p].Free? {
      assert Leaf(m0, sp[r], r0[p].vpn) != 0;
    }
    hide UsersOk;
  }

  lemma ReleasedAll(m0: Mem, r0: map<nat, Role>, sp: Spaces, m1: Mem, r1: map<nat, Role>, m2: Mem, r2: map<nat, Role>,
                    r: nat, n: nat)
    requires r in sp && UsersOk(m0, r0, sp) && TablesOk(r1, sp) && TreesOk(m1, sp)
    requires TablesOk(Loosened(r1, r), Without(sp, r))
    requires Unmapped(m0, r0, m1, r1, sp, r, 0, n, Free)
    requires forall v: nat :: Leaf(m0, sp[r], v) != 0 <==> v < n
    requires Gone(m1, Loosened(r1, r), m2, r2, SubPages(sp[r], Node(2, 0)))
    ensures Released(m0, r0, sp, m2, r2, Without(sp, r), r)
  {
    hide Leaf, SubPages, TablesOk, TreeOk, UsersOk, Gone, Loosened, ReleasedPages, Unmapped;
    forall p: nat ensures p in SubPages(sp[r], Node(2, 0)) <==> p in r1 && r1[p].Table? && r1[p].root == r {
      SubPagesAre(m1, r1, sp, r, p);
    }
    ReleasedUsers(m0, r0, sp, m1, r1, m2, r2, r, n, SubPages(sp[r], Node(2, 0)));
    AllLoose(r1, r);
    GoneLeaves(m1, Loosened(r1, r), Without(sp, r), m2, r2, SubPages(sp[r], Node(2, 0)));
    OthersUnmapped(m0, r0, m1, r1, sp, r, n);
  }

  lemma AllLoose(role: map<nat, Role>, r: nat)
    ensures forall p | p in role && role[p].Table? && role[p].root == r ::
      p in Loosened(role, r) && Loosened(role, r)[p].Held?
  {}

  lemma OthersUnmapped(m0: Mem, r0: map<nat, Role>, m1: Mem, r1: map<nat, Role>, sp: Spaces, r: nat, n: nat)
    requires Unmapped(m0, r0, m1, r1, sp, r, 0, n, Free)
    ensures SameMaps(m0, sp, m1, Without(sp, r))
  {
    hide Leaf;
  }

  lemma Emptied(m0: Mem, r0: map<nat, Role>, sp: Spaces, m1: Mem, r1: map<nat, Role>, r: nat, n: nat)
    requires r in sp && Unmapped(m0, r0, m1, r1, sp, r, 0, n, Free)
    requires forall v: nat :: Leaf(m0, sp[r], v) != 0 <==> v < n
    ensures forall v: nat :: Leaf(m1, sp[r], v) == 0
  {
    hide Leaf;
  }

  /** uvmfree(): with exactly its first pages mapped, an address space is taken apart without a panic. */
  method Uvmfree(k: Kernel, r: nat, sz: nat)
    requires k.Valid() && r in k.sp && Pages(sz) <= TRAPFRAME
    requires forall v: nat :: Leaf(k.mem, k.sp[r], v) != 0 <==> v < Pages(sz)
    modifies k
    ensures k.Valid() && Released(old(k.mem), old(k.role), old(k.sp), k.mem, k.role, k.sp, r)
  {
    hide FreeListOk, Leaf, Detached, SubPages, Gone, Unmapped, Released, TablesOk, TreesOk, UsersOk, LeavesOk;
    KeysSame(k);
    k.UnmappedNone(k.mem, k.role, k.sp, r, 0, Free);
    if sz > 0 {
      var ok := k.Uvmunmap(r, 0, Pages(sz), true);
      assert ok;
    }
    ghost var m1, r1, sp := k.mem, k.role, k.sp;
    Emptied(old(k.mem), old(k.role), sp, m1, r1, r, Pages(sz));
    DetachPlaces(m1, r1, sp, r);
    DetachList(m1, r1, k.head, k.free, r);
    k.role, k.sp := Loosened(r1, r), Without(sp, r);
    Freewalk(k, r, sp[r], Node(2, 0));
    ReleasedAll(old(k.mem), old(k.role), sp, m1, r1, k.mem, k.role, r, Pages(sz));
  }
}
