/** Address spaces: three-level page tables in physical memory, and who holds which physical page.

    A page is a sequence of 512 words. An address space is known by its root page; `Space` names the page of
    each of its tables by level and key. `role` says what each page of the allocator's range is used for. */
module PageTables {
  import opened Sv39

  type Page = p: seq<nat> | |p| == ENTRIES witness seq(ENTRIES, _ => 0)
  type Mem = map<nat, Page>
  datatype Node = Node(level: nat, key: nat)
  type Space = map<Node, nat>

  datatype Role =
    | Free
    | Held                                          // handed out by kalloc(), not yet placed
    | Table(root: nat, level: nat, key: nat)
    | User(root: nat, vpn: nat)
    | Frame                                         // a trapframe page

  /** memset(page, c, PGSIZE), as words. */
  function Filled(c: nat): (z: Page)
    ensures forall i | 0 <= i < ENTRIES :: z[i] == c
  {
    seq(ENTRIES, _ => c)
  }

  function Child(n: Node, i: nat): Node
    requires n.level > 0
  {
    Node(n.level - 1, n.key * 512 + i)
  }

  /** What entry i of the table at n has to be. */
  function TableEntry(s: Space, n: Node, i: nat): nat
    requires n.level > 0
  {
    if Child(n, i) in s then MakePte(s[Child(n, i)], PTE_V) else 0
  }

  /** The tables of `s` are linked in memory as their levels and keys say. */
  ghost predicate TreeOk(mem: Mem, s: Space) {
    && Node(2, 0) in s
    && (forall n | n in s ::
          && s[n] in mem && n.level <= 2 && (n.level == 2 ==> n.key == 0)
          && (n.level < 2 ==> Node(n.level + 1, n.key / 512) in s))
    && (forall n, i | n in s && n.level > 0 && 0 <= i < ENTRIES :: mem[s[n]][i] == TableEntry(s, n, i))
  }

  ghost predicate Injective(s: Space) {
    forall m, n | m in s && n in s && s[m] == s[n] :: m == n
  }

  /** The PTE of a page, 0 where no table reaches it. */
  function Leaf(mem: Mem, s: Space, vpn: nat): nat {
    var n := Node(0, vpn / 512);
    if n in s && s[n] in mem then mem[s[n]][vpn % 512] else 0
  }

  // ----- one address space -----

  lemma TreeFrame(mem: Mem, after: Mem, s: Space)
    requires TreeOk(mem, s)
    requires forall n | n in s :: s[n] in after && after[s[n]] == mem[s[n]]
    ensures TreeOk(after, s)
    ensures forall vpn: nat :: Leaf(after, s, vpn) == Leaf(mem, s, vpn)
  {}

  lemma LeafWrite(mem: Mem, s: Space, k: nat, i: nat, x: nat)
    requires TreeOk(mem, s) && Injective(s) && Node(0, k) in s && i < ENTRIES
    ensures var t := s[Node(0, k)]; var after := mem[t := mem[t][i := x]];
      && TreeOk(after, s)
      && forall vpn: nat :: Leaf(after, s, vpn) == if vpn == k * 512 + i then x else Leaf(mem, s, vpn)
  {
    var t := s[Node(0, k)];
    var after := mem[t := mem[t][i := x]];
    forall vpn: nat ensures Leaf(after, s, vpn) == if vpn == k * 512 + i then x else Leaf(mem, s, vpn) {
      var n := Node(0, vpn / 512);
      if n in s && s[n] == t { assert n == Node(0, k); }
    }
    forall n, j | n in s && n.level > 0 && 0 <= j < ENTRIES ensures after[s[n]][j] == TableEntry(s, n, j) {
      assert s[n] != t;
    }
  }

  /** Linking a zeroed page as a new table changes no mapping. */
  lemma AddTable(mem: Mem, s: Space, n: Node, i: nat, t: nat)
    requires TreeOk(mem, s) && Injective(s) && n in s && n.level > 0 && i < ENTRIES && Child(n, i) !in s
    requires t in mem && (forall m | m in s :: s[m] != t) && (forall j | 0 <= j < ENTRIES :: mem[t][j] == 0)
    ensures var after := mem[s[n] := mem[s[n]][i := MakePte(t, PTE_V)]]; var s' := s[Child(n, i) := t];
      && TreeOk(after, s') && Injective(s')
      && forall vpn: nat :: Leaf(after, s', vpn) == Leaf(mem, s, vpn)
  {
    var c := Child(n, i);
    var after := mem[s[n] := mem[s[n]][i := MakePte(t, PTE_V)]];
    var s' := s[c := t];
    forall m | m in s' ensures
      && s'[m] in after && m.level <= 2 && (m.level == 2 ==> m.key == 0)
      && (m.level < 2 ==> Node(m.level + 1, m.key / 512) in s')
    {
      assert (n.key * 512 + i) / 512 == n.key;
    }
    forall m, j | m in s' && m.level > 0 && 0 <= j < ENTRIES ensures after[s'[m]][j] == TableEntry(s', m, j) {
      NewEntry(mem, s, n, i, t, m, j);
    }
    forall vpn: nat ensures Leaf(after, s', vpn) == Leaf(mem, s, vpn) {
      var m := Node(0, vpn / 512);
      assert m in s ==> s[m] != s[n];
    }
  }

  lemma NewEntry(mem: Mem, s: Space, n: Node, i: nat, t: nat, m: Node, j: nat)
    requires TreeOk(mem, s) && Injective(s) && n in s && n.level > 0 && i < ENTRIES && Child(n, i) !in s
    requires t in mem && (forall m | m in s :: s[m] != t) && (forall j | 0 <= j < ENTRIES :: mem[t][j] == 0)
    requires m in s[Child(n, i) := t] && m.level > 0 && j < ENTRIES
    ensures var after := mem[s[n] := mem[s[n]][i := MakePte(t, PTE_V)]]; var s' := s[Child(n, i) := t];
      after[s'[m]][j] == TableEntry(s', m, j)
  {
    var c := Child(n, i);
    assert (m.key * 512 + j) / 512 == m.key && (m.key * 512 + j) % 512 == j;
    assert (n.key * 512 + i) / 512 == n.key && (n.key * 512 + i) % 512 == i;
    if m == c {
      assert Child(c, j) !in s;
    } else if m == n {
    } else {
      assert s[m] != s[n];
      assert Child(m, j) != c;
    }
  }

  // ----- all address spaces -----

  /** Pages below this hold user memory; above it are only TRAPFRAME and TRAMPOLINE. */
  const TRAPFRAME: nat := MAXVPN - 2
  const TRAMPOLINE: nat := MAXVPN - 1

  type Spaces = map<nat, Space>

  function WithTable(sp: Spaces, r: nat, n: Node, t: nat): Spaces
    requires r in sp
  {
    var s: Space := sp[r][n := t];
    sp[r := s]
  }

  ghost predicate SpaceRoles(role: map<nat, Role>, r: nat, s: Space) {
    && Node(2, 0) in s && s[Node(2, 0)] == r
    && forall n | n in s :: s[n] in role && role[s[n]] == Table(r, n.level, n.key)
  }

  /** A page is a table exactly if some address space has it as that table. */
  ghost predicate TablesOk(role: map<nat, Role>, sp: Spaces) {
    && (forall r | r in sp :: SpaceRoles(role, r, sp[r]))
    && (forall p | p in role && role[p].Table? ::
          && role[p].root in sp && Node(role[p].level, role[p].key) in sp[role[p].root]
          && sp[role[p].root][Node(role[p].level, role[p].key)] == p)
  }

  ghost predicate TreesOk(mem: Mem, sp: Spaces) {
    forall r | r in sp :: TreeOk(mem, sp[r])
  }

  /** A page is user memory exactly if some address space maps it there. */
  ghost predicate UsersOk(mem: Mem, role: map<nat, Role>, sp: Spaces) {
    && (forall r, vpn: nat | r in sp && vpn < TRAPFRAME && Leaf(mem, sp[r], vpn) != 0 ::
          PteToPage(Leaf(mem, sp[r], vpn)) in role && role[PteToPage(Leaf(mem, sp[r], vpn))] == User(r, vpn))
    && (forall p | p in role && role[p].User? ::
          && role[p].root in sp && role[p].vpn < TRAPFRAME
          && Leaf(mem, sp[role[p].root], role[p].vpn) != 0
          && PteToPage(Leaf(mem, sp[role[p].root], role[p].vpn)) == p)
  }

  /** A PTE at the last level is empty or a leaf. */
  predicate LeafPte(pte: nat) {
    pte == 0 || (IsValid(pte) && PteFlags(pte) != PTE_V)
  }

  ghost predicate LeavesOk(mem: Mem, sp: Spaces) {
    forall r, vpn: nat | r in sp :: LeafPte(Leaf(mem, sp[r], vpn))
  }

  /** Every page of the allocator's range is in exactly one place, and the tables in memory say so. */
  ghost predicate PlacesOk(mem: Mem, role: map<nat, Role>, sp: Spaces) {
    && mem.Keys == role.Keys && 0 !in role
    && TablesOk(role, sp) && TreesOk(mem, sp) && UsersOk(mem, role, sp) && LeavesOk(mem, sp)
  }

  lemma SpaceInjective(role: map<nat, Role>, sp: Spaces, r: nat)
    requires TablesOk(role, sp) && r in sp
    ensures Injective(sp[r])
  {
    assert SpaceRoles(role, r, sp[r]);
  }

  ghost predicate SameLeaves(mem: Mem, after: Mem, sp: Spaces) {
    forall r, vpn: nat | r in sp :: Leaf(after, sp[r], vpn) == Leaf(mem, sp[r], vpn)
  }

  lemma PlainTables(role: map<nat, Role>, sp: Spaces, p: nat, y: Role)
    requires TablesOk(role, sp) && p in role && !role[p].Table? && !y.Table?
    ensures TablesOk(role[p := y], sp)
  {
    var role' := role[p := y];
    forall r | r in sp ensures SpaceRoles(role', r, sp[r]) {
      assert SpaceRoles(role, r, sp[r]);
    }
  }

  lemma PlainTrees(mem: Mem, role: map<nat, Role>, sp: Spaces, p: nat, x: Page)
    requires TablesOk(role, sp) && TreesOk(mem, sp) && p in role && !role[p].Table?
    ensures TreesOk(mem[p := x], sp) && SameLeaves(mem, mem[p := x], sp)
  {
    hide TreeOk, Leaf;
    var mem' := mem[p := x];
    forall r | r in sp
      ensures TreeOk(mem', sp[r]) && forall vpn: nat :: Leaf(mem', sp[r], vpn) == Leaf(mem, sp[r], vpn)
    {
      assert SpaceRoles(role, r, sp[r]);
      TreePages(mem, sp[r]);
      TreeFrame(mem, mem', sp[r]);
    }
  }

  lemma TreePages(mem: Mem, s: Space)
    requires TreeOk(mem, s)
    ensures forall n | n in s :: s[n] in mem
  {}

  lemma PlainUsers(mem: Mem, after: Mem, role: map<nat, Role>, sp: Spaces, p: nat, y: Role)
    requires UsersOk(mem, role, sp) && SameLeaves(mem, after, sp)
    requires p in role && (y == role[p] || (!role[p].User? && !y.User?))
    ensures UsersOk(after, role[p := y], sp)
  {
    hide Leaf;
  }

  lemma NotATable(role: map<nat, Role>, sp: Spaces, r: nat, t: nat)
    requires TablesOk(role, sp) && r in sp && t in role && !role[t].Table?
    ensures forall m | m in sp[r] :: sp[r][m] != t
  {
    assert SpaceRoles(role, r, sp[r]);
  }

  lemma SpacesApart(role: map<nat, Role>, sp: Spaces, q: nat, r: nat, n: Node)
    requires TablesOk(role, sp) && q in sp && r in sp && q != r && n in sp[r]
    ensures forall m | m in sp[q] :: sp[q][m] != sp[r][n]
  {
    assert SpaceRoles(role, q, sp[q]) && SpaceRoles(role, r, sp[r]);
  }

  /** A page that is no table may be overwritten, and may change between the roles that no table speaks of. */
  lemma PlainPage(mem: Mem, role: map<nat, Role>, sp: Spaces, p: nat, x: Page, y: Role)
    requires PlacesOk(mem, role, sp) && p in role && !role[p].Table?
    requires y == role[p] || (!role[p].User? && !y.User? && !y.Table?)
    ensures PlacesOk(mem[p := x], role[p := y], sp) && SameLeaves(mem, mem[p := x], sp)
  {
    hide TreeOk, Leaf, TablesOk, TreesOk, UsersOk;
    PlainTables(role, sp, p, y);
    PlainTrees(mem, role, sp, p, x);
    PlainUsers(mem, mem[p := x], role, sp, p, y);
  }

  // Linking a held, zeroed page as a table of address space r.

  lemma LinkTables(role: map<nat, Role>, sp: Spaces, r: nat, n: Node, t: nat)
    requires TablesOk(role, sp) && r in sp && n !in sp[r] && t in role && !role[t].Table?
    ensures TablesOk(role[t := Table(r, n.level, n.key)], WithTable(sp, r, n, t))
  {
    var role', sp' := role[t := Table(r, n.level, n.key)], WithTable(sp, r, n, t);
    forall q | q in sp' ensures SpaceRoles(role', q, sp'[q]) {
      LinkRoles(role, sp, r, n, t, q);
    }
    forall p | p in role' && role'[p].Table?
      ensures
        && role'[p].root in sp' && Node(role'[p].level, role'[p].key) in sp'[role'[p].root]
        && sp'[role'[p].root][Node(role'[p].level, role'[p].key)] == p
    {
      LinkBack(role, sp, r, n, t, p);
    }
    hide SpaceRoles, WithTable;
  }

  lemma LinkBack(role: map<nat, Role>, sp: Spaces, r: nat, n: Node, t: nat, p: nat)
    requires TablesOk(role, sp) && r in sp && n !in sp[r] && t in role && p in role && (p != t ==> role[p].Table?)
    ensures var y := role[t := Table(r, n.level, n.key)][p]; var sp' := WithTable(sp, r, n, t);
      y.Table? && y.root in sp' && Node(y.level, y.key) in sp'[y.root] && sp'[y.root][Node(y.level, y.key)] == p
  {
    hide SpaceRoles;
  }

  lemma LinkRoles(role: map<nat, Role>, sp: Spaces, r: nat, n: Node, t: nat, q: nat)
    requires r in sp && n !in sp[r] && t in role && !role[t].Table? && q in sp && SpaceRoles(role, q, sp[q])
    ensures SpaceRoles(role[t := Table(r, n.level, n.key)], q, WithTable(sp, r, n, t)[q])
  {}

  lemma LinkTrees(mem: Mem, role: map<nat, Role>, sp: Spaces, r: nat, n: Node, i: nat, t: nat)
    requires TablesOk(role, sp) && TreesOk(mem, sp) && mem.Keys == role.Keys
    requires r in sp && n in sp[r] && n.level > 0 && i < ENTRIES && Child(n, i) !in sp[r]
    requires t in role && !role[t].Table? && (forall j | 0 <= j < ENTRIES :: mem[t][j] == 0)
    ensures var p := sp[r][n]; p in mem && var after := mem[p := mem[p][i := MakePte(t, PTE_V)]];
      var sp' := WithTable(sp, r, Child(n, i), t);
      && TreesOk(after, sp')
      && forall q, vpn: nat | q in sp :: Leaf(after, sp'[q], vpn) == Leaf(mem, sp[q], vpn)
  {
    hide TreeOk, Leaf, TablesOk;
    TreePages(mem, sp[r]);
    var p := sp[r][n];
    var after := mem[p := mem[p][i := MakePte(t, PTE_V)]];
    var sp' := WithTable(sp, r, Child(n, i), t);
    SpaceInjective(role, sp, r);
    NotATable(role, sp, r, t);
    AddTable(mem, sp[r], n, i, t);
    forall q | q in sp && q != r
      ensures TreeOk(after, sp[q]) && forall vpn: nat :: Leaf(after, sp[q], vpn) == Leaf(mem, sp[q], vpn)
    {
      SpacesApart(role, sp, q, r, n);
      TreePages(mem, sp[q]);
      TreeFrame(mem, after, sp[q]);
    }
  }

  lemma MovedUsers(mem: Mem, role: map<nat, Role>, sp: Spaces, after: Mem, sp': Spaces, t: nat, y: Role)
    requires UsersOk(mem, role, sp) && sp'.Keys == sp.Keys && t in role && !role[t].User? && !y.User?
    requires forall q, vpn: nat | q in sp :: Leaf(after, sp'[q], vpn) == Leaf(mem, sp[q], vpn)
    ensures UsersOk(after, role[t := y], sp')
  {
    hide Leaf;
  }

  lemma LinkTable(mem: Mem, role: map<nat, Role>, sp: Spaces, r: nat, n: Node, i: nat, t: nat)
    requires PlacesOk(mem, role, sp)
    requires r in sp && n in sp[r] && n.level > 0 && i < ENTRIES && Child(n, i) !in sp[r]
    requires t in role && role[t].Held? && (forall j | 0 <= j < ENTRIES :: mem[t][j] == 0)
    ensures var p := sp[r][n]; p in mem && var after := mem[p := mem[p][i := MakePte(t, PTE_V)]];
      var c := Child(n, i); var sp' := WithTable(sp, r, c, t);
      && PlacesOk(after, role[t := Table(r, c.level, c.key)], sp')
      && forall q, vpn: nat | q in sp :: Leaf(after, sp'[q], vpn) == Leaf(mem, sp[q], vpn)
  {
    hide TreeOk, Leaf, TablesOk, TreesOk, UsersOk;
    LinkTrees(mem, role, sp, r, n, i, t);
    var p := sp[r][n];
    var after := mem[p := mem[p][i := MakePte(t, PTE_V)]];
    var c := Child(n, i);
    var sp' := WithTable(sp, r, c, t);
    LinkTables(role, sp, r, c, t);
    MovedUsers(mem, role, sp, after, sp', t, Table(r, c.level, c.key));
  }

  // Writing a PTE at the last level of address space r.

  /** The leaves after PTE x was stored for page vpn of address space r. */
  ghost predicate LeafSet(mem: Mem, after: Mem, sp: Spaces, r: nat, vpn: nat, x: nat) {
    forall q, v: nat | q in sp :: Leaf(after, sp[q], v) == if q == r && v == vpn then x else Leaf(mem, sp[q], v)
  }

  lemma SetLeafTrees(mem: Mem, role: map<nat, Role>, sp: Spaces, r: nat, vpn: nat, x: nat)
    requires TablesOk(role, sp) && TreesOk(mem, sp) && r in sp && Node(0, vpn / 512) in sp[r]
    ensures var t := sp[r][Node(0, vpn / 512)]; t in mem && var after := mem[t := mem[t][vpn % 512 := x]];
      TreesOk(after, sp) && LeafSet(mem, after, sp, r, vpn, x)
  {
    hide TreeOk, Leaf, TablesOk;
    TreePages(mem, sp[r]);
    var t := sp[r][Node(0, vpn / 512)];
    var after := mem[t := mem[t][vpn % 512 := x]];
    SpaceInjective(role, sp, r);
    LeafWrite(mem, sp[r], vpn / 512, vpn % 512, x);
    forall q | q in sp && q != r
      ensures TreeOk(after, sp[q]) && forall v: nat :: Leaf(after, sp[q], v) == Leaf(mem, sp[q], v)
    {
      SpacesApart(role, sp, q, r, Node(0, vpn / 512));
      TreePages(mem, sp[q]);
      TreeFrame(mem, after, sp[q]);
    }
  }

  lemma MapUsers(mem: Mem, after: Mem, role: map<nat, Role>, sp: Spaces, r: nat, vpn: nat, x: nat)
    requires UsersOk(mem, role, sp) && LeafSet(mem, after, sp, r, vpn, x) && r in sp
    requires Leaf(mem, sp[r], vpn) == 0 && x != 0
    requires vpn < TRAPFRAME ==> PteToPage(x) in role && role[PteToPage(x)].Held?
    ensures UsersOk(after, if vpn < TRAPFRAME then role[PteToPage(x) := User(r, vpn)] else role, sp)
  {
    hide Leaf;
  }

  lemma UnmapUsers(mem: Mem, after: Mem, role: map<nat, Role>, sp: Spaces, r: nat, vpn: nat)
    requires UsersOk(mem, role, sp) && LeafSet(mem, after, sp, r, vpn, 0) && r in sp && Leaf(mem, sp[r], vpn) != 0
    ensures UsersOk(after, if vpn < TRAPFRAME then role[PteToPage(Leaf(mem, sp[r], vpn)) := Held] else role, sp)
  {
    hide Leaf;
  }

  /** A page with PTE x appears at vpn in address space r; if it is user memory, it becomes that. */
  lemma MapLeaf(mem: Mem, role: map<nat, Role>, sp: Spaces, r: nat, vpn: nat, x: nat)
    requires PlacesOk(mem, role, sp) && r in sp && Node(0, vpn / 512) in sp[r]
    requires Leaf(mem, sp[r], vpn) == 0 && x != 0 && LeafPte(x)
    requires vpn < TRAPFRAME ==> PteToPage(x) in role && role[PteToPage(x)].Held?
    ensures var t := sp[r][Node(0, vpn / 512)]; t in mem && var after := mem[t := mem[t][vpn % 512 := x]];
      && LeafSet(mem, after, sp, r, vpn, x)
      && PlacesOk(after, if vpn < TRAPFRAME then role[PteToPage(x) := User(r, vpn)] else role, sp)
  {
    hide TreeOk, Leaf, TablesOk, TreesOk, UsersOk, LeafPte;
    SetLeafTrees(mem, role, sp, r, vpn, x);
    var t := sp[r][Node(0, vpn / 512)];
    var after := mem[t := mem[t][vpn % 512 := x]];
    MapUsers(mem, after, role, sp, r, vpn, x);
    if vpn < TRAPFRAME { PlainTables(role, sp, PteToPage(x), User(r, vpn)); }
  }

  lemma LeafPage(mem: Mem, role: map<nat, Role>, sp: Spaces, r: nat, vpn: nat)
    requires UsersOk(mem, role, sp) && r in sp && vpn < TRAPFRAME && Leaf(mem, sp[r], vpn) != 0
    ensures var p := PteToPage(Leaf(mem, sp[r], vpn)); p in role && role[p] == User(r, vpn)
  {
    hide Leaf;
  }

  lemma UnmapLeaf(mem: Mem, role: map<nat, Role>, sp: Spaces, r: nat, vpn: nat)
    requires PlacesOk(mem, role, sp) && r in sp && Node(0, vpn / 512) in sp[r] && Leaf(mem, sp[r], vpn) != 0
    ensures var t := sp[r][Node(0, vpn / 512)]; t in mem && var after := mem[t := mem[t][vpn % 512 := 0]];
      && LeafSet(mem, after, sp, r, vpn, 0)
      && PlacesOk(after, if vpn < TRAPFRAME then role[PteToPage(Leaf(mem, sp[r], vpn)) := Held] else role, sp)
  {
    hide TreeOk, Leaf, TablesOk, TreesOk, UsersOk;
    SetLeafTrees(mem, role, sp, r, vpn, 0);
    var t := sp[r][Node(0, vpn / 512)];
    var after := mem[t := mem[t][vpn % 512 := 0]];
    UnmapUsers(mem, after, role, sp, r, vpn);
    if vpn < TRAPFRAME {
      LeafPage(mem, role, sp, r, vpn);
      PlainTables(role, sp, PteToPage(Leaf(mem, sp[r], vpn)), Held);
    }
  }

  /** Changing the flags of a leaf, as uvmclear() does. */
  lemma ReflagLeaf(mem: Mem, role: map<nat, Role>, sp: Spaces, r: nat, vpn: nat, x: nat)
    requires PlacesOk(mem, role, sp) && r in sp && Node(0, vpn / 512) in sp[r] && Leaf(mem, sp[r], vpn) != 0
    requires x != 0 && LeafPte(x) && PteToPage(x) == PteToPage(Leaf(mem, sp[r], vpn))
    ensures var t := sp[r][Node(0, vpn / 512)]; t in mem && var after := mem[t := mem[t][vpn % 512 := x]];
      LeafSet(mem, after, sp, r, vpn, x) && PlacesOk(after, role, sp)
  {
    hide TreeOk, Leaf, TablesOk, TreesOk, UsersOk, LeafPte;
    SetLeafTrees(mem, role, sp, r, vpn, x);
    var t := sp[r][Node(0, vpn / 512)];
    var after := mem[t := mem[t][vpn % 512 := x]];
    ReflagUsers(mem, after, role, sp, r, vpn, x);
  }

  lemma ReflagUsers(mem: Mem, after: Mem, role: map<nat, Role>, sp: Spaces, r: nat, vpn: nat, x: nat)
    requires UsersOk(mem, role, sp) && LeafSet(mem, after, sp, r, vpn, x) && r in sp && Leaf(mem, sp[r], vpn) != 0
    requires x != 0 && PteToPage(x) == PteToPage(Leaf(mem, sp[r], vpn))
    ensures UsersOk(after, role, sp)
  {
    hide Leaf;
  }
}
