/** What mapping costs: which tables the pages of a range are reached through, and how the free list pays for them. */
module PageBill {
  import opened Sv39
  import opened PageTables

  /** The tables through which page vpn is reached. */
  ghost function Path(vpn: nat): set<Node> {
    {Node(0, Key(vpn, 0)), Node(1, Key(vpn, 1)), Node(2, Key(vpn, 2))}
  }

  /** The tables through which the n pages from page a on are reached. */
  ghost function Paths(a: nat, n: nat): set<Node> {
    if n == 0 then {} else Paths(a, n - 1) + Path(a + n - 1)
  }

  /** How many tables of a path are missing. */
  ghost function Lack(path: set<Node>, tables: set<Node>): nat {
    |path - tables|
  }

  /** How many free pages it takes to have n more user pages from page a on, in an address space with these tables. */
  ghost function Cost(tables: set<Node>, a: nat, n: nat): nat {
    n + Lack(Paths(a, n), tables)
  }

  /** From `free0` free pages and tables `keys0`, `pages` pages were taken for other uses and tables on `path` made. */
  ghost predicate Billed(free0: nat, keys0: set<Node>, free1: nat, keys1: set<Node>, path: set<Node>, pages: nat) {
    free0 + |keys0| == free1 + |keys1| + pages && keys0 <= keys1 <= keys0 + path
  }

  lemma BilledNone(free: nat, keys: set<Node>, path: set<Node>)
    ensures Billed(free, keys, free, keys, path, 0)
  {}

  lemma BilledTwice(f0: nat, k0: set<Node>, f1: nat, k1: set<Node>, p: set<Node>, m: nat, f2: nat, k2: set<Node>,
                    q: set<Node>, n: nat)
    requires Billed(f0, k0, f1, k1, p, m) && Billed(f1, k1, f2, k2, q, n)
    ensures Billed(f0, k0, f2, k2, p + q, m + n)
  {}

  lemma NodesLe(a: set<Node>, b: set<Node>)
    requires a <= b
    ensures |a| <= |b|
  {
    assert a + (b - a) == b;
  }

  /** What has been paid in full. */
  lemma Paid(f0: nat, k0: set<Node>, f1: nat, k1: set<Node>, path: set<Node>, pages: nat)
    requires Billed(f0, k0, f1, k1, path, pages) && path <= k1
    ensures f0 == f1 + pages + Lack(path, k0)
  {
    assert k1 == k0 + (path - k0);
  }

  /** With no page left and a table of the path still missing, there were too few. */
  lemma Broke(f0: nat, k0: set<Node>, k1: set<Node>, path: set<Node>, pages: nat, n: Node)
    requires Billed(f0, k0, 0, k1, path, pages) && n in path && n !in k1
    ensures f0 < pages + Lack(path, k0)
  {
    NodesLe(k1 - k0 + {n}, path - k0);
    assert k1 == k0 + (k1 - k0);
    assert |k1 - k0 + {n}| == |k1 - k0| + 1;
  }

  /** One page more. */
  lemma BillNext(f0: nat, k0: set<Node>, f1: nat, k1: set<Node>, f2: nat, k2: set<Node>, a: nat, n: nat, m: nat, p: nat)
    requires Billed(f0, k0, f1, k1, Paths(a, n), m) && Paths(a, n) <= k1 && Billed(f1, k1, f2, k2, Path(a + n), p)
    ensures Billed(f0, k0, f2, k2, Paths(a, n + 1), m + p)
    ensures Path(a + n) <= k2 ==> Paths(a, n + 1) <= k2
    ensures f1 < Lack(Path(a + n), k1) ==> f0 < m + Lack(Paths(a, n + 1), k0)
  {
    hide Paths, Billed, Path;
    BilledTwice(f0, k0, f1, k1, Paths(a, n), m, f2, k2, Path(a + n), p);
    PathsNext(a, n);
    BillKeys(f1, k1, f2, k2, Path(a + n), p);
    Paid(f0, k0, f1, k1, Paths(a, n), m);
    BillKeys(f0, k0, f1, k1, Paths(a, n), m);
    var rest := Path(a + n) - k1;
    NodesLe((Paths(a, n) - k0) + rest, Paths(a, n + 1) - k0);
    assert |(Paths(a, n) - k0) + rest| == |Paths(a, n) - k0| + |rest|;
  }

  lemma OnePath(a: nat)
    ensures Paths(a, 1) == Path(a)
  {
    assert Paths(a, 0) == {};
  }

  lemma BillPage(f0: nat, k0: set<Node>, f1: nat, k1: set<Node>, path: set<Node>)
    requires f0 > 0 && Billed(f0 - 1, k0, f1, k1, path, 0)
    ensures Billed(f0, k0, f1, k1, path, 1)
  {}

  lemma PathsNext(a: nat, n: nat)
    ensures Paths(a, n + 1) == Paths(a, n) + Path(a + n)
  {}

  lemma BillKeys(f0: nat, k0: set<Node>, f1: nat, k1: set<Node>, path: set<Node>, pages: nat)
    requires Billed(f0, k0, f1, k1, path, pages)
    ensures k0 <= k1 <= k0 + path
  {}

  /** The first m pages were paid for, and the next was too much: so were all n. */
  lemma {:induction false} TooMuch(f0: nat, k0: set<Node>, f1: nat, k1: set<Node>, a: nat, m: nat, n: nat)
    requires Billed(f0, k0, f1, k1, Paths(a, m), m) && Paths(a, m) <= k1 && m < n && f1 < 1 + Lack(Path(a + m), k1)
    ensures f0 < Cost(k0, a, n)
  {
    hide Path;
    Paid(f0, k0, f1, k1, Paths(a, m), m);
    PathsGrow(a, m + 1, n);
    var rest := Path(a + m) - k1;
    NodesLe((Paths(a, m) - k0) + rest, Paths(a, n) - k0);
    assert |(Paths(a, m) - k0) + rest| == |Paths(a, m) - k0| + |rest|;
  }

  lemma {:induction false} PathsGrow(a: nat, m: nat, n: nat)
    requires m <= n
    ensures Paths(a, m) <= Paths(a, n)
    decreases n
  {
    hide Path;
    if m < n { PathsGrow(a, m, n - 1); }
  }

  lemma {:induction false} PathsJoin(a: nat, m: nat, n: nat)
    ensures Paths(a, m + n) == Paths(a, m) + Paths(a + m, n)
    decreases n
  {
    hide Path;
    if n > 0 { PathsJoin(a, m, n - 1); }
  }

  /** More pages cost more, and what one part has paid the other need not. */
  lemma CostMore(k: set<Node>, a: nat, m: nat, n: nat)
    requires m <= n
    ensures Cost(k, a, m) <= Cost(k, a, n)
  {
    PathsGrow(a, m, n);
    NodesLe(Paths(a, m) - k, Paths(a, n) - k);
  }

  lemma CostJoin(f0: nat, k0: set<Node>, f1: nat, k1: set<Node>, a: nat, m: nat, n: nat)
    requires Billed(f0, k0, f1, k1, Paths(a, m), m) && Paths(a, m) <= k1
    ensures f1 < Cost(k1, a + m, n) <==> f0 < Cost(k0, a, m + n)
  {
    Paid(f0, k0, f1, k1, Paths(a, m), m);
    PathsJoin(a, m, n);
    var x, y := Paths(a, m), Paths(a + m, n);
    assert (x + y) - k0 == (x - k0) + (y - k1);
    assert |(x - k0) + (y - k1)| == |x - k0| + |y - k1|;
  }
}
