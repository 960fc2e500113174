/** When exec() succeeds: what it asks of the program headers, of the arguments and of the free list. */
module ExecSpec {
  import opened Sv39
  import opened PageTables
  import opened PageBill
  import opened PageBytes
  import opened Uvm
  import opened ProcSpace
  import opened Machines

  const MAXARG: nat := 32
  const UINT64: nat := 0x1_0000_0000_0000_0000

  /** A program header as exec() reads it: it cannot be read, it is not to be loaded, or these are its fields. */
  datatype Segment = Unreadable | Skipped | Load(vaddr: nat, memsz: nat, filesz: nat, off: nat)

  // ----- headers -----

  /** What is asked of a program header, for a program file of this size. */
  predicate HeaderOk(seg: Segment, size: nat) {
    match seg
    case Unreadable => false
    case Skipped => true
    case Load(vaddr, memsz, filesz, off) =>
      && filesz <= memsz && vaddr + memsz < UINT64 && vaddr % PGSIZE == 0
      && (filesz % UINT == 0 || off % UINT + filesz % UINT <= size)
  }

  function Larger(a: nat, b: nat): nat {
    if a < b then b else a
  }

  /** The size of the image after the first m headers: the end of the segment that reaches farthest. */
  function SizeAfter(segs: seq<Segment>, m: nat): nat
    requires m <= |segs|
  {
    if m == 0 then 0
    else if segs[m - 1].Load? then Larger(SizeAfter(segs, m - 1), segs[m - 1].vaddr + segs[m - 1].memsz)
    else SizeAfter(segs, m - 1)
  }

  /** The first m headers are accepted. An image that is still empty after a segment is taken for a failure. */
  ghost predicate HeadersOk(segs: seq<Segment>, m: nat, size: nat) {
    && m <= |segs|
    && forall j | 0 <= j < m :: HeaderOk(segs[j], size) && (segs[j].Load? ==> SizeAfter(segs, j + 1) > 0)
  }

  lemma {:induction false} SizeGrows(segs: seq<Segment>, m: nat, n: nat)
    requires m <= n <= |segs|
    ensures SizeAfter(segs, m) <= SizeAfter(segs, n)
    decreases n
  {
    if m < n { SizeGrows(segs, m, n - 1); }
  }

  /** The image covers each of the first m segments, and no more: unless it is empty, it ends where one of them does. */
  lemma {:induction false} SizeCovers(segs: seq<Segment>, m: nat)
    requires m <= |segs|
    ensures forall j | 0 <= j < m && segs[j].Load? :: segs[j].vaddr + segs[j].memsz <= SizeAfter(segs, m)
    ensures SizeAfter(segs, m) > 0 ==>
      exists j :: 0 <= j < m && segs[j].Load? && segs[j].vaddr + segs[j].memsz == SizeAfter(segs, m)
  {
    if m > 0 {
      SizeCovers(segs, m - 1);
    }
  }

  // ----- memory -----

  /** With f0 free pages, an address space with trapframe and trampoline can have n user pages. */
  ghost predicate Affords(f0: nat, n: nat) {
    f0 >= Cost(HIGH_TABLES, 0, n)
  }

  /** Of f0 free pages, n user pages and their tables have been paid for. */
  ghost predicate Settled(f0: nat, free: nat, tables: set<Node>, n: nat) {
    Billed(f0, HIGH_TABLES, free, tables, Paths(0, n), n) && Paths(0, n) <= tables
  }

  lemma SettledStart(f0: nat)
    ensures Settled(f0, f0, HIGH_TABLES, 0) && Pages(0) == 0
  {}

  lemma SettledMore(f0: nat, f1: nat, k1: set<Node>, n: nat, f2: nat, k2: set<Node>, d: nat)
    requires Settled(f0, f1, k1, n) && Billed(f1, k1, f2, k2, Paths(n, d), d) && Paths(n, d) <= k2
    ensures Settled(f0, f2, k2, n + d)
  {
    hide Billed;
    BilledTwice(f0, HIGH_TABLES, f1, k1, Paths(0, n), n, f2, k2, Paths(n, d), d);
    BillKeys(f1, k1, f2, k2, Paths(n, d), d);
    PathsJoin(0, n, d);
  }

  lemma SettledNext(f0: nat, f1: nat, k1: set<Node>, n: nat, d: nat)
    requires Settled(f0, f1, k1, n)
    ensures f1 >= Cost(k1, n, d) <==> Affords(f0, n + d)
  {
    hide Cost;
    CostJoin(f0, HIGH_TABLES, f1, k1, 0, n, d);
  }

  lemma SettledAffords(f0: nat, f1: nat, k1: set<Node>, n: nat)
    requires Settled(f0, f1, k1, n)
    ensures Affords(f0, n)
  {
    Paid(f0, HIGH_TABLES, f1, k1, Paths(0, n), n);
  }

  lemma AffordsLess(f0: nat, m: nat, n: nat)
    requires Affords(f0, n) && m <= n
    ensures Affords(f0, m)
  {
    CostMore(HIGH_TABLES, 0, m, n);
  }

  // ----- arguments -----

  /** sp -= n; sp -= sp % 16 */
  function Down(sp: int, n: nat): (s: int)
    ensures s % 16 == 0 && sp - n - 16 < s <= sp - n
  {
    sp - n - (sp - n) % 16
  }

  /** The stack pointer after the first j strings. */
  function StackAt(top: int, args: seq<seq<byte>>, j: nat): int
    requires j <= |args|
  {
    if j == 0 then top else Down(StackAt(top, args, j - 1), |args[j - 1]| + 1)
  }

  lemma {:induction false} StackFalls(top: int, args: seq<seq<byte>>, j: nat, n: nat)
    requires j <= n <= |args|
    ensures StackAt(top, args, n) <= StackAt(top, args, j)
    decreases n
  {
    if j < n { StackFalls(top, args, j, n - 1); }
  }

  /** There are not too many arguments, and their strings and the array fit the stack page below `top`. */
  predicate ArgsFit(top: int, args: seq<seq<byte>>) {
    |args| <= MAXARG && Down(StackAt(top, args, |args|), (|args| + 1) * 8) >= top - PGSIZE
  }

  // ----- the whole -----

  /** One past the highest page of the finished image. */
  function ImagePages(segs: seq<Segment>): nat {
    Pages(SizeAfter(segs, |segs|)) + 2
  }

  /** The headers are accepted, there is memory for the image beside the old one, and the arguments fit. */
  ghost predicate Loadable(segs: seq<Segment>, size: nat, args: seq<seq<byte>>, free: nat) {
    && HeadersOk(segs, |segs|, size) && free >= 3 && Affords(free - 3, ImagePages(segs))
    && ArgsFit(ImagePages(segs) * PGSIZE, args)
  }
}
