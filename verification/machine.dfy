/** The processes and their address spaces together: allocproc(), freeproc() and growproc() of
    kernel/proc.c, as far as they handle memory. Every page of the allocator is always in exactly one place. */
module Machines {
  import opened Sv39
  import opened PageTables
  import opened Vm
  import opened Uvm
  import opened PageBill
  import opened FreeWalk
  import opened ProcSpace

  /** The most pages there can be between the end of the kernel and PHYSTOP. */
  const MAXPAGES: nat := 32768

  const UINT: nat := 0x1_0000_0000

  /** The memory of a process: p->pagetable, p->trapframe and p->sz. */
  datatype Image = Image(pagetable: nat, trapframe: nat, sz: nat)

  ghost predicate ImagesOk(mem: Mem, sp: Spaces, proc: map<nat, Image>, tramp: nat) {
    forall i | i in proc :: proc[i].pagetable in sp &&
      ImageOk(mem, sp[proc[i].pagetable], proc[i].sz, proc[i].trapframe, tramp)
  }

  /** Each address space belongs to one process. */
  ghost predicate OwnersOk(roots: set<nat>, proc: map<nat, Image>, owner: map<nat, nat>) {
    && (forall i | i in proc :: proc[i].pagetable in owner && owner[proc[i].pagetable] == i)
    && (forall r | r in roots :: r in owner && owner[r] in proc && proc[owner[r]].pagetable == r)
  }

  /** Each trapframe page belongs to one process, and no page is in between places. */
  ghost predicate FramesOk(role: map<nat, Role>, proc: map<nat, Image>, framer: map<nat, nat>) {
    && (forall i | i in proc :: proc[i].trapframe in role && role[proc[i].trapframe].Frame?
          && proc[i].trapframe in framer && framer[proc[i].trapframe] == i)
    && (forall p | p in role && role[p].Frame? :: p in framer && framer[p] in proc && proc[framer[p]].trapframe == p)
    && (forall p | p in role :: !role[p].Held?)
  }

  // ----- every page is in exactly one place -----

  datatype Place =
    | OnFreeList(index: nat)
    | TableOf(slot: nat, node: Node)
    | UserAt(slot: nat, vpn: nat)
    | TrapframeOf(slot: nat)

  /** Page p is found at a place, as the free list, the tables in memory and the process table have it. */
  ghost predicate FoundAt(mem: Mem, sp: Spaces, free: seq<nat>, proc: map<nat, Image>, pl: Place, p: nat) {
    match pl
    case OnFreeList(i) => i < |free| && free[i] == p
    case TableOf(i, n) =>
      && i in proc && proc[i].pagetable in sp && n in sp[proc[i].pagetable]
      && sp[proc[i].pagetable][n] == p
    case UserAt(i, v) => i in proc && proc[i].pagetable in sp && v < TRAPFRAME
      && Leaf(mem, sp[proc[i].pagetable], v) != 0 && PteToPage(Leaf(mem, sp[proc[i].pagetable], v)) == p
    case TrapframeOf(i) => i in proc && proc[i].trapframe == p
  }

  ghost function PlaceOf(role: map<nat, Role>, free: seq<nat>, owner: map<nat, nat>, framer: map<nat, nat>,
    p: nat): Place
    requires p in role && !role[p].Held? && (role[p].Free? ==> p in free)
    requires (role[p].Table? || role[p].User?) ==> role[p].root in owner
    requires role[p].Frame? ==> p in framer
  {
    match role[p]
    case Free => var i: nat :| i < |free| && free[i] == p; OnFreeList(i)
    case Table(r, l, key) => TableOf(owner[r], Node(l, key))
    case User(r, v) => UserAt(owner[r], v)
    case Frame => TrapframeOf(framer[p])
  }

  lemma FoundOnce(mem: Mem, role: map<nat, Role>, sp: Spaces, head: nat, free: seq<nat>, proc: map<nat, Image>,
                  owner: map<nat, nat>, framer: map<nat, nat>, p: nat)
    requires PlacesOk(mem, role, sp) && FreeListOk(mem, role, head, free)
    requires OwnersOk(sp.Keys, proc, owner) && FramesOk(role, proc, framer) && p in role
    ensures exists pl :: FoundAt(mem, sp, free, proc, pl, p) && forall x :: FoundAt(mem, sp, free, proc, x, p) ==>
      x == pl
  {
    hide TreesOk, LeavesOk, Leaf;
    var pl := PlaceOf(role, free, owner, framer, p);
    assert FoundAt(mem, sp, free, proc, pl, p);
    forall x | FoundAt(mem, sp, free, proc, x, p) ensures x == pl {
      match x
      case OnFreeList(i) => assert role[free[i]].Free?;
      case TableOf(i, n) => assert SpaceRoles(role, proc[i].pagetable, sp[proc[i].pagetable]);
      case UserAt(i, v) => LeafPage(mem, role, sp, proc[i].pagetable, v);
      case TrapframeOf(i) =>
    }
  }

  // ----- how the operations keep the process table right -----

  lemma UnchangedImages(m0: Mem, r0: map<nat, Role>, s0: Spaces, m1: Mem, r1: map<nat, Role>, s1: Spaces,
                        proc: map<nat, Image>, tramp: nat)
    requires ImagesOk(m0, s0, proc, tramp) && MapsSame(m0, s0, m1, s1)
    ensures ImagesOk(m1, s1, proc, tramp)
  {
    hide Leaf, ImageOk;
    forall i | i in proc ensures ImageOk(m1, s1[proc[i].pagetable], proc[i].sz, proc[i].trapframe, tramp) {
      ImageSame(m0, s0[proc[i].pagetable], m1, s1[proc[i].pagetable], proc[i].sz, proc[i].trapframe, tramp);
    }
  }

  lemma ImageSame(m0: Mem, s0: Space, m1: Mem, s1: Space, sz: nat, tf: nat, tramp: nat)
    requires ImageOk(m0, s0, sz, tf, tramp) && forall v: nat :: Leaf(m1, s1, v) == Leaf(m0, s0, v)
    ensures ImageOk(m1, s1, sz, tf, tramp)
  {
    hide Leaf;
  }

  /** A process leaves, and its address space is dropped. */
  lemma ReleasedImages(m0: Mem, r0: map<nat, Role>, s0: Spaces, m1: Mem, r1: map<nat, Role>, s1: Spaces,
                       proc: map<nat, Image>,
                       owner: map<nat, nat>, tramp: nat, j: nat)
    requires ImagesOk(m0, s0, proc, tramp) && OwnersOk(s0.Keys, proc, owner) && j in proc
    requires s1.Keys == s0.Keys - {proc[j].pagetable} && SameMaps(m0, s0, m1, s1)
    ensures ImagesOk(m1, s1, Less(proc, j), tramp) && OwnersOk(s1.Keys, Less(proc, j), owner)
  {
    hide Leaf, ImageOk;
    forall i | i in Less(proc, j)
      ensures proc[i].pagetable in s1 && ImageOk(m1, s1[proc[i].pagetable], proc[i].sz, proc[i].trapframe, tramp)
    {
      ImageSame(m0, s0[proc[i].pagetable], m1, s1[proc[i].pagetable], proc[i].sz, proc[i].trapframe, tramp);
    }
  }

  function Less(proc: map<nat, Image>, j: nat): map<nat, Image> {
    map i | i in proc && i != j :: proc[i]
  }

  /** What freeproc() does to the pages of a process; 0 stands for a page it does not have. */
  ghost predicate Dropped(m0: Mem, r0: map<nat, Role>, s0: Spaces, m1: Mem, r1: map<nat, Role>, s1: Spaces,
    img: Image) {
    && s1.Keys == s0.Keys - {img.pagetable} && SameMaps(m0, s0, m1, s1) && r1.Keys == r0.Keys
    && forall p | p in r0 ::
         if p == img.trapframe || ((r0[p].Table? || r0[p].User?) && r0[p].root == img.pagetable) then r1[p].Free?
         else r1[p] == r0[p] && (Plain(r0[p]) ==> p in m0 && p in m1 && m1[p] == m0[p])
  }

  lemma DroppedFrame(m0: Mem, r0: map<nat, Role>, s0: Spaces, m1: Mem, tf: nat, img: Image)
    requires tf in r0 && img.trapframe == tf && img.pagetable == 0 && 0 !in s0 && m0.Keys == r0.Keys
    requires SameLeaves(m0, m1, s0) && tf in m1 && m1 == m0[tf := m1[tf]]
    requires forall p | p in r0 && (r0[p].Table? || r0[p].User?) :: r0[p].root in s0
    ensures Dropped(m0, r0, s0, m1, r0[tf := Held][tf := Free], s0, img)
  {
    hide Leaf;
  }

  lemma DroppedNone(m0: Mem, r0: map<nat, Role>, s0: Spaces, img: Image)
    requires 0 !in r0 && img.trapframe == 0 && img.pagetable == 0 && 0 !in s0 && m0.Keys == r0.Keys
    requires forall p | p in r0 && (r0[p].Table? || r0[p].User?) :: r0[p].root in s0
    ensures Dropped(m0, r0, s0, m0, r0, s0, img)
  {}

  lemma DroppedBoth(m0: Mem, r0: map<nat, Role>, s0: Spaces, m1: Mem, r1: map<nat, Role>, m2: Mem, r2: map<nat, Role>,
                    s2: Spaces,
                    img: Image)
    requires img.trapframe in r0 && r0[img.trapframe].Frame?
    requires Dropped(m0, r0, s0, m1, r1, s0, Image(0, img.trapframe, 0))
    requires Released(m1, r1, s0, m2, r2, s2, img.pagetable)
    requires img.pagetable in s0 && img.pagetable != 0 && 0 !in s0
    requires forall p | p in r0 && (r0[p].Table? || r0[p].User?) :: r0[p].root in s0
    ensures Dropped(m0, r0, s0, m2, r2, s2, img)
  {
    hide Leaf;
    assert s2.Keys == s0.Keys - {img.pagetable};
  }

  lemma SpacesReal(k: Kernel)
    requires k.Valid()
    ensures 0 !in k.sp && 0 !in k.role && k.mem.Keys == k.role.Keys
  {
    hide FreeListOk, TreesOk, UsersOk, LeavesOk;
    forall r | r in k.sp ensures r in k.role {
      assert SpaceRoles(k.role, r, k.sp[r]);
    }
  }

  /** freeproc(), as far as memory goes: it takes a finished process, or what allocproc() had put together. */
  method Freeproc(k: Kernel, img: Image, ghost tramp: nat)
    requires k.Valid()
    requires img.trapframe != 0 ==> img.trapframe in k.role && k.role[img.trapframe].Frame?
    requires img.pagetable != 0 ==>
      && img.trapframe != 0 && img.pagetable in k.sp
      && ImageOk(k.mem, k.sp[img.pagetable], img.sz, img.trapframe, tramp)
    modifies k
    ensures k.Valid() && Dropped(old(k.mem), old(k.role), old(k.sp), k.mem, k.role, k.sp, img)
  {
    hide PlacesOk, FreeListOk, Leaf, ImageOk, Dropped, Released;
    ghost var m0, r0, s0 := k.mem, k.role, k.sp;
    RootsKnown(k);
    SpacesReal(k);
    DroppedNone(m0, r0, s0, Image(0, 0, 0));
    if img.trapframe != 0 {
      k.FrameToHeld(img.trapframe);
      k.Kfree(img.trapframe);
      DroppedFrame(m0, r0, s0, k.mem, img.trapframe, Image(0, img.trapframe, 0));
    }
    ghost var m1, r1 := k.mem, k.role;
    if img.pagetable != 0 {
      ImageKept(m0, m1, s0, img, tramp);
      ProcFreepagetable(k, img.pagetable, img.sz, img.trapframe, tramp);
      DroppedBoth(m0, r0, s0, m1, r1, k.mem, k.role, k.sp, img);
    } else {
      DroppedAnySize(m0, r0, s0, k.mem, k.role, k.sp, img);
    }
  }

  lemma DroppedAnySize(m0: Mem, r0: map<nat, Role>, s0: Spaces, m1: Mem, r1: map<nat, Role>, s1: Spaces, img: Image)
    requires Dropped(m0, r0, s0, m1, r1, s1, img.(sz := 0))
    ensures Dropped(m0, r0, s0, m1, r1, s1, img)
  {
    hide Leaf;
  }

  lemma ImageKept(m0: Mem, m1: Mem, sp: Spaces, img: Image, tramp: nat)
    requires img.pagetable in sp && SameLeaves(m0, m1, sp)
    requires ImageOk(m0, sp[img.pagetable], img.sz, img.trapframe, tramp)
    ensures ImageOk(m1, sp[img.pagetable], img.sz, img.trapframe, tramp)
  {
    hide Leaf;
  }

  // ----- a new process -----

  /** What has changed since before a process was made with address space r and trapframe page tf. */
  ghost predicate Spawned(m0: Mem, r0: map<nat, Role>, s0: Spaces, m1: Mem, r1: map<nat, Role>, s1: Spaces, r: nat,
                          tf: nat)
  {
    && tf in r0 && r0[tf].Free? && r !in s0 && s1.Keys == s0.Keys + {r} && r1.Keys == r0.Keys && DataSame(m0, r0, m1)
    && (forall q, v: nat | q in s0 :: Leaf(m1, s1[q], v) == Leaf(m0, s0[q], v))
    && (forall p | p in r0 :: if p == tf then r1[p].Frame? else
          r1[p] == r0[p] || (r0[p].Free? && (r1[p].Table? || r1[p].User?) && r1[p].root == r))
  }

  lemma SpawnedBuilt(m0: Mem, r0: map<nat, Role>, s0: Spaces, mk: Mem, m1: Mem, r1: map<nat, Role>, s1: Spaces, r: nat,
                     tf: nat)
    requires tf in r0 && r0[tf].Free? && SameLeaves(m0, mk, s0) && tf in mk && mk == m0[tf := mk[tf]]
    requires m0.Keys == r0.Keys
    requires Built(mk, r0[tf := Held][tf := Frame], s0, m1, r1, s1, r)
    ensures Spawned(m0, r0, s0, m1, r1, s1, r, tf)
  {
    hide Leaf;
  }

  lemma SpawnedGrew(m0: Mem, r0: map<nat, Role>, s0: Spaces, m1: Mem, r1: map<nat, Role>, s1: Spaces,
                    m2: Mem, r2: map<nat, Role>, s2: Spaces, r: nat, tf: nat, n: nat)
    requires Spawned(m0, r0, s0, m1, r1, s1, r, tf) && Grew(m1, r1, s1, m2, r2, s2, r, 0, n)
    ensures Spawned(m0, r0, s0, m2, r2, s2, r, tf)
  {
    hide Leaf;
  }

  lemma SpawnedExtended(m0: Mem, r0: map<nat, Role>, s0: Spaces, m1: Mem, r1: map<nat, Role>, s1: Spaces,
                        m2: Mem, r2: map<nat, Role>, s2: Spaces, r: nat, tf: nat)
    requires Spawned(m0, r0, s0, m1, r1, s1, r, tf) && Extended(m1, r1, s1, m2, r2, s2, r)
    ensures Spawned(m0, r0, s0, m2, r2, s2, r, tf)
  {
    hide Leaf;
  }

  /** A process that is dropped again leaves no trace. */
  lemma SpawnedDropped(m0: Mem, r0: map<nat, Role>, s0: Spaces, m1: Mem, r1: map<nat, Role>, s1: Spaces,
                       m2: Mem, r2: map<nat, Role>, s2: Spaces, img: Image)
    requires Spawned(m0, r0, s0, m1, r1, s1, img.pagetable, img.trapframe) && Dropped(m1, r1, s1, m2, r2, s2, img)
    requires forall p | p in r0 && (r0[p].Table? || r0[p].User?) :: r0[p].root in s0
    ensures Unchanged(m0, r0, s0, m2, r2, s2)
  {
    hide Leaf;
  }

  lemma UnchangedFrame(m0: Mem, r0: map<nat, Role>, s0: Spaces, mk: Mem, m1: Mem, r1: map<nat, Role>, s1: Spaces,
                       m2: Mem, r2: map<nat, Role>, s2: Spaces, tf: nat)
    requires tf in r0 && r0[tf].Free? && SameLeaves(m0, mk, s0) && tf in mk && mk == m0[tf := mk[tf]]
    requires m0.Keys == r0.Keys
    requires Unchanged(mk, r0[tf := Held][tf := Frame], s0, m1, r1, s1) && 0 !in s0
    requires Dropped(m1, r1, s1, m2, r2, s2, Image(0, tf, 0))
    requires forall p | p in r0 && (r0[p].Table? || r0[p].User?) :: r0[p].root in s0
    ensures Unchanged(m0, r0, s0, m2, r2, s2)
  {
    hide SameLeaves, SameMaps, MapsSame, Leaf;
    assert MapsSame(m0, s0, m2, s2) by { MapsThrough(m0, s0, mk, m1, s1, m2, s2); }
  }

  lemma MapsThrough(m0: Mem, s0: Spaces, mk: Mem, m1: Mem, s1: Spaces, m2: Mem, s2: Spaces)
    requires SameLeaves(m0, mk, s0) && MapsSame(mk, s0, m1, s1) && SameMaps(m1, s1, m2, s2) && s2.Keys == s1.Keys - {0}
    requires 0 !in s0
    ensures MapsSame(m0, s0, m2, s2)
  {
    hide Leaf;
  }

  lemma SpawnedImages(m0: Mem, r0: map<nat, Role>, s0: Spaces, m1: Mem, r1: map<nat, Role>, s1: Spaces,
                      proc: map<nat, Image>,
                      owner: map<nat, nat>, framer: map<nat, nat>, tramp: nat, j: nat, img: Image)
    requires ImagesOk(m0, s0, proc, tramp) && Spawned(m0, r0, s0, m1, r1, s1, img.pagetable, img.trapframe)
    requires OwnersOk(s0.Keys, proc, owner) && FramesOk(r0, proc, framer) && j !in proc
    requires ImageOk(m1, s1[img.pagetable], img.sz, img.trapframe, tramp)
    ensures ImagesOk(m1, s1, proc[j := img], tramp) && OwnersOk(s1.Keys, proc[j := img], owner[img.pagetable := j])
    ensures FramesOk(r1, proc[j := img], framer[img.trapframe := j])
  {
    hide Leaf, ImageOk, FramesOk, OwnersOk;
    SpawnedFrames(m0, r0, s0, m1, r1, s1, proc, framer, j, img);
    SpawnedOwner(m0, s0, s1, proc, owner, tramp, j, img);
    forall i | i in proc
      ensures proc[i].pagetable in s1 && ImageOk(m1, s1[proc[i].pagetable], proc[i].sz, proc[i].trapframe, tramp)
    {
      ImageSame(m0, s0[proc[i].pagetable], m1, s1[proc[i].pagetable], proc[i].sz, proc[i].trapframe, tramp);
    }
  }

  lemma SpawnedFrames(m0: Mem, r0: map<nat, Role>, s0: Spaces, m1: Mem, r1: map<nat, Role>, s1: Spaces,
                      proc: map<nat, Image>,
                      framer: map<nat, nat>, j: nat, img: Image)
    requires Spawned(m0, r0, s0, m1, r1, s1, img.pagetable, img.trapframe) && FramesOk(r0, proc, framer) && j !in proc
    ensures FramesOk(r1, proc[j := img], framer[img.trapframe := j])
  {
    hide Leaf;
  }

  lemma SpawnedOwner(m0: Mem, s0: Spaces, s1: Spaces, proc: map<nat, Image>, owner: map<nat, nat>, tramp: nat, j: nat,
                     img: Image)
    requires ImagesOk(m0, s0, proc, tramp) && OwnersOk(s0.Keys, proc, owner) && j !in proc
    requires img.pagetable !in s0 && s1.Keys == s0.Keys + {img.pagetable}
    ensures OwnersOk(s1.Keys, proc[j := img], owner[img.pagetable := j])
  {
    hide ImageOk;
  }

  /** Only the address space of process i changes. */
  lemma OthersImages(m0: Mem, s0: Spaces, m1: Mem, s1: Spaces, proc: map<nat, Image>, owner: map<nat, nat>, tramp: nat,
                     i: nat, sz: nat)
    requires ImagesOk(m0, s0, proc, tramp) && OwnersOk(s0.Keys, proc, owner) && i in proc && s1.Keys == s0.Keys
    requires forall q, v: nat | q in s0 && q != proc[i].pagetable :: Leaf(m1, s1[q], v) == Leaf(m0, s0[q], v)
    requires ImageOk(m1, s1[proc[i].pagetable], sz, proc[i].trapframe, tramp)
    ensures ImagesOk(m1, s1, proc[i := proc[i].(sz := sz)], tramp)
    ensures OwnersOk(s1.Keys, proc[i := proc[i].(sz := sz)], owner)
  {
    hide Leaf, ImageOk;
    forall j | j in proc && j != i ensures ImageOk(m1, s1[proc[j].pagetable], proc[j].sz, proc[j].trapframe, tramp) {
      ImageSame(m0, s0[proc[j].pagetable], m1, s1[proc[j].pagetable], proc[j].sz, proc[j].trapframe, tramp);
    }
  }

  lemma FramesMoved(r0: map<nat, Role>, r1: map<nat, Role>, proc: map<nat, Image>, framer: map<nat, nat>, i: nat,
                    sz: nat)
    requires FramesOk(r0, proc, framer) && i in proc && r1.Keys == r0.Keys
    requires forall p | p in r0 :: r1[p] == r0[p] || (!r0[p].Frame? && !r1[p].Frame? && !r1[p].Held?)
    ensures FramesOk(r1, proc[i := proc[i].(sz := sz)], framer)
  {}

  lemma FramesGrew(m0: Mem, r0: map<nat, Role>, s0: Spaces, m1: Mem, r1: map<nat, Role>, s1: Spaces, r: nat, a: nat,
                   n: nat)
    requires Grew(m0, r0, s0, m1, r1, s1, r, a, n)
    ensures s1.Keys == s0.Keys && r1.Keys == r0.Keys
    ensures forall p | p in r0 :: r1[p] == r0[p] || (!r0[p].Frame? && !r1[p].Frame? && !r1[p].Held?)
    ensures forall q, v: nat | q in s0 && q != r :: Leaf(m1, s1[q], v) == Leaf(m0, s0[q], v)
  {
    hide Leaf;
  }

  lemma HighGrew(m0: Mem, r0: map<nat, Role>, s0: Spaces, m1: Mem, r1: map<nat, Role>, s1: Spaces, r: nat, a: nat,
                 n: nat,
                 sz: nat, sz': nat, tf: nat, tramp: nat)
    requires Grew(m0, r0, s0, m1, r1, s1, r, a, n) && r in s0 && r in s1 && a + n <= TRAPFRAME
    requires ImageOk(m0, s0[r], sz, tf, tramp) && UserPages(m1, s1[r], Pages(sz'))
    ensures ImageOk(m1, s1[r], sz', tf, tramp)
  {
    hide Leaf;
  }

  lemma ShrunkImage(m0: Mem, r0: map<nat, Role>, m1: Mem, r1: map<nat, Role>, sp: Spaces, r: nat, sz: nat, sz': nat,
                    tf: nat, tramp: nat)
    requires r in sp && sz' < sz && ImageOk(m0, sp[r], sz, tf, tramp)
    requires Unmapped(m0, r0, m1, r1, sp, r, Pages(sz'), Pages(sz) - Pages(sz'), Free)
    ensures ImageOk(m1, sp[r], sz', tf, tramp)
    ensures r1.Keys == r0.Keys
    ensures forall p | p in r0 :: r1[p] == r0[p] || (!r0[p].Frame? && !r1[p].Frame? && !r1[p].Held?)
    ensures forall q, v: nat | q in sp && q != r :: Leaf(m1, sp[q], v) == Leaf(m0, sp[q], v)
  {
    hide Leaf;
  }

  /** A process has no more pages than there are. */
  lemma SizeBound(k: Kernel, r: nat, sz: nat)
    requires k.Valid() && r in k.sp && UserPages(k.mem, k.sp[r], Pages(sz))
    ensures Pages(sz) <= |k.role.Keys|
  {
    hide FreeListOk, TablesOk, TreesOk, LeavesOk, UsersOk, Leaf;
    PagesDiffer(k.mem, k.role, k.sp, r, Pages(sz));
    CardinalityLe(PagesOf(k.mem, k.sp[r], Pages(sz)), k.role.Keys);
  }

  class Machine {
    const k: Kernel
    const trampoline: nat
    var proc: map<nat, Image>
    ghost var owner: map<nat, nat>
    ghost var framer: map<nat, nat>

    ghost predicate Valid()
      reads this, k
    {
      && k.Valid() && |k.role.Keys| <= MAXPAGES
      && ImagesOk(k.mem, k.sp, proc, trampoline) && OwnersOk(k.sp.Keys, proc, owner) && FramesOk(k.role, proc, framer)
    }

    /** After kinit() and before the first process. */
    constructor (k: Kernel, trampoline: nat)
      requires k.Valid() && k.sp == map[] && |k.role.Keys| <= MAXPAGES && forall p | p in k.role :: k.role[p].Free?
      ensures Valid() && this.k == k && this.trampoline == trampoline && proc == map[]
    {
      this.k, this.trampoline := k, trampoline;
      proc, owner, framer := map[], map[], map[];
      new;
      hide PlacesOk, FreeListOk;
    }

    /** Every page of the allocator's range is in exactly one place. */
    lemma ExactlyOnePlace(p: nat)
      requires Valid() && p in k.role
      ensures exists pl ::
        && FoundAt(k.mem, k.sp, k.free, proc, pl, p)
        && forall x :: FoundAt(k.mem, k.sp, k.free, proc, x, p) ==> x == pl
    {
      hide PlacesOk, FreeListOk, ImagesOk;
      FoundOnce(k.mem, k.role, k.sp, k.head, k.free, proc, owner, framer, p);
    }

    /** allocproc(), as far as memory goes. */
    method Allocproc(j: nat) returns (ok: bool)
      requires Valid() && j !in proc
      modifies this, k
      ensures Valid() && k.role.Keys == old(k.role).Keys
      ensures !ok ==> proc == old(proc) && Unchanged(old(k.mem), old(k.role), old(k.sp), k.mem, k.role, k.sp)
      ensures ok ==> j in proc && proc == old(proc)[j := proc[j]] && proc[j].sz == 0
      ensures ok ==>
        Spawned(old(k.mem), old(k.role), old(k.sp), k.mem, k.role, k.sp, proc[j].pagetable, proc[j].trapframe)
      ensures ok <==> |old(k.free)| >= 4
      ensures ok ==>
        && |k.free| == |old(k.free)| - 4 && proc[j].pagetable in k.sp
        && k.sp[proc[j].pagetable].Keys == HIGH_TABLES
    {
      hide PlacesOk, FreeListOk, Leaf, ImagesOk, OwnersOk, FramesOk, Built, Unchanged, Spawned, Dropped, ImageOk,
           SameLeaves, Path;
      ghost var m0, r0, s0 := k.mem, k.role, k.sp;
      RootsKnown(k);
      SpacesReal(k);
      var tf := k.Kalloc();
      if tf == 0 {
        Freeproc(k, Image(0, 0, 0), trampoline);
        StillUnchanged(m0, r0, s0, k.mem, k.role, k.sp);
        UnchangedKeys(m0, r0, s0, k.mem, k.role, k.sp);
        UnchangedImages(m0, r0, s0, k.mem, k.role, k.sp, proc, trampoline);
        return false;
      }
      k.HeldToFrame(tf);
      ghost var mk := k.mem;
      var r := ProcPagetable(k, tf, trampoline);
      if r == 0 {
        GiveUp(tf, mk, m0, r0, s0);
        return false;
      }
      SpawnedBuilt(m0, r0, s0, mk, k.mem, k.role, k.sp, r, tf);
      SpawnedKeys(m0, r0, s0, k.mem, k.role, k.sp, r, tf);
      Enter(j, r, tf, m0, r0, s0);
      return true;
    }

    /** The new process's table entry. */
    method Enter(j: nat, r: nat, tf: nat, ghost m0: Mem, ghost r0: map<nat, Role>, ghost s0: Spaces)
      requires k.Valid() && |k.role.Keys| <= MAXPAGES && j !in proc && r in k.sp
      requires Spawned(m0, r0, s0, k.mem, k.role, k.sp, r, tf) && ImageOk(k.mem, k.sp[r], 0, tf, trampoline)
      requires ImagesOk(m0, s0, proc, trampoline) && OwnersOk(s0.Keys, proc, owner) && FramesOk(r0, proc, framer)
      modifies this`proc, this`owner, this`framer
      ensures Valid() && proc == old(proc)[j := Image(r, tf, 0)]
    {
      hide PlacesOk, FreeListOk, Leaf, ImagesOk, OwnersOk, FramesOk, Spawned, ImageOk;
      var img := Image(r, tf, 0);
      SpawnedImages(m0, r0, s0, k.mem, k.role, k.sp, proc, owner, framer, trampoline, j, img);
      proc, owner, framer := proc[j := img], owner[r := j], framer[tf := j];
    }

    /** The roll back of allocproc() when there is no address space for the trapframe. */
    method GiveUp(tf: nat, ghost mk: Mem, ghost m0: Mem, ghost r0: map<nat, Role>, ghost s0: Spaces)
      requires k.Valid() && tf in r0 && r0[tf].Free? && SameLeaves(m0, mk, s0) && tf in mk && mk == m0[tf := mk[tf]]
      requires m0.Keys == r0.Keys && 0 !in s0 && 0 !in r0 && |r0.Keys| <= MAXPAGES
      requires Unchanged(mk, r0[tf := Held][tf := Frame], s0, k.mem, k.role, k.sp)
      requires forall p | p in r0 && (r0[p].Table? || r0[p].User?) :: r0[p].root in s0
      requires ImagesOk(m0, s0, proc, trampoline) && OwnersOk(s0.Keys, proc, owner) && FramesOk(r0, proc, framer)
      modifies k
      ensures Valid() && k.role.Keys == r0.Keys && Unchanged(m0, r0, s0, k.mem, k.role, k.sp)
    {
      hide PlacesOk, FreeListOk, Leaf, ImagesOk, OwnersOk, FramesOk, Unchanged, Dropped, SameLeaves;
      ghost var m1, r1, s1 := k.mem, k.role, k.sp;
      UnchangedRole(mk, r0, s0, m1, r1, s1, tf);
      Freeproc(k, Image(0, tf, 0), trampoline);
      UnchangedFrame(m0, r0, s0, mk, m1, r1, s1, k.mem, k.role, k.sp, tf);
      UnchangedKeys(m0, r0, s0, k.mem, k.role, k.sp);
      UnchangedImages(m0, r0, s0, k.mem, k.role, k.sp, proc, trampoline);
    }

    lemma StillUnchanged(m0: Mem, r0: map<nat, Role>, s0: Spaces, m1: Mem, r1: map<nat, Role>, s1: Spaces)
      requires Dropped(m0, r0, s0, m1, r1, s1, Image(0, 0, 0)) && 0 !in s0 && 0 !in r0
      requires forall p | p in r0 && (r0[p].Table? || r0[p].User?) :: r0[p].root in s0
      ensures Unchanged(m0, r0, s0, m1, r1, s1)
    {
      hide Leaf;
    }

    lemma UnchangedKeys(m0: Mem, r0: map<nat, Role>, s0: Spaces, m1: Mem, r1: map<nat, Role>, s1: Spaces)
      requires Unchanged(m0, r0, s0, m1, r1, s1)
      ensures r1 == r0 && s1.Keys == s0.Keys && MapsSame(m0, s0, m1, s1)
    {}

    lemma UnchangedRole(m0: Mem, r0: map<nat, Role>, s0: Spaces, m1: Mem, r1: map<nat, Role>, s1: Spaces, tf: nat)
      requires Unchanged(m0, r0[tf := Held][tf := Frame], s0, m1, r1, s1)
      ensures tf in r1 && r1[tf].Frame?
    {}

    lemma SpawnedKeys(m0: Mem, r0: map<nat, Role>, s0: Spaces, m1: Mem, r1: map<nat, Role>, s1: Spaces, r: nat, tf: nat)
      requires Spawned(m0, r0, s0, m1, r1, s1, r, tf)
      ensures r1.Keys == r0.Keys && r in s1 && r !in s0 && s1.Keys == s0.Keys + {r}
    {}

    /** growproc() on process i; false is -1. */
    method Growproc(i: nat, n: int) returns (ok: bool)
      requires Valid() && i in proc && -0x8000_0000 <= n < 0x8000_0000
      modifies this, k
      ensures Valid() && k.role.Keys == old(k.role).Keys
      ensures ok && old(proc)[i].sz + n >= 0 ==> proc == old(proc)[i := old(proc)[i].(sz := old(proc)[i].sz + n)]
      ensures old(proc)[i].sz + n < 0 ==> ok && proc == old(proc)
      ensures ok && n > 0 ==>
        Added(old(k.mem), old(k.role), old(k.sp), k.mem, k.role, k.sp, proc[i].pagetable,
              Pages(old(proc)[i].sz), Pages(proc[i].sz) - Pages(old(proc)[i].sz))
      ensures ok && n < 0 && old(proc)[i].sz + n >= 0 ==>
        var sz := old(proc)[i].sz;
        && k.sp == old(k.sp) && Pages(sz + n) <= Pages(sz)
        && Unmapped(old(k.mem), old(k.role), k.mem, k.role, k.sp, proc[i].pagetable,
                    Pages(sz + n), Pages(sz) - Pages(sz + n), Free)
      ensures ok && (n == 0 || old(proc)[i].sz + n < 0) ==>
        k.mem == old(k.mem) && k.role == old(k.role) && k.sp == old(k.sp)
      ensures !ok ==>
        && n > 0 && proc == old(proc)
        && Extended(old(k.mem), old(k.role), old(k.sp), k.mem, k.role, k.sp, proc[i].pagetable)
      ensures n > 0 ==>
        var sz := old(proc)[i].sz;
        && old(proc)[i].pagetable in old(k.sp) && Pages(sz) <= Pages(sz + n)
        && (ok <==> |old(k.free)| >=
                    Cost(old(k.sp)[old(proc)[i].pagetable].Keys, Pages(sz), Pages(sz + n) - Pages(sz)))
    {
      hide PlacesOk, FreeListOk, Leaf, OwnersOk, FramesOk, Unmapped, ImagesOk, Added, Extended, Cost, Pages;
      ok := true;
      if n > 0 {
        ok := GrowBy(i, n);
      } else if n < 0 {
        ShrinkBy(i, n);
      } else {
        assert proc[i := proc[i].(sz := proc[i].sz)] == proc;
      }
    }

    /** growproc() with n > 0. */
    method GrowBy(i: nat, n: nat) returns (ok: bool)
      requires Valid() && i in proc && 0 < n < 0x8000_0000
      modifies this, k
      ensures Valid() && k.role.Keys == old(k.role).Keys
      ensures ok ==>
        && proc == old(proc)[i := old(proc)[i].(sz := old(proc)[i].sz + n)]
        && Added(old(k.mem), old(k.role), old(k.sp), k.mem, k.role, k.sp, proc[i].pagetable,
                 Pages(old(proc)[i].sz), Pages(proc[i].sz) - Pages(old(proc)[i].sz))
      ensures !ok ==>
        proc == old(proc) && Extended(old(k.mem), old(k.role), old(k.sp), k.mem, k.role, k.sp, proc[i].pagetable)
      ensures
        var sz := old(proc)[i].sz;
        && old(proc)[i].pagetable in old(k.sp) && Pages(sz) <= Pages(sz + n)
        && (ok <==> |old(k.free)| >=
                    Cost(old(k.sp)[old(proc)[i].pagetable].Keys, Pages(sz), Pages(sz + n) - Pages(sz)))
    {
      hide PlacesOk, FreeListOk, Leaf, OwnersOk, FramesOk, HighOk, UserPages, Grew, Extended, ZeroPages, ImagesOk,
           Billed, Cost, Paths, Pages;
      ghost var m0, r0, s0 := k.mem, k.role, k.sp;
      var r := proc[i].pagetable;
      ImageAt(i);
      SizeBound(k, r, proc[i].sz);
      SmallSize(proc[i].sz, n);
      var sz := proc[i].sz % UINT;
      PagesUp(sz, sz + n);
      var newsz, fine := Uvmalloc(k, r, sz, (sz + n) % UINT);
      if newsz == 0 {
        ExtendedFrames(m0, r0, s0, k.mem, k.role, k.sp, r);
        UnchangedImages(m0, r0, s0, k.mem, k.role, k.sp, proc, trampoline);
        FramesMoved(r0, k.role, proc, framer, i, proc[i].sz);
        assert proc[i := proc[i].(sz := proc[i].sz)] == proc;
        return false;
      }
      FramesGrew(m0, r0, s0, k.mem, k.role, k.sp, r, Pages(sz), Pages(newsz) - Pages(sz));
      HighGrew(m0, r0, s0, k.mem, k.role, k.sp, r, Pages(sz), Pages(newsz) - Pages(sz), sz, newsz, proc[i].trapframe,
               trampoline);
      OthersImages(m0, s0, k.mem, k.sp, proc, owner, trampoline, i, newsz);
      FramesMoved(r0, k.role, proc, framer, i, newsz);
      proc := proc[i := proc[i].(sz := newsz % UINT)];
      return true;
    }

    static lemma SmallSize(sz: nat, n: int)
      requires Pages(sz) <= MAXPAGES && -0x8000_0000 <= n < 0x8000_0000
      ensures sz % UINT == sz && (sz + n) % UINT == (if sz + n >= 0 then sz + n else sz + n + UINT)
      ensures sz + n < 0 ==> sz + n + UINT >= sz
    {}

    /** growproc() with n < 0. */
    method ShrinkBy(i: nat, n: int)
      requires Valid() && i in proc && -0x8000_0000 <= n < 0
      modifies this, k
      ensures Valid() && k.role.Keys == old(k.role).Keys && k.sp == old(k.sp)
      ensures old(proc)[i].sz + n >= 0 ==>
        var sz := old(proc)[i].sz;
        && proc == old(proc)[i := old(proc)[i].(sz := sz + n)] && Pages(sz + n) <= Pages(sz)
        && Unmapped(old(k.mem), old(k.role), k.mem, k.role, k.sp, proc[i].pagetable,
                    Pages(sz + n), Pages(sz) - Pages(sz + n), Free)
      ensures old(proc)[i].sz + n < 0 ==> proc == old(proc) && k.mem == old(k.mem) && k.role == old(k.role)
    {
      hide PlacesOk, FreeListOk, Leaf, OwnersOk, FramesOk, Unmapped, HighOk, UserPages, ImagesOk, Pages;
      ghost var m0, r0, s0 := k.mem, k.role, k.sp;
      var r := proc[i].pagetable;
      ImageAt(i);
      SizeBound(k, r, proc[i].sz);
      SmallSize(proc[i].sz, n);
      var sz := proc[i].sz % UINT;
      if sz + n >= 0 { PagesUp(sz + n, sz); }
      assert proc[i := proc[i].(sz := proc[i].sz)] == proc;
      AllMapped(k.mem, k.sp[r], sz, (sz + n) % UINT);
      var newsz := Uvmdealloc(k, r, sz, (sz + n) % UINT);
      if newsz < sz {
        ShrunkImage(m0, r0, k.mem, k.role, k.sp, r, sz, newsz, proc[i].trapframe, trampoline);
      }
      OthersImages(m0, s0, k.mem, k.sp, proc, owner, trampoline, i, newsz);
      FramesMoved(r0, k.role, proc, framer, i, newsz);
      proc := proc[i := proc[i].(sz := newsz % UINT)];
    }

    lemma ImageAt(i: nat)
      requires ImagesOk(k.mem, k.sp, proc, trampoline) && i in proc
      ensures proc[i].pagetable in k.sp
      ensures ImageOk(k.mem, k.sp[proc[i].pagetable], proc[i].sz, proc[i].trapframe, trampoline)
    {}

    lemma AllMapped(mem: Mem, s: Space, sz: nat, newsz: nat)
      requires UserPages(mem, s, Pages(sz))
      ensures newsz < sz ==> forall v: nat | Pages(newsz) <= v < Pages(sz) :: Leaf(mem, s, v) != 0
      ensures Pages(sz) <= TRAPFRAME
    {
      hide Leaf;
    }

    lemma ExtendedFrames(m0: Mem, r0: map<nat, Role>, s0: Spaces, m1: Mem, r1: map<nat, Role>, s1: Spaces, r: nat)
      requires Extended(m0, r0, s0, m1, r1, s1, r)
      ensures s1.Keys == s0.Keys && r1.Keys == r0.Keys && MapsSame(m0, s0, m1, s1)
      ensures forall p | p in r0 :: r1[p] == r0[p] || (!r0[p].Frame? && !r1[p].Frame? && !r1[p].Held?)
    {
      hide Leaf;
    }
  }
}
