/** The memory side of fork() and of wait()'s freeproc(), kernel/proc.c. */
module Fork {
  import opened Sv39
  import opened PageTables
  import opened Vm
  import opened Uvm
  import opened PageBill
  import opened UvmCopy
  import opened FreeWalk
  import opened ProcSpace
  import opened Machines

  /** The words of struct trapframe, and the place of a0 among them. */
  const TRAPFRAME_WORDS: nat := 36
  const A0: nat := 14

  /** The child's saved registers: the parent's, with 0 for fork()'s result. */
  function ChildFrame(parent: Page, child: Page): Page {
    parent[..TRAPFRAME_WORDS][A0 := 0] + child[TRAPFRAME_WORDS..]
  }

  /** The child has its own copy of the parent's memory and registers; nobody else's have changed. */
  ghost predicate Forked(m0: Mem, r0: map<nat, Role>, s0: Spaces, m1: Mem, r1: map<nat, Role>, s1: Spaces,
                         parent: Image, child: Image)
  {
    && child.sz == parent.sz && parent.pagetable in s0 && child.pagetable in s1
    && Spawned(m0, r0, s0, m1, r1, s1, child.pagetable, child.trapframe)
    && PagesCopied(m0, s0[parent.pagetable], m1, s1[child.pagetable], Pages(parent.sz))
    && parent.trapframe in m0 && child.trapframe in m1
    && m1[child.trapframe][..TRAPFRAME_WORDS] == m0[parent.trapframe][..TRAPFRAME_WORDS][A0 := 0]
  }

  lemma SpawnedStore(m0: Mem, r0: map<nat, Role>, s0: Spaces, m1: Mem, r1: map<nat, Role>, s1: Spaces, m2: Mem, r: nat,
                     tf: nat, x: Page)
    requires Spawned(m0, r0, s0, m1, r1, s1, r, tf) && m2 == m1[tf := x] && SameLeaves(m1, m2, s1)
    ensures Spawned(m0, r0, s0, m2, r1, s1, r, tf)
  {
    hide Leaf;
  }

  lemma CopiedStore(m0: Mem, s0: Space, m1: Mem, r1: map<nat, Role>, s1: Spaces, m2: Mem, r: nat, n: nat, tf: nat,
                    x: Page)
    requires r in s1 && PagesCopied(m0, s0, m1, s1[r], n) && UserPages(m1, s1[r], n) && UsersOk(m1, r1, s1)
    requires tf in r1 && r1[tf].Frame? && m2 == m1[tf := x] && SameLeaves(m1, m2, s1)
    ensures PagesCopied(m0, s0, m2, s1[r], n) && UserPages(m2, s1[r], n)
  {
    hide Leaf;
    forall v: nat | v < n ensures PageCopied(m0, s0, m2, s1[r], v) {
      assert PageCopied(m0, s0, m1, s1[r], v);
      LeafPage(m1, r1, s1, r, v);
    }
  }

  lemma CopiedSince(m0: Mem, s0: Space, m1: Mem, s1: Space, m2: Mem, s2: Space, n: nat)
    requires PagesCopied(m1, s1, m2, s2, n)
    requires forall v: nat | v < n ::
      && Leaf(m1, s1, v) == Leaf(m0, s0, v) && PteToPage(Leaf(m0, s0, v)) in m0
      && PteToPage(Leaf(m0, s0, v)) in m1 && m1[PteToPage(Leaf(m0, s0, v))] == m0[PteToPage(Leaf(m0, s0, v))]
    ensures PagesCopied(m0, s0, m2, s2, n)
  {
    hide Leaf;
    forall v: nat | v < n ensures PageCopied(m0, s0, m2, s2, v) {
      assert PageCopied(m1, s1, m2, s2, v);
    }
  }

  lemma ParentSame(m0: Mem, r0: map<nat, Role>, s0: Spaces, m1: Mem, r1: map<nat, Role>, s1: Spaces, r: nat, tf: nat,
                   q: nat, n: nat)
    requires Spawned(m0, r0, s0, m1, r1, s1, r, tf) && q in s0 && UsersOk(m0, r0, s0) && UserPages(m0, s0[q], n)
    ensures q in s1 && q != r && UserPages(m1, s1[q], n)
    ensures forall v: nat | v < n ::
      && Leaf(m1, s1[q], v) == Leaf(m0, s0[q], v) && PteToPage(Leaf(m0, s0[q], v)) in m0
      && PteToPage(Leaf(m0, s0[q], v)) in m1 && m1[PteToPage(Leaf(m0, s0[q], v))] == m0[PteToPage(Leaf(m0, s0[q], v))]
  {
    hide Leaf;
    forall v: nat | v < n ensures
      && Leaf(m1, s1[q], v) == Leaf(m0, s0[q], v) && PteToPage(Leaf(m0, s0[q], v)) in m0
      && PteToPage(Leaf(m0, s0[q], v)) in m1 && m1[PteToPage(Leaf(m0, s0[q], v))] == m0[PteToPage(Leaf(m0, s0[q], v))]
    {
      LeafPage(m0, r0, s0, q, v);
    }
  }

  lemma DroppedFrames(m0: Mem, r0: map<nat, Role>, s0: Spaces, m1: Mem, r1: map<nat, Role>, s1: Spaces,
                      proc: map<nat, Image>,
                      framer: map<nat, nat>, j: nat)
    requires FramesOk(r0, proc, framer) && j in proc && Dropped(m0, r0, s0, m1, r1, s1, proc[j])
    ensures FramesOk(r1, Less(proc, j), framer) && r1.Keys == r0.Keys
    ensures s1.Keys == s0.Keys - {proc[j].pagetable} && SameMaps(m0, s0, m1, s1)
  {
    hide Leaf;
  }

  /** freeproc() on a process of the table, as wait() calls it: its pages are free, all others as they were. */
  method Reap(w: Machine, j: nat)
    requires w.Valid() && j in w.proc
    modifies w, w.k
    ensures w.Valid() && w.proc == Less(old(w.proc), j) && w.k.role.Keys == old(w.k.role).Keys
    ensures Dropped(old(w.k.mem), old(w.k.role), old(w.k.sp), w.k.mem, w.k.role, w.k.sp, old(w.proc)[j])
  {
    hide PlacesOk, FreeListOk, Leaf, ImagesOk, OwnersOk, FramesOk, Dropped, ImageOk;
    ghost var m0, r0, s0 := w.k.mem, w.k.role, w.k.sp;
    w.ImageAt(j);
    SpacesReal(w.k);
    FrameAt(w.k.role, w.proc, w.framer, j);
    Freeproc(w.k, w.proc[j], w.trampoline);
    DroppedFrames(m0, r0, s0, w.k.mem, w.k.role, w.k.sp, w.proc, w.framer, j);
    ReleasedImages(m0, r0, s0, w.k.mem, w.k.role, w.k.sp, w.proc, w.owner, w.trampoline, j);
    w.proc := Less(w.proc, j);
  }

  lemma FrameAt(role: map<nat, Role>, proc: map<nat, Image>, framer: map<nat, nat>, i: nat)
    requires FramesOk(role, proc, framer) && i in proc
    ensures proc[i].trapframe in role && role[proc[i].trapframe].Frame?
    ensures forall j | j in proc && j != i :: proc[j].trapframe != proc[i].trapframe
  {}

  lemma UsersAt(k: Kernel)
    requires k.Valid()
    ensures UsersOk(k.mem, k.role, k.sp)
  {
    hide TablesOk, TreesOk, LeavesOk, UsersOk, FreeListOk;
  }

  /** uvmcopy() between two processes of the table. */
  method TryCopy(w: Machine, i: nat, j: nat) returns (ok: bool)
    requires w.Valid() && i in w.proc && j in w.proc && i != j && w.proc[j].sz == 0
    modifies w`proc, w.k
    ensures w.Valid() && w.k.role.Keys == old(w.k.role).Keys
    ensures !ok ==>
      && w.proc == old(w.proc)
      && Extended(old(w.k.mem), old(w.k.role), old(w.k.sp), w.k.mem, w.k.role, w.k.sp, old(w.proc)[j].pagetable)
    ensures ok ==>
      && w.proc == old(w.proc)[j := old(w.proc)[j].(sz := old(w.proc)[i].sz)]
      && Copied(old(w.k.mem), old(w.k.role), old(w.k.sp), w.k.mem, w.k.role, w.k.sp, old(w.proc)[i],
                old(w.proc)[j].pagetable)
    ensures
      && old(w.proc)[j].pagetable in old(w.k.sp)
      && (ok <==> |old(w.k.free)| >=
                  Cost(old(w.k.sp)[old(w.proc)[j].pagetable].Keys, 0, Pages(old(w.proc)[i].sz)))
  {
    hide PlacesOk, FreeListOk, Leaf, ImagesOk, OwnersOk, FramesOk, HighOk, UserPages, UsersOk, Grew, Extended,
         PagesCopied;
    var r, c, sz := w.proc[i].pagetable, w.proc[j].pagetable, w.proc[i].sz;
    ghost var m1, r1, s1 := w.k.mem, w.k.role, w.k.sp;
    w.ImageAt(i);
    w.ImageAt(j);
    SpacesDiffer(s1.Keys, w.proc, w.owner, i, j);
    ok := Uvmcopy(w.k, r, c, sz);
    if !ok {
      w.ExtendedFrames(m1, r1, s1, w.k.mem, w.k.role, w.k.sp, c);
      UnchangedImages(m1, r1, s1, w.k.mem, w.k.role, w.k.sp, w.proc, w.trampoline);
      FramesMoved(r1, w.k.role, w.proc, w.framer, j, 0);
      SameTable(w.proc, j);
      return;
    }
    FramesGrew(m1, r1, s1, w.k.mem, w.k.role, w.k.sp, c, 0, Pages(sz));
    FramesMoved(r1, w.k.role, w.proc, w.framer, j, sz);
    PagesFit(w.k.mem, w.k.sp[c], Pages(sz));
    HighGrew(m1, r1, s1, w.k.mem, w.k.role, w.k.sp, c, 0, Pages(sz), 0, sz, w.proc[j].trapframe, w.trampoline);
    OthersImages(m1, s1, w.k.mem, w.k.sp, w.proc, w.owner, w.trampoline, j, sz);
    w.proc := w.proc[j := w.proc[j].(sz := sz)];
  }

  ghost predicate Copied(m0: Mem, r0: map<nat, Role>, s0: Spaces, m1: Mem, r1: map<nat, Role>, s1: Spaces,
                         parent: Image, c: nat)
  {
    && parent.pagetable in s0 && c in s1 && Grew(m0, r0, s0, m1, r1, s1, c, 0, Pages(parent.sz))
    && PagesCopied(m0, s0[parent.pagetable], m1, s1[c], Pages(parent.sz)) && UserPages(m1, s1[c], Pages(parent.sz))
  }

  lemma SpacesDiffer(roots: set<nat>, proc: map<nat, Image>, owner: map<nat, nat>, i: nat, j: nat)
    requires OwnersOk(roots, proc, owner) && i in proc && j in proc && i != j
    ensures proc[i].pagetable != proc[j].pagetable
  {}

  /** fork(): process j is a copy of process i with memory of its own, or nothing has changed. */
  method ForkMemory(w: Machine, i: nat, j: nat) returns (ok: bool)
    requires w.Valid() && i in w.proc && j !in w.proc
    modifies w, w.k
    ensures w.Valid() && w.k.role.Keys == old(w.k.role).Keys
    ensures !ok ==>
      w.proc == old(w.proc) && Unchanged(old(w.k.mem), old(w.k.role), old(w.k.sp), w.k.mem, w.k.role, w.k.sp)
    ensures ok ==> i in old(w.proc) && j in w.proc && w.proc == old(w.proc)[j := w.proc[j]]
    ensures ok ==>
      Forked(old(w.k.mem), old(w.k.role), old(w.k.sp), w.k.mem, w.k.role, w.k.sp, old(w.proc)[i], w.proc[j])
    ensures ok <==> |old(w.k.free)| >= 4 + Cost(HIGH_TABLES, 0, Pages(old(w.proc)[i].sz))
  {
    hide Cost, PlacesOk, FreeListOk, Leaf, ImagesOk, OwnersOk, FramesOk, Unchanged, Spawned, Dropped, HighOk, UserPages,
         UsersOk, Grew, Extended, PagesCopied;
    ghost var m0, r0, s0 := w.k.mem, w.k.role, w.k.sp;
    ghost var proc0 := w.proc;
    RootsKnown(w.k);
    UsersAt(w.k);
    w.ImageAt(i);
    FrameAt(r0, proc0, w.framer, i);
    ok := w.Allocproc(j);
    if !ok {
      return;
    }
    var r, c, sz := w.proc[i].pagetable, w.proc[j].pagetable, w.proc[i].sz;
    var tf, tf' := w.proc[i].trapframe, w.proc[j].trapframe;
    ghost var m1, r1, s1 := w.k.mem, w.k.role, w.k.sp;
    ParentSame(m0, r0, s0, m1, r1, s1, c, tf', r, Pages(sz));
    FrameSame(m0, r0, s0, m1, r1, s1, c, tf', tf);
    FrameAt(r1, w.proc, w.framer, j);
    ok := TryCopy(w, i, j);
    ghost var m2, r2, s2 := w.k.mem, w.k.role, w.k.sp;
    if !ok {
      SpawnedExtended(m0, r0, s0, m1, r1, s1, m2, r2, s2, c, tf');
      ghost var img := w.proc[j];
      Reap(w, j);
      SpawnedDropped(m0, r0, s0, m2, r2, s2, w.k.mem, w.k.role, w.k.sp, img);
      LessAgain(proc0, j, img);
      return;
    }
    FrameKept(m1, r1, s1, m2, r2, s2, c, Pages(sz), tf, tf');
    SpawnedGrew(m0, r0, s0, m1, r1, s1, m2, r2, s2, c, tf', Pages(sz));
    CopiedSince(m0, s0[r], m1, s1[r], m2, s2[c], Pages(sz));
    UsersAt(w.k);
    w.k.Store(tf', ChildFrame(w.k.mem[tf], w.k.mem[tf']));
    SpawnedStore(m0, r0, s0, m2, r2, s2, w.k.mem, c, tf', w.k.mem[tf']);
    CopiedStore(m0, s0[r], m2, r2, s2, w.k.mem, c, Pages(sz), tf', w.k.mem[tf']);
    StoredImages(m2, w.k.mem, s2, w.proc, w.trampoline);
  }

  lemma SameTable(proc: map<nat, Image>, j: nat)
    requires j in proc && proc[j].sz == 0
    ensures proc[j := proc[j].(sz := 0)] == proc
  {}

  lemma LessAgain(proc: map<nat, Image>, j: nat, img: Image)
    requires j !in proc
    ensures Less(proc[j := img], j) == proc
  {}

  lemma PagesFit(mem: Mem, s: Space, n: nat)
    requires UserPages(mem, s, n)
    ensures n <= TRAPFRAME
  {}

  lemma FrameSame(m0: Mem, r0: map<nat, Role>, s0: Spaces, m1: Mem, r1: map<nat, Role>, s1: Spaces, r: nat, tf: nat,
                  p: nat)
    requires Spawned(m0, r0, s0, m1, r1, s1, r, tf) && p in r0 && r0[p].Frame?
    ensures p in m0 && p in m1 && m1[p] == m0[p] && p != tf && p in r1 && r1[p].Frame?
  {
    hide Leaf;
  }

  lemma FrameKept(m0: Mem, r0: map<nat, Role>, s0: Spaces, m1: Mem, r1: map<nat, Role>, s1: Spaces, r: nat, n: nat,
                  p: nat, q: nat)
    requires Grew(m0, r0, s0, m1, r1, s1, r, 0, n) && p in r0 && r0[p].Frame? && q in r0 && r0[q].Frame?
    ensures p in m0 && p in m1 && m1[p] == m0[p] && q in m1 && q in r1 && r1[q].Frame?
  {
    hide Leaf;
  }

  lemma StoredImages(m0: Mem, m1: Mem, sp: Spaces, proc: map<nat, Image>, tramp: nat)
    requires ImagesOk(m0, sp, proc, tramp) && SameLeaves(m0, m1, sp)
    ensures ImagesOk(m1, sp, proc, tramp)
  {
    hide Leaf, ImageOk;
    forall i | i in proc ensures ImageOk(m1, sp[proc[i].pagetable], proc[i].sz, proc[i].trapframe, tramp) {
      ImageSame(m0, sp[proc[i].pagetable], m1, sp[proc[i].pagetable], proc[i].sz, proc[i].trapframe, tramp);
    }
  }
}
