/** The inode table of kernel/fs.c: iget(), idup(), ilock(), iupdate(), iunlock(), iput() and ialloc(), as the
    steps of any number of threads. What itable.lock protects is one step; iput() drops that lock in between. */
module ITable {
  datatype Id = Id(dev: nat, inum: nat)

  /** An inode's fields on disk; `rest` stands for the device numbers, the size and the block addresses. */
  datatype Dinode = Dinode(kind: nat, nlink: nat, rest: seq<nat>)

  datatype Lock = Open | By(thread: nat)

  /** A slot of the table. `holders` are the threads that hold its references, one by one. */
  datatype Slot = Slot(id: Id, holders: multiset<nat>, valid: bool, copy: Dinode, lock: Lock)

  /** How far a thread has come in iput()'s freeing of an inode. */
  datatype Phase = Truncating | Erased | Dropping
  datatype Freeing = Freeing(slot: nat, phase: Phase)

  datatype State = State(disk: map<Id, Dinode>, slots: seq<Slot>, freeing: map<nat, Freeing>)

  function Ref(x: Slot): nat {
    |x.holders|
  }

  datatype Action =
    | Iget(thread: nat, id: Id, slot: nat)
    | Idup(thread: nat, slot: nat, other: nat)      // thread gives `other` a reference of its own
    | Acquire(thread: nat, slot: nat)               // ilock(): the sleep-lock
    | Load(thread: nat, slot: nat)                  // ilock(): reading the inode
    | Modify(thread: nat, slot: nat, to: Dinode)    // a change to the fields under the lock
    | Iupdate(thread: nat, slot: nat)
    | Iunlock(thread: nat, slot: nat)
    | Iput(thread: nat, slot: nat)                  // iput() that only drops a reference
    | IputLast(thread: nat, slot: nat)              // iput() of the last reference to an inode without links
    | IputErase(thread: nat)                        // itrunc(), type = 0, iupdate()
    | IputRelease(thread: nat)                      // valid = 0, releasesleep()
    | IputDrop(thread: nat)                         // ref--, under itable.lock again
    | Ialloc(id: Id, kind: nat)                     // the write that claims a free inode on disk

  /** iget()'s choice of slot: the one that holds the inode, else the first without references. */
  predicate IsSlot(s: State, id: Id, i: nat) {
    && i < |s.slots|
    && if Ref(s.slots[i]) > 0 then s.slots[i].id == id
       else forall j | 0 <= j < |s.slots| ::
         (Ref(s.slots[j]) > 0 ==> s.slots[j].id != id) && (j < i ==> Ref(s.slots[j]) > 0)
  }

  /** A thread that holds a reference and is not inside iput(). */
  predicate Holding(s: State, t: nat, i: nat) {
    i < |s.slots| && t in s.slots[i].holders && t !in s.freeing
  }

  predicate Locked(s: State, t: nat, i: nat) {
    Holding(s, t, i) && s.slots[i].lock == By(t)
  }

  /** What iput() tests under itable.lock. */
  predicate LastOfUnlinked(x: Slot) {
    Ref(x) == 1 && x.valid && x.copy.nlink == 0
  }

  /** The panics of ilock() ("no type") and iget() ("no inodes") are steps that cannot be taken. The file system
      changes a type only to free an inode, and calls iupdate() before it unlocks. */
  predicate Enabled(s: State, a: Action) {
    match a
    case Iget(t, id, i) => IsSlot(s, id, i) && id in s.disk && t !in s.freeing
    case Idup(t, i, other) => Holding(s, t, i) && other !in s.freeing
    case Acquire(t, i) => Holding(s, t, i) && s.slots[i].lock.Open?
    case Load(t, i) =>
      && Locked(s, t, i) && !s.slots[i].valid && s.slots[i].id in s.disk
      && s.disk[s.slots[i].id].kind != 0
    case Modify(t, i, to) => Locked(s, t, i) && s.slots[i].valid && to.kind != 0
    case Iupdate(t, i) => Locked(s, t, i) && s.slots[i].valid
    case Iunlock(t, i) =>
      Locked(s, t, i) && s.slots[i].valid && s.slots[i].id in s.disk && s.slots[i].copy == s.disk[s.slots[i].id]
    case Iput(t, i) => Holding(s, t, i) && s.slots[i].lock != By(t) && !LastOfUnlinked(s.slots[i])
    case IputLast(t, i) => Holding(s, t, i) && s.slots[i].lock != By(t) && LastOfUnlinked(s.slots[i])
    case IputErase(t) => t in s.freeing && s.freeing[t].phase.Truncating? && s.freeing[t].slot < |s.slots|
    case IputRelease(t) => t in s.freeing && s.freeing[t].phase.Erased? && s.freeing[t].slot < |s.slots|
    case IputDrop(t) => t in s.freeing && s.freeing[t].phase.Dropping? && s.freeing[t].slot < |s.slots|
    case Ialloc(id, kind) => id in s.disk && s.disk[id].kind == 0 && kind != 0
  }

  function Put(s: State, i: nat, x: Slot): State
    requires i < |s.slots|
  {
    s.(slots := s.slots[i := x])
  }

  function Apply(s: State, a: Action): State
    requires Enabled(s, a)
  {
    match a
    case Iget(t, id, i) =>
      var x := s.slots[i];
      Put(s, i, if Ref(x) > 0 then x.(holders := x.holders + multiset{t})
                else x.(id := id, holders := multiset{t}, valid := false))
    case Idup(t, i, other) => Put(s, i, s.slots[i].(holders := s.slots[i].holders + multiset{other}))
    case Acquire(t, i) => Put(s, i, s.slots[i].(lock := By(t)))
    case Load(t, i) => Put(s, i, s.slots[i].(copy := s.disk[s.slots[i].id], valid := true))
    case Modify(t, i, to) => Put(s, i, s.slots[i].(copy := to))
    case Iupdate(t, i) => s.(disk := s.disk[s.slots[i].id := s.slots[i].copy])
    case Iunlock(t, i) => Put(s, i, s.slots[i].(lock := Open))
    case Iput(t, i) => Put(s, i, s.slots[i].(holders := s.slots[i].holders - multiset{t}))
    case IputLast(t, i) =>
      Put(s, i, s.slots[i].(lock := By(t))).(freeing := s.freeing[t := Freeing(i, Truncating)])
    case IputErase(t) =>
      var i := s.freeing[t].slot;
      var gone := Dinode(0, 0, []);
      Put(s, i, s.slots[i].(copy := gone))
      .(disk := s.disk[s.slots[i].id := gone], freeing := s.freeing[t := Freeing(i, Erased)])
    case IputRelease(t) =>
      var i := s.freeing[t].slot;
      Put(s, i, s.slots[i].(valid := false, lock := Open)).(freeing := s.freeing[t := Freeing(i, Dropping)])
    case IputDrop(t) =>
      var i := s.freeing[t].slot;
      Put(s, i, s.slots[i].(holders := s.slots[i].holders - multiset{t}))
      .(freeing := map x | x in s.freeing && x != t :: s.freeing[x])
    case Ialloc(id, kind) => s.(disk := s.disk[id := Dinode(kind, 0, [])])
  }

  predicate Init(s: State) {
    s.freeing == map[] && forall i | 0 <= i < |s.slots| :: s.slots[i].holders == multiset{} && s.slots[i].lock.Open?
  }

  predicate IsRun(run: seq<State>, acts: seq<Action>) {
    && |run| == |acts| + 1 && Init(run[0])
    && forall j | 0 <= j < |acts| :: Enabled(run[j], acts[j]) && run[j + 1] == Apply(run[j], acts[j])
  }

  // ----- the invariant -----

  /** At most one slot in use per inode. */
  ghost predicate UniqueOk(s: State) {
    forall i, j | 0 <= i < j < |s.slots| && Ref(s.slots[i]) > 0 && Ref(s.slots[j]) > 0 :: s.slots[i].id != s.slots[j].id
  }

  /** The thread that has slot i locked is past writing type 0 to disk. */
  predicate HasErased(s: State, i: nat)
    requires i < |s.slots|
  {
    var l := s.slots[i].lock;
    l.By? && l.thread in s.freeing && s.freeing[l.thread] == Freeing(i, Erased)
  }

  ghost predicate SlotOk(s: State, i: nat)
    requires i < |s.slots|
  {
    var x := s.slots[i];
    && (x.lock.By? ==> x.lock.thread in x.holders)
    && (Ref(x) > 0 ==> x.id in s.disk)
    && (Ref(x) > 0 && x.valid && !HasErased(s, i) ==> x.copy.kind != 0 && s.disk[x.id].kind != 0)
    && (Ref(x) > 0 && x.valid && x.lock.Open? ==> x.copy == s.disk[x.id])
  }

  ghost predicate FreeingOk(s: State, t: nat)
    requires t in s.freeing
  {
    var f := s.freeing[t];
    && f.slot < |s.slots| && t in s.slots[f.slot].holders
    && (f.phase.Dropping? <==> s.slots[f.slot].lock != By(t))
    && (!f.phase.Dropping? ==> s.slots[f.slot].valid)
  }

  ghost predicate Inv(s: State) {
    && UniqueOk(s) && (forall i | 0 <= i < |s.slots| :: SlotOk(s, i))
    && (forall t | t in s.freeing :: FreeingOk(s, t))
  }

  lemma InitInv(s: State)
    requires Init(s)
    ensures Inv(s)
  {}

  // ----- each step -----

  lemma OneHolder(h: multiset<nat>, t: nat, u: nat)
    requires |h| == 1 && t in h && u in h
    ensures t == u
  {
    var r := h - multiset{t};
    assert h == r + multiset{t};
    assert |r| == 0 && u !in r;
  }

  /** iput() claims that the lock it takes on the last reference is free. */
  lemma IputCannotBlock(s: State, t: nat, i: nat)
    requires Inv(s) && Holding(s, t, i) && s.slots[i].lock != By(t) && LastOfUnlinked(s.slots[i])
    ensures s.slots[i].lock.Open?
  {
    assert SlotOk(s, i);
    if s.slots[i].lock.By? {
      OneHolder(s.slots[i].holders, t, s.slots[i].lock.thread);
    }
  }

  /** Steps of threads that hold a slot, seen from that slot. */
  lemma PutKeeps(s: State, i: nat, x: Slot)
    requires Inv(s) && i < |s.slots| && Ref(s.slots[i]) > 0 && Ref(x) > 0 && x.id == s.slots[i].id
    requires SlotOk(Put(s, i, x), i)
    requires forall t | t in s.freeing && s.freeing[t].slot == i :: FreeingOk(Put(s, i, x), t)
    ensures Inv(Put(s, i, x))
  {
    var s' := Put(s, i, x);
    forall j | 0 <= j < |s'.slots| ensures SlotOk(s', j) {
      assert SlotOk(s, j);
    }
    forall t | t in s'.freeing ensures FreeingOk(s', t) {
      assert FreeingOk(s, t);
    }
  }

  lemma IgetKeeps(s: State, a: Action)
    requires Inv(s) && a.Iget? && Enabled(s, a)
    ensures Inv(Apply(s, a))
  {
    var s' := Apply(s, a);
    assert SlotOk(s, a.slot);
    if Ref(s.slots[a.slot]) > 0 {
      forall t | t in s.freeing && s.freeing[t].slot == a.slot ensures FreeingOk(s', t) {
        assert FreeingOk(s, t);
      }
      PutKeeps(s, a.slot, s'.slots[a.slot]);
    } else {
      forall j | 0 <= j < |s'.slots| ensures SlotOk(s', j) {
        assert SlotOk(s, j);
      }
      forall t | t in s'.freeing ensures FreeingOk(s', t) {
        assert FreeingOk(s, t);
      }
    }
  }

  lemma HoldKeeps(s: State, a: Action)
    requires Inv(s) && (a.Idup? || a.Acquire? || a.Load? || a.Modify? || a.Iunlock?) && Enabled(s, a)
    ensures Inv(Apply(s, a))
  {
    var s' := Apply(s, a);
    assert SlotOk(s, a.slot);
    forall t | t in s.freeing && s.freeing[t].slot == a.slot ensures FreeingOk(s', t) {
      assert FreeingOk(s, t);
    }
    PutKeeps(s, a.slot, s'.slots[a.slot]);
  }

  lemma IupdateKeeps(s: State, a: Action)
    requires Inv(s) && a.Iupdate? && Enabled(s, a)
    ensures Inv(Apply(s, a))
  {
    var s' := Apply(s, a);
    assert SlotOk(s, a.slot);
    forall j | 0 <= j < |s'.slots| ensures SlotOk(s', j) {
      assert SlotOk(s, j);
    }
    forall t | t in s'.freeing ensures FreeingOk(s', t) {
      assert FreeingOk(s, t);
    }
  }

  lemma IallocKeeps(s: State, a: Action)
    requires Inv(s) && a.Ialloc? && Enabled(s, a)
    ensures Inv(Apply(s, a))
  {
    var s' := Apply(s, a);
    forall j | 0 <= j < |s'.slots| ensures SlotOk(s', j) {
      assert SlotOk(s, j);
    }
    forall t | t in s'.freeing ensures FreeingOk(s', t) {
      assert FreeingOk(s, t);
    }
  }

  /** A reference less: the other threads keep theirs, and with them their locks. */
  lemma PutBack(s: State, i: nat, t: nat, s': State)
    requires Inv(s) && i < |s.slots| && t in s.slots[i].holders && s.slots[i].lock != By(t) && s'.disk == s.disk
    requires s'.slots == s.slots[i := s.slots[i].(holders := s.slots[i].holders - multiset{t})]
    requires forall u | u in s'.freeing :: u != t && u in s.freeing && s'.freeing[u] == s.freeing[u]
    requires forall u | u in s.freeing && u != t :: u in s'.freeing
    requires t in s.freeing ==> !s.freeing[t].phase.Erased?
    ensures Inv(s')
  {
    assert forall j | 0 <= j < |s.slots| :: Ref(s'.slots[j]) <= Ref(s.slots[j]);
    hide SlotOk, FreeingOk;
    forall j | 0 <= j < |s'.slots| ensures SlotOk(s', j) {
      PutSlot(s, i, t, s', j);
    }
    forall u | u in s'.freeing ensures FreeingOk(s', u) {
      PutFreeing(s, i, t, s', u);
    }
  }

  lemma PutSlot(s: State, i: nat, t: nat, s': State, j: nat)
    requires i < |s.slots| && j < |s.slots| && SlotOk(s, j)
    requires t in s.slots[i].holders && s.slots[i].lock != By(t) && s'.disk == s.disk
    requires s'.slots == s.slots[i := s.slots[i].(holders := s.slots[i].holders - multiset{t})]
    requires forall u | u in s.freeing && u != t :: u in s'.freeing && s'.freeing[u] == s.freeing[u]
    requires t in s.freeing ==> !s.freeing[t].phase.Erased?
    ensures SlotOk(s', j)
  {}

  lemma PutFreeing(s: State, i: nat, t: nat, s': State, u: nat)
    requires i < |s.slots| && u != t && u in s.freeing && FreeingOk(s, u) && u in s'.freeing
    requires s'.slots == s.slots[i := s.slots[i].(holders := s.slots[i].holders - multiset{t})]
    requires s'.freeing[u] == s.freeing[u]
    ensures FreeingOk(s', u)
  {}

  lemma IputKeeps(s: State, a: Action)
    requires Inv(s) && (a.Iput? || a.IputDrop?) && Enabled(s, a)
    ensures Inv(Apply(s, a))
  {
    hide UniqueOk, SlotOk;
    if a.IputDrop? {
      assert FreeingOk(s, a.thread);
      PutBack(s, s.freeing[a.thread].slot, a.thread, Apply(s, a));
    } else {
      PutBack(s, a.slot, a.thread, Apply(s, a));
    }
  }

  lemma IputLastKeeps(s: State, a: Action)
    requires Inv(s) && a.IputLast? && Enabled(s, a)
    ensures Inv(Apply(s, a))
  {
    var s' := Apply(s, a);
    IputCannotBlock(s, a.thread, a.slot);
    forall j | 0 <= j < |s'.slots| ensures SlotOk(s', j) {
      assert SlotOk(s, j);
    }
    forall t | t in s'.freeing ensures FreeingOk(s', t) {
      assert t in s.freeing ==> FreeingOk(s, t);
    }
  }

  lemma EraseKeeps(s: State, a: Action)
    requires Inv(s) && (a.IputErase? || a.IputRelease?) && Enabled(s, a)
    ensures Inv(Apply(s, a))
  {
    var s' := Apply(s, a);
    assert FreeingOk(s, a.thread);
    var i := s.freeing[a.thread].slot;
    assert SlotOk(s, i);
    forall j | 0 <= j < |s'.slots| ensures SlotOk(s', j) {
      assert SlotOk(s, j);
    }
    forall t | t in s'.freeing ensures FreeingOk(s', t) {
      assert FreeingOk(s, t);
    }
  }

  lemma Keeps(s: State, a: Action)
    requires Inv(s) && Enabled(s, a)
    ensures Inv(Apply(s, a))
  {
    hide Inv, Apply, Enabled;
    match a
    case Iget(_, _, _) => IgetKeeps(s, a);
    case Iupdate(_, _) => IupdateKeeps(s, a);
    case Ialloc(_, _) => IallocKeeps(s, a);
    case Iput(_, _) => IputKeeps(s, a);
    case IputDrop(_) => IputKeeps(s, a);
    case IputLast(_, _) => IputLastKeeps(s, a);
    case IputErase(_) => EraseKeeps(s, a);
    case IputRelease(_) => EraseKeeps(s, a);
    case _ => HoldKeeps(s, a);
  }

  // ----- every run -----

  lemma {:induction false} RunInv(run: seq<State>, acts: seq<Action>, j: nat)
    requires IsRun(run, acts) && j < |run|
    ensures Inv(run[j])
  {
    hide Inv, Apply, Enabled;
    if j == 0 {
      InitInv(run[0]);
    } else {
      RunInv(run, acts, j - 1);
      Keeps(run[j - 1], acts[j - 1]);
    }
  }

  /** At any time, at most one slot with references holds an inode. */
  lemma OneSlotPerInode(run: seq<State>, acts: seq<Action>, n: nat, i: nat, j: nat)
    requires IsRun(run, acts) && n < |run| && i < |run[n].slots| && j < |run[n].slots|
    requires Ref(run[n].slots[i]) > 0 && Ref(run[n].slots[j]) > 0 && run[n].slots[i].id == run[n].slots[j].id
    ensures i == j
  {
    RunInv(run, acts, n);
  }

  /** At any time, a valid slot whose sleep-lock is free agrees with the inode on disk, which is allocated. */
  lemma AgreesWithDisk(run: seq<State>, acts: seq<Action>, n: nat, i: nat)
    requires IsRun(run, acts) && n < |run| && i < |run[n].slots|
    requires var x := run[n].slots[i]; Ref(x) > 0 && x.valid && x.lock.Open?
    ensures var x := run[n].slots[i]; x.id in run[n].disk && x.copy == run[n].disk[x.id] && x.copy.kind != 0
  {
    RunInv(run, acts, n);
    assert SlotOk(run[n], i);
  }

  /** At any time, the sleep-lock that iput() takes while it holds itable.lock is free. */
  lemma IputNeverSleeps(run: seq<State>, acts: seq<Action>, n: nat, t: nat, i: nat)
    requires IsRun(run, acts) && n < |run| && Enabled(run[n], IputLast(t, i))
    ensures run[n].slots[i].lock.Open?
  {
    hide IsRun, Inv;
    RunBounds(run, acts);
    RunInv(run, acts, n);
    IputCannotBlock(run[n], t, i);
  }

  lemma RunBounds(run: seq<State>, acts: seq<Action>)
    requires IsRun(run, acts)
    ensures |run| == |acts| + 1
  {}

  // ----- the window in which iput() frees an inode -----

  /** No slot has a copy of the inode that a thread could use: it is not valid, or only the thread that has freed the
      inode holds it. */
  ghost predicate Unread(s: State, id: Id) {
    forall i | 0 <= i < |s.slots| && Ref(s.slots[i]) > 0 && s.slots[i].id == id && s.slots[i].valid :: HasErased(s, i)
  }

  lemma ErasedUnread(s: State, t: nat)
    requires Inv(s) && Enabled(s, IputErase(t))
    ensures Unread(Apply(s, IputErase(t)), s.slots[s.freeing[t].slot].id)
  {
    assert FreeingOk(s, t);
    var i := s.freeing[t].slot;
    var s' := Apply(s, IputErase(t));
    forall j | 0 <= j < |s'.slots| && Ref(s'.slots[j]) > 0 && s'.slots[j].id == s.slots[i].id ensures j == i {
      assert Ref(s.slots[i]) > 0 && Ref(s.slots[j]) > 0;
    }
  }

  /** A thread reads the inode from disk. */
  predicate Loads(s: State, a: Action, id: Id) {
    a.Load? && a.slot < |s.slots| && s.slots[a.slot].id == id
  }

  /** The step leaves the lock, and the thread that has freed the inode, alone. */
  lemma StaysErased(s: State, a: Action, i: nat)
    requires Inv(s) && Enabled(s, a) && i < |s.slots| && HasErased(s, i)
    requires i < |Apply(s, a).slots| && Apply(s, a).slots[i].valid
    ensures HasErased(Apply(s, a), i)
  {
    hide Inv;
    if a.IputLast? || a.IputErase? || a.IputRelease? || a.IputDrop? {
      FreeingStays(s, a, i);
    }
  }

  lemma FreeingStays(s: State, a: Action, i: nat)
    requires Inv(s) && Enabled(s, a) && (a.IputLast? || a.IputErase? || a.IputRelease? || a.IputDrop?)
    requires i < |s.slots| && HasErased(s, i) && i < |Apply(s, a).slots| && Apply(s, a).slots[i].valid
    ensures HasErased(Apply(s, a), i)
  {
    hide UniqueOk, SlotOk;
    if a.IputLast? {
      IputCannotBlock(s, a.thread, a.slot);
    } else {
      assert FreeingOk(s, a.thread);
    }
  }

  lemma WasValid(s: State, a: Action, id: Id, i: nat)
    requires Enabled(s, a) && !Loads(s, a, id) && i < |s.slots|
    requires var x := Apply(s, a).slots[i]; Ref(x) > 0 && x.id == id && x.valid
    ensures Ref(s.slots[i]) > 0 && s.slots[i].id == id && s.slots[i].valid
  {}

  lemma SameTable(s: State, a: Action)
    requires Enabled(s, a)
    ensures |Apply(s, a).slots| == |s.slots|
  {}

  lemma StaysUnread(s: State, a: Action, id: Id)
    requires Inv(s) && Enabled(s, a) && Unread(s, id) && !Loads(s, a, id)
    ensures Unread(Apply(s, a), id)
  {
    hide Inv, Enabled, Loads, HasErased, Apply;
    var s' := Apply(s, a);
    SameTable(s, a);
    forall i | 0 <= i < |s'.slots| && Ref(s'.slots[i]) > 0 && s'.slots[i].id == id && s'.slots[i].valid
      ensures HasErased(s', i)
    {
      WasValid(s, a, id, i);
      StaysErased(s, a, i);
    }
  }

  /** In every interleaving: once iput() has erased an inode, nobody gets to see what it was. A thread with a usable
      copy has read it from disk since, and so sees what ialloc() has made of it. */
  lemma {:induction false} FreedIsNotSeen(run: seq<State>, acts: seq<Action>, j: nat, k: nat, id: Id)
    requires IsRun(run, acts) && j < k < |run| && acts[j].IputErase? && acts[j].thread in run[j].freeing
    requires run[j].freeing[acts[j].thread].slot < |run[j].slots|
    requires run[j].slots[run[j].freeing[acts[j].thread].slot].id == id
    ensures Unread(run[k], id) || exists l :: j < l < k && Loads(run[l], acts[l], id)
    decreases k
  {
    hide Inv, Apply, Unread, Loads;
    RunInv(run, acts, k - 1);
    if k == j + 1 {
      ErasedUnread(run[j], acts[j].thread);
    } else {
      FreedIsNotSeen(run, acts, j, k - 1, id);
      if !(exists l :: j < l < k && Loads(run[l], acts[l], id)) {
        assert !Loads(run[k - 1], acts[k - 1], id);
        StaysUnread(run[k - 1], acts[k - 1], id);
      }
    }
  }

  /** While thread t frees an inode, ialloc() may hand its number out again to thread u. They share the slot, and
      once t has let go of the lock, u reads the new inode. */
  lemma ReuseIsFresh(s: State, t: nat, u: nat, kind: nat)
    requires Inv(s) && t in s.freeing && s.freeing[t].phase.Erased? && u !in s.freeing && kind != 0
    requires s.freeing[t].slot < |s.slots|
    requires s.slots[s.freeing[t].slot].id in s.disk && s.disk[s.slots[s.freeing[t].slot].id].kind == 0
    ensures var i := s.freeing[t].slot; var id := s.slots[i].id;
      && Enabled(s, Ialloc(id, kind)) && var s1 := Apply(s, Ialloc(id, kind));
      && Enabled(s1, Iget(u, id, i)) && var s2 := Apply(s1, Iget(u, id, i));
      && Enabled(s2, IputRelease(t)) && var s3 := Apply(s2, IputRelease(t));
      && Enabled(s3, Acquire(u, i)) && var s4 := Apply(s3, Acquire(u, i));
      && Enabled(s4, Load(u, i)) && Apply(s4, Load(u, i)).slots[i].copy == Dinode(kind, 0, [])
  {
    assert FreeingOk(s, t);
  }
}
