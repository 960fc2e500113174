/** What the references in the inode table are, over every run: who holds how many, and which inodes get freed. */
module ITableRefs {
  import opened ITable

  // ----- references -----

  /** How many references to inode id thread t holds. */
  function Held(slots: seq<Slot>, t: nat, id: Id): nat {
    if slots == [] then 0
    else (if slots[0].id == id then slots[0].holders[t] else 0) + Held(slots[1..], t, id)
  }

  function Share(x: Slot, t: nat, id: Id): nat {
    if x.id == id then x.holders[t] else 0
  }

  lemma {:induction false} HeldPut(slots: seq<Slot>, i: nat, x: Slot, t: nat, id: Id)
    requires i < |slots|
    ensures Held(slots[i := x], t, id) + Share(slots[i], t, id) == Held(slots, t, id) + Share(x, t, id)
  {
    if i == 0 {
      assert slots[i := x][1..] == slots[1..];
    } else {
      assert slots[i := x][1..] == slots[1..][i - 1 := x];
      HeldPut(slots[1..], i - 1, x, t, id);
    }
  }

  /** What a step does to that number: iget() and idup() give a reference, iput() takes one. */
  function Gained(s: State, a: Action, t: nat, id: Id): int
    requires Enabled(s, a)
  {
    match a
    case Iget(u, x, _) => if u == t && x == id then 1 else 0
    case Idup(_, i, u) => if u == t && s.slots[i].id == id then 1 else 0
    case Iput(u, i) => if u == t && s.slots[i].id == id then -1 else 0
    case IputDrop(u) => if u == t && s.slots[s.freeing[u].slot].id == id then -1 else 0
    case _ => 0
  }

  ghost function Balance(run: seq<State>, acts: seq<Action>, j: nat, t: nat, id: Id): int
    requires IsRun(run, acts) && j <= |acts|
  {
    if j == 0 then 0 else Balance(run, acts, j - 1, t, id) + Gained(run[j - 1], acts[j - 1], t, id)
  }

  lemma {:induction false} NobodyHolds(slots: seq<Slot>, t: nat, id: Id)
    requires forall i | 0 <= i < |slots| :: slots[i].holders == multiset{}
    ensures Held(slots, t, id) == 0
  {
    if slots != [] {
      assert slots[0].holders == multiset{};
      NobodyHolds(slots[1..], t, id);
    }
  }

  lemma StepHeld(s: State, a: Action, t: nat, id: Id)
    requires Inv(s) && Enabled(s, a)
    ensures Held(Apply(s, a).slots, t, id) == Held(s.slots, t, id) + Gained(s, a, t, id)
  {
    hide UniqueOk, SlotOk;
    if a.Iupdate? || a.Ialloc? {
      assert Apply(s, a).slots == s.slots;
    } else {
      var i := SlotOf(s, a);
      if a.IputErase? || a.IputRelease? || a.IputDrop? { assert FreeingOk(s, a.thread); }
      OneSlot(s, a, i);
      var x := Apply(s, a).slots[i];
      HeldPut(s.slots, i, x, t, id);
      ShareStep(s, a, i, t, id);
    }
  }

  /** The slot that a step is about. */
  function SlotOf(s: State, a: Action): nat
    requires Enabled(s, a) && !a.Iupdate? && !a.Ialloc?
  {
    if a.IputErase? || a.IputRelease? || a.IputDrop? then s.freeing[a.thread].slot else a.slot
  }

  lemma OneSlot(s: State, a: Action, i: nat)
    requires Enabled(s, a) && !a.Iupdate? && !a.Ialloc? && i == SlotOf(s, a)
    ensures i < |s.slots| == |Apply(s, a).slots| && Apply(s, a).slots == s.slots[i := Apply(s, a).slots[i]]
  {}

  lemma ShareStep(s: State, a: Action, i: nat, t: nat, id: Id)
    requires Enabled(s, a) && !a.Iupdate? && !a.Ialloc? && i == SlotOf(s, a) && i < |s.slots| == |Apply(s, a).slots|
    requires a.IputDrop? ==> a.thread in s.slots[i].holders
    ensures Share(Apply(s, a).slots[i], t, id) == Share(s.slots[i], t, id) + Gained(s, a, t, id)
  {
    if a.Iget? && Ref(s.slots[i]) == 0 {
      assert s.slots[i].holders == multiset{};
    }
  }

  /** In every run, a thread holds as many references to an inode as its iget()s and the idup()s in its favour have
      given it and its iput()s have not taken back. */
  lemma {:induction false} ReferencesCounted(run: seq<State>, acts: seq<Action>, j: nat, t: nat, id: Id)
    requires IsRun(run, acts) && j < |run|
    ensures Held(run[j].slots, t, id) == Balance(run, acts, j, t, id)
  {
    hide Inv, Enabled, Apply, Gained;
    if j == 0 {
      NobodyHolds(run[0].slots, t, id);
    } else {
      ReferencesCounted(run, acts, j - 1, t, id);
      RunInv(run, acts, j - 1);
      StepHeld(run[j - 1], acts[j - 1], t, id);
    }
  }

  // ----- freeing -----

  /** A thread that is about to erase an inode has it locked, with no links, as it is on disk. */
  ghost predicate TruncOk(s: State, t: nat) {
    t in s.freeing && s.freeing[t].phase.Truncating? ==>
      var i := s.freeing[t].slot;
      && i < |s.slots| && s.slots[i].id in s.disk && s.slots[i].copy == s.disk[s.slots[i].id]
      && s.slots[i].copy.nlink == 0
  }

  lemma KeepsTrunc(s: State, a: Action, t: nat)
    requires Inv(s) && Enabled(s, a) && TruncOk(s, t)
    ensures TruncOk(Apply(s, a), t)
  {
    var s' := Apply(s, a);
    if t in s'.freeing && s'.freeing[t].phase.Truncating? {
      if a.IputLast? && a.thread == t {
        IputCannotBlock(s, t, a.slot);
        assert SlotOk(s, a.slot);
      } else {
        assert FreeingOk(s, t);
        TruncSlot(s, a, t);
        TruncDisk(s, a, t);
      }
    }
  }

  /** Nobody but the thread itself touches the locked slot. */
  lemma TruncSlot(s: State, a: Action, t: nat)
    requires Inv(s) && Enabled(s, a) && t in s.freeing && s.freeing[t].phase.Truncating?
    requires t in Apply(s, a).freeing && Apply(s, a).freeing[t].phase.Truncating? && !(a.IputLast? && a.thread == t)
    ensures Apply(s, a).freeing[t] == s.freeing[t] && s.freeing[t].slot < |s.slots| == |Apply(s, a).slots|
    ensures var i := s.freeing[t].slot;
      Apply(s, a).slots[i].id == s.slots[i].id && Apply(s, a).slots[i].copy == s.slots[i].copy
  {
    hide UniqueOk, SlotOk;
    assert FreeingOk(s, t);
    if a.IputErase? || a.IputRelease? || a.IputDrop? { assert FreeingOk(s, a.thread); }
  }

  /** Nor the inode on disk. */
  lemma TruncDisk(s: State, a: Action, t: nat)
    requires Inv(s) && Enabled(s, a) && t in s.freeing && s.freeing[t].phase.Truncating?
    requires t in Apply(s, a).freeing && Apply(s, a).freeing[t].phase.Truncating? && s.freeing[t].slot < |s.slots|
    ensures var id := s.slots[s.freeing[t].slot].id; id in s.disk ==>
      id in Apply(s, a).disk && Apply(s, a).disk[id] == s.disk[id]
  {
    assert FreeingOk(s, t);
    var i := s.freeing[t].slot;
    assert SlotOk(s, i) && Ref(s.slots[i]) > 0 && !HasErased(s, i);
    if a.Iupdate? {
      assert Ref(s.slots[a.slot]) > 0;
    } else if a.IputErase? {
      assert FreeingOk(s, a.thread);
      assert Ref(s.slots[s.freeing[a.thread].slot]) > 0;
    }
  }

  lemma {:induction false} RunTrunc(run: seq<State>, acts: seq<Action>, j: nat, t: nat)
    requires IsRun(run, acts) && j < |run|
    ensures TruncOk(run[j], t)
  {
    hide Inv, Enabled, Apply;
    if j > 0 {
      RunTrunc(run, acts, j - 1, t);
      RunInv(run, acts, j - 1);
      KeepsTrunc(run[j - 1], acts[j - 1], t);
    }
  }

  /** In every run, iput() erases only inodes that have no links on disk and are not free already. */
  lemma FreesUnlinked(run: seq<State>, acts: seq<Action>, j: nat)
    requires IsRun(run, acts) && j < |acts| && acts[j].IputErase?
    ensures Enabled(run[j], acts[j])
    ensures var s, t := run[j], acts[j].thread; var id := s.slots[s.freeing[t].slot].id;
      && id in s.disk && s.disk[id].nlink == 0 && s.disk[id].kind != 0
      && run[j + 1].disk == s.disk[id := Dinode(0, 0, [])]
  {
    RunTrunc(run, acts, j, acts[j].thread);
    RunInv(run, acts, j);
    assert FreeingOk(run[j], acts[j].thread);
    assert SlotOk(run[j], run[j].freeing[acts[j].thread].slot);
  }
}
