/** The same functions of kernel/fs.c as code: the loop of iget(), and each function as the steps it takes. */
module ITableCode {
  import opened ITable

  class Table {
    var disk: map<Id, Dinode>
    var slots: seq<Slot>
    ghost var freeing: map<nat, Freeing>

    ghost function Now(): State
      reads this
    {
      State(disk, slots, freeing)
    }

    /** iget(); None is panic("iget: no inodes"), which needs every slot to be in use for another inode. */
    method Iget(t: nat, id: Id) returns (i: nat, ok: bool)
      requires Inv(Now()) && id in disk && t !in freeing
      modifies this`slots
      ensures Inv(Now())
      ensures ok ==> Enabled(old(Now()), ITable.Iget(t, id, i)) && Now() == Apply(old(Now()), ITable.Iget(t, id, i))
      ensures ok ==> Holding(Now(), t, i) && i < |old(slots)| && slots == old(slots)[i := slots[i]] && slots[i].id == id
      ensures ok && |old(slots)[i].holders| > 0 ==>
        slots[i] == old(slots)[i].(holders := old(slots)[i].holders + multiset{t})
      ensures ok && |old(slots)[i].holders| == 0 ==>
        && slots[i] == old(slots)[i].(id := id, holders := multiset{t}, valid := false)
        && (forall j | 0 <= j < |slots| && |old(slots)[j].holders| > 0 :: old(slots)[j].id != id)
        && (forall j | 0 <= j < i :: |old(slots)[j].holders| > 0)
      ensures !ok ==> Now() == old(Now()) && forall j | 0 <= j < |slots| :: Ref(slots[j]) > 0 && slots[j].id != id
    {
      hide Inv;
      var empty: nat := |slots|;
      i := 0;
      while i < |slots|
        invariant 0 <= i <= |slots| && slots == old(slots) && empty <= |slots|
        invariant forall j | 0 <= j < i :: Ref(slots[j]) > 0 ==> slots[j].id != id
        invariant forall j | 0 <= j < i && j < empty :: Ref(slots[j]) > 0
        invariant empty < |slots| ==> empty < i && Ref(slots[empty]) == 0
      {
        if Ref(slots[i]) > 0 && slots[i].id == id {
          Keeps(Now(), ITable.Iget(t, id, i));
          slots := slots[i := slots[i].(holders := slots[i].holders + multiset{t})];
          return i, true;
        }
        if empty == |slots| && Ref(slots[i]) == 0 {
          empty := i;
        }
        i := i + 1;
      }
      if empty == |slots| {
        return 0, false;
      }
      i := empty;
      Keeps(Now(), ITable.Iget(t, id, i));
      slots := slots[i := slots[i].(id := id, holders := multiset{t}, valid := false)];
      return i, true;
    }

    /** ilock() once the sleep-lock is free; false is panic("ilock: no type"). */
    method Ilock(t: nat, i: nat) returns (ok: bool)
      requires Inv(Now()) && Holding(Now(), t, i) && slots[i].lock.Open?
      modifies this`slots
      ensures Inv(Now()) && i < |slots| && slots[i].lock == By(t) && i < |old(slots)| && slots[i].id in disk
      ensures ok ==> slots[i].valid && slots[i].copy == disk[slots[i].id] && slots[i].copy.kind != 0
      ensures ok <==> old(slots)[i].valid || disk[slots[i].id].kind != 0
      ensures slots == old(slots)[i := old(slots)[i].(lock := By(t), valid := ok, copy := slots[i].copy)]
      ensures old(slots)[i].valid || !ok ==> slots[i].copy == old(slots)[i].copy
    {
      assert SlotOk(Now(), i);
      hide Inv;
      Keeps(Now(), Acquire(t, i));
      slots := slots[i := slots[i].(lock := By(t))];
      if !slots[i].valid {
        if disk[slots[i].id].kind == 0 {
          return false;
        }
        Keeps(Now(), Load(t, i));
        slots := slots[i := slots[i].(copy := disk[slots[i].id], valid := true)];
      }
      return true;
    }

    /** The part of iput() that frees an inode on disk, up to where it takes itable.lock again. */
    method FreeInode(t: nat, i: nat)
      requires Inv(Now()) && Holding(Now(), t, i) && slots[i].lock != By(t) && LastOfUnlinked(slots[i])
      modifies this
      ensures Inv(Now()) && i < |old(slots)| && disk == old(disk)[old(slots)[i].id := Dinode(0, 0, [])]
      ensures slots == old(slots)[i := old(slots)[i].(copy := Dinode(0, 0, []), valid := false, lock := Open)]
      ensures freeing == old(freeing)[t := Freeing(i, Dropping)]
    {
      hide Inv;
      IputCannotBlock(Now(), t, i);
      Keeps(Now(), IputLast(t, i));
      slots := slots[i := slots[i].(lock := By(t))];
      freeing := freeing[t := Freeing(i, Truncating)];
      Keeps(Now(), IputErase(t));
      slots := slots[i := slots[i].(copy := Dinode(0, 0, []))];
      disk := disk[slots[i].id := slots[i].copy];
      freeing := freeing[t := Freeing(i, Erased)];
      Keeps(Now(), IputRelease(t));
      slots := slots[i := slots[i].(valid := false, lock := Open)];
      freeing := freeing[t := Freeing(i, Dropping)];
    }

    /** iput() from start to end, when no other thread comes in between. */
    method Iput(t: nat, i: nat)
      requires Inv(Now()) && Holding(Now(), t, i) && slots[i].lock != By(t)
      modifies this
      ensures Inv(Now()) && i < |old(slots)| && freeing == old(freeing)
      ensures
        if |old(slots)[i].holders| == 1 && old(slots)[i].valid && old(slots)[i].copy.nlink == 0 then
          && disk == old(disk)[old(slots)[i].id := Dinode(0, 0, [])]
          && slots ==
             old(slots)[i := Slot(old(slots)[i].id, old(slots)[i].holders - multiset{t}, false, Dinode(0, 0, []), Open)]
        else
          disk == old(disk) && slots == old(slots)[i := old(slots)[i].(holders := old(slots)[i].holders - multiset{t})]
    {
      hide Inv;
      if LastOfUnlinked(slots[i]) {
        FreeInode(t, i);
        Keeps(Now(), IputDrop(t));
        freeing := map x | x in freeing && x != t :: freeing[x];
        assert freeing == old(freeing);
      } else {
        Keeps(Now(), ITable.Iput(t, i));
      }
      slots := slots[i := slots[i].(holders := slots[i].holders - multiset{t})];
    }
  }
}
