/** kernel/virtio_disk.c as code: the descriptor allocator, and virtio_disk_rw() and virtio_disk_intr() in the parts
    that run under vdisk_lock, each proved to be steps of the machine. */
module VirtioCode {
  import opened Options
  import opened Virtio
  import opened VirtioProof

  class Disk {
    const free: array<bool>
    const desc: array<Desc>

    ghost predicate Valid()
      reads this
    {
      free.Length == desc.Length == NUM
    }

    constructor ()
      ensures Valid() && fresh(free) && fresh(desc) && forall i | 0 <= i < NUM :: free[i]
    {
      free := new bool[NUM](_ => true);
      desc := new Desc[NUM](_ => Desc(0, false));
    }

    /** alloc_desc(); NUM stands for -1. */
    method AllocDesc() returns (i: nat)
      requires Valid()
      modifies free
      ensures i == FirstFree(old(free[..])) && i <= NUM
      ensures free[..] == if i < NUM then old(free[..])[i := false] else old(free[..])
    {
      i := 0;
      while i < NUM
        invariant 0 <= i <= NUM && free[..] == old(free[..]) && forall j | 0 <= j < i :: !free[j]
      {
        if free[i] {
          assert i == FirstFree(old(free[..]));
          free[i] := false;
          return;
        }
        i := i + 1;
      }
    }

    /** free_desc() of a descriptor in use; its two panics are for others. */
    method FreeDesc(i: nat)
      requires Valid() && i < NUM && !free[i]
      modifies free, desc
      ensures free[..] == old(free[..])[i := true] && desc[..] == old(desc[..])[i := Desc(0, false)]
    {
      desc[i] := Desc(0, false);
      free[i] := true;
    }

    /** alloc3_desc(): all or nothing. */
    method Alloc3Desc() returns (r: Option<Chain>)
      requires Valid()
      modifies free, desc
      ensures r == Alloc3(old(free[..]))
      ensures r.None? ==> free[..] == old(free[..]) && forall i | 0 <= i < NUM && !free[i] :: desc[i] == old(desc[i])
      ensures r.Some? ==> desc[..] == old(desc[..]) && free[..] == Taken(old(free[..]), r.value)
    {
      var a := AllocDesc();
      if a == NUM {
        return None;
      }
      var b := AllocDesc();
      if b == NUM {
        FreeDesc(a);
        assert free[..] == old(free[..]);
        return None;
      }
      var c := AllocDesc();
      if c == NUM {
        FreeDesc(a);
        FreeDesc(b);
        assert free[..] == old(free[..]);
        return None;
      }
      return Some(Chain(a, b, c));
    }

    /** free_chain() of a request's chain: it frees the three descriptors and stops. */
    method FreeChain(head: nat, ghost c: Chain)
      requires Valid() && ChainOk(free[..], desc[..], c) && head == c.head
      modifies free, desc
      ensures free[..] == Returned(old(free[..]), c) && desc[..] == Unlinked(old(desc[..]), c)
    {
      var i, more := head, true;
      ghost var n := 0;
      while more
        invariant 0 <= n <= 3 && (more <==> n < 3) && (n < 3 ==> i == [c.head, c.data, c.status][n])
        invariant n == 0 ==> free[..] == old(free[..]) && desc[..] == old(desc[..])
        invariant n == 1 ==>
          free[..] == old(free[..])[c.head := true] && desc[..] == old(desc[..])[c.head := Desc(0, false)]
        invariant n == 2 ==>
          && free[..] == old(free[..])[c.head := true][c.data := true]
          && desc[..] == old(desc[..])[c.head := Desc(0, false)][c.data := Desc(0, false)]
        invariant n == 3 ==> free[..] == Returned(old(free[..]), c) && desc[..] == Unlinked(old(desc[..]), c)
        decreases 3 - n
      {
        assert i < NUM && !free[i] && desc[i] == old(desc[i]) by {
          assert free[..][i] == free[i] && desc[..][i] == desc[i] && old(desc[..])[i] == old(desc[i]);
        }
        var flag, nxt := desc[i].more, desc[i].next;
        FreeDesc(i);
        if flag {
          i := nxt;
        } else {
          more := false;
        }
        n := n + 1;
      }
    }
  }

  /** Descriptors that are free may hold anything. */
  lemma FreeDescsMayChange(s: State, desc: seq<Desc>, avail: seq<nat>, used: seq<nat>, who: map<nat, nat>)
    requires Inv(s, avail, used, who) && |desc| == NUM && forall i | 0 <= i < NUM && !s.free[i] :: desc[i] == s.desc[i]
    ensures Inv(s.(desc := desc), avail, used, who)
  {
    hide WorkOk, RingOk, Count;
    forall b | b in s.requests ensures ChainOk(s.free, desc, s.requests[b]) {
      assert ChainOk(s.free, s.desc, s.requests[b]);
    }
  }

  /** n turns of the loop in virtio_disk_intr(). */
  ghost function Interrupted(s: State, n: nat): State {
    if n == 0 then s
    else
      var t := Interrupted(s, n - 1);
      if Enabled(t, Interrupt) then Apply(t, Interrupt) else t
  }

  lemma SeenEnabled(s: State, avail: seq<nat>, used: seq<nat>, who: map<nat, nat>)
    requires Inv(s, avail, used, who) && s.seenIdx != s.usedIdx
    ensures Enabled(s, Interrupt) && Sizes(s) && s.usedRing[s.seenIdx % NUM] < NUM
    ensures s.status[s.usedRing[s.seenIdx % NUM]] == 0
    ensures Apply(s, Interrupt) ==
      s.(busy := s.busy - {s.info[s.usedRing[s.seenIdx % NUM]]}, seenIdx := (s.seenIdx + 1) % WRAP)
  {
    hide ChainsOk, Count, RingOk;
    RingPop(s.usedRing, s.seenIdx, s.usedIdx, used);
    assert Working(s.info, s.busy, s.requests, used[0]);
  }

  lemma NoneToSubmit(s: State, b: nat)
    requires Alloc3(s.free).None?
    ensures !Enabled(s, Submit(b))
  {
    hide Alloc3;
  }

  lemma SubmitIs(s: State, b: nat, c: Chain)
    requires Sizes(s) && b != 0 && b !in s.requests && Alloc3(s.free) == Some(c)
    ensures Enabled(s, Submit(b)) && c.head < NUM && c.data < NUM && c.status < NUM
    ensures Apply(s, Submit(b)) ==
      s.(free := Taken(s.free, c),
         desc := s.desc[c.head := Desc(c.data, true)][c.data := Desc(c.status, true)][c.status := Desc(0, false)],
         status := s.status[c.head := BUSY_STATUS], info := s.info[c.head := b], busy := s.busy + {b},
         availRing := s.availRing[s.availIdx % NUM := c.head], availIdx := (s.availIdx + 1) % WRAP,
         requests := s.requests[b := c])
  {
    hide Alloc3;
    AllocFresh(s.free);
  }

  lemma ReturnedIs(free: seq<bool>, c: Chain)
    requires c.head < |free| && c.data < |free| && c.status < |free|
    ensures |Returned(free, c)| == |free|
    ensures forall d | 0 <= d < |free| :: Returned(free, c)[d] == (free[d] || In(c, d))
  {}

  lemma FinishIs(s: State, avail: seq<nat>, used: seq<nat>, who: map<nat, nat>, b: nat)
    requires Inv(s, avail, used, who) && b in s.requests && b !in s.busy
    ensures Sizes(s) && ChainOk(s.free, s.desc, s.requests[b]) && Enabled(s, Finish(b))
    ensures s.requests[b].head < NUM && s.requests[b].data < NUM && s.requests[b].status < NUM
    ensures
      var c := s.requests[b];
      Apply(s, Finish(b)) ==
      s.(info := s.info[c.head := 0], free := Returned(s.free, c), desc := Unlinked(s.desc, c),
         requests := map x | x in s.requests && x != b :: s.requests[x])
  {
    hide WorkOk, RingOk, Count;
    assert ChainOk(s.free, s.desc, s.requests[b]);
  }

  /** The driver's side of the queue. `busy` are the buffers with b->disk set. The device's side, and for which buffer
      each thread waits, are ghost. */
  class Driver {
    const disk: Disk
    const info: array<nat>
    const status: array<nat>
    const availRing: array<nat>
    const usedRing: array<nat>
    var availIdx: nat
    var usedIdx: nat
    var seenIdx: nat
    var busy: set<nat>
    ghost var requests: map<nat, Chain>
    ghost var devIdx: nat
    ghost var pending: set<nat>
    ghost var avail: seq<nat>
    ghost var used: seq<nat>
    ghost var who: map<nat, nat>

    ghost function Repr(): set<object> {
      {this, disk, disk.free, disk.desc, info, status, availRing, usedRing}
    }

    ghost predicate Apart()
      reads disk
    {
      && disk.Valid() && info.Length == status.Length == availRing.Length == usedRing.Length == NUM
      && info != status && info != availRing && info != usedRing
      && status != availRing && status != usedRing && availRing != usedRing
    }

    ghost function Now(): State
      reads Repr()
    {
      State(disk.free[..], disk.desc[..], info[..], status[..], availRing[..], availIdx, usedRing[..], usedIdx, seenIdx,
            busy, requests, devIdx, pending)
    }

    ghost predicate Valid()
      reads Repr()
    {
      Apart() && Inv(Now(), avail, used, who)
    }

    /** virtio_disk_init(), as far as the queue goes. */
    constructor ()
      ensures Valid() && Init(Now()) && fresh(Repr())
    {
      disk := new Disk();
      info, status := new nat[NUM](_ => 0), new nat[NUM](_ => 0);
      availRing, usedRing := new nat[NUM](_ => 0), new nat[NUM](_ => 0);
      availIdx, usedIdx, seenIdx, busy, requests, devIdx, pending := 0, 0, 0, {}, map[], 0, {};
      avail, used, who := [], [], map[];
      new;
      InitInv(Now());
    }

    /** virtio_disk_rw() up to the notification; None if there are no descriptors and it sleeps. */
    method Submit(b: nat) returns (r: Option<Chain>)
      requires Valid() && b != 0 && b !in requests
      modifies Repr()
      ensures Valid()
      ensures r.None? ==> !Enabled(old(Now()), Action.Submit(b)) && Now() == old(Now()).(desc := disk.desc[..])
      ensures r.Some? ==>
        && Enabled(old(Now()), Action.Submit(b)) && Now() == Apply(old(Now()), Action.Submit(b))
        && b in requests && requests[b] == r.value
      ensures r.None? <==> Count(old(disk.free[..])) < 3
      ensures r.Some? ==>
        && busy == old(busy) + {b} && availIdx == (old(availIdx) + 1) % WRAP
        && availRing[..] == old(availRing[..])[old(availIdx) % NUM := r.value.head]
    {
      hide Inv, Alloc3, Apply, Enabled, Taken, Count;
      Alloc3Exact(disk.free[..]);
      ghost var s := Now();
      InvSizes(s, avail, used, who);
      r := Reserve();
      if r.None? {
        NoneToSubmit(s, b);
        FreeDescsMayChange(s, disk.desc[..], avail, used, who);
        return;
      }
      var idx := r.value;
      SubmitIs(s, b, idx);
      Format(b, idx);
      avail, used, who := Keeps(s, Action.Submit(b), avail, used, who);
    }

    method Reserve() returns (r: Option<Chain>)
      requires Apart()
      modifies disk.free, disk.desc
      ensures r == Alloc3(old(Now()).free)
      ensures r.None? ==>
        && Now() == old(Now()).(desc := disk.desc[..])
        && |old(Now()).free| == |old(Now()).desc| == |disk.desc[..]| == NUM
        && forall i | 0 <= i < NUM && !old(Now()).free[i] :: disk.desc[..][i] == old(Now()).desc[i]
      ensures r.Some? ==>
        && r.value.head < NUM && r.value.data < NUM && r.value.status < NUM && |old(Now()).free| == NUM
        && Now() == old(Now()).(free := Taken(old(Now()).free, r.value))
    {
      hide Alloc3;
      ghost var free := disk.free[..];
      r := disk.Alloc3Desc();
      if r.Some? { AllocFresh(free); }
    }

    /** Fills in the three descriptors, notes the buffer and puts the chain on the available ring. */
    method Format(b: nat, idx: Chain)
      requires Apart() && idx.head < NUM && idx.data < NUM && idx.status < NUM
      modifies this`busy, this`availIdx, this`requests, disk.desc, status, info, availRing
      ensures Now() ==
        old(Now()).(desc := old(disk.desc[..])[idx.head := Desc(idx.data, true)][idx.data := Desc(idx.status, true)]
                    [idx.status := Desc(0, false)],
                    status := old(status[..])[idx.head := BUSY_STATUS], info := old(info[..])[idx.head := b],
                    busy := old(busy) + {b}, availRing := old(availRing[..])[old(availIdx) % NUM := idx.head],
                    availIdx := (old(availIdx) + 1) % WRAP, requests := old(requests)[b := idx])
    {
      disk.desc[idx.head] := Desc(idx.data, true);
      disk.desc[idx.data] := Desc(idx.status, true);
      status[idx.head] := BUSY_STATUS;
      disk.desc[idx.status] := Desc(0, false);
      busy := busy + {b};
      info[idx.head] := b;
      availRing[availIdx % NUM] := idx.head;
      availIdx := (availIdx + 1) % WRAP;
      requests := requests[b := idx];
    }

    lemma InvSizes(s: State, a: seq<nat>, u: seq<nat>, w: map<nat, nat>)
      requires Inv(s, a, u, w)
      ensures Sizes(s)
    {}

    /** virtio_disk_rw() once b->disk is clear: it returns its descriptors. */
    method Finish(b: nat, idx: Chain)
      requires Valid() && b in requests && requests[b] == idx && b !in busy
      modifies Repr()
      ensures b !in requests && requests == map x | x in old(requests) && x != b :: old(requests)[x]
      ensures disk.free.Length == NUM && forall d | 0 <= d < NUM :: disk.free[d] == (old(disk.free[d]) || In(idx, d))
      ensures Valid() && Enabled(old(Now()), Action.Finish(b)) && Now() == Apply(old(Now()), Action.Finish(b))
    {
      hide Inv, Apply, Enabled, Returned, Unlinked, In, ChainOk;
      ghost var s := Now();
      FinishIs(s, avail, used, who, b);
      ReturnedIs(s.free, idx);
      avail, used, who := Keeps(s, Action.Finish(b), avail, used, who);
      info[idx.head] := 0;
      disk.FreeChain(idx.head, idx);
      requests := map x | x in requests && x != b :: requests[x];
      assert Now() == Apply(s, Action.Finish(b));
    }

    /** One turn of the loop of virtio_disk_intr(); its panic is for no status it can find. */
    method Complete()
      requires Valid() && seenIdx != usedIdx
      modifies this
      ensures Valid() && Enabled(old(Now()), Interrupt) && Now() == Apply(old(Now()), Interrupt)
      ensures busy <= old(busy) && seenIdx == (old(seenIdx) + 1) % WRAP && usedIdx == old(usedIdx)
    {
      hide Inv, Apply, Enabled;
      ghost var s := Now();
      SeenEnabled(s, avail, used, who);
      avail, used, who := Keeps(s, Interrupt, avail, used, who);
      var id := usedRing[seenIdx % NUM];
      assert id == s.usedRing[s.seenIdx % NUM] && status[id] == s.status[id] == 0;
      var b := info[id];
      busy := busy - {b};
      seenIdx := (seenIdx + 1) % WRAP;
    }

    /** virtio_disk_intr(): it goes through all that is in the used ring. */
    method Intr() returns (ghost n: nat)
      requires Valid()
      modifies this
      ensures Valid() && Now() == Interrupted(old(Now()), n) && seenIdx == usedIdx && busy <= old(busy)
    {
      hide Inv, Apply, Enabled;
      n := 0;
      InvSizes(Now(), avail, used, who);
      while seenIdx != usedIdx
        invariant Valid() && Now() == Interrupted(old(Now()), n) && seenIdx < WRAP && usedIdx < WRAP
        invariant busy <= old(busy)
        decreases (usedIdx + WRAP - seenIdx) % WRAP
      {
        Complete();
        n := n + 1;
      }
    }
  }
}
