/** kernel/bio.c as code: the buffers in a ring through next and prev, most recently used first. */
module BCacheCode {
  import opened BCache

  /** The ring in index form: pos[x] is how many steps along next lead from the head (index n) to buffer x. */
  ghost predicate RingOk(next: seq<nat>, prev: seq<nat>, pos: seq<nat>, n: nat) {
    && |next| == |prev| == |pos| == n + 1 && pos[n] == 0
    && (forall x {:trigger next[x]} | 0 <= x <= n :: next[x] <= n)
    && (forall x {:trigger prev[x]} | 0 <= x <= n :: prev[x] <= n)
    && (forall x {:trigger pos[x]} | 0 <= x <= n :: pos[x] <= n)
    && (forall x {:trigger next[x]} | 0 <= x <= n :: pos[next[x]] == if pos[x] == n then 0 else pos[x] + 1)
    && (forall x {:trigger prev[x]} | 0 <= x <= n :: pos[prev[x]] == if pos[x] == 0 then n else pos[x] - 1)
    && (forall x, y | 0 <= x <= n && 0 <= y <= n && pos[x] == pos[y] :: x == y)
  }

  /** Going back undoes going forward. */
  lemma BackAndForth(next: seq<nat>, prev: seq<nat>, pos: seq<nat>, n: nat, x: nat)
    requires RingOk(next, prev, pos, n) && x <= n
    ensures prev[next[x]] == x && next[prev[x]] == x
  {
    assert pos[prev[next[x]]] == pos[x];
    assert pos[next[prev[x]]] == pos[x];
  }

  /** Where k steps along next lead from buffer x. */
  function Follow(next: seq<nat>, x: nat, k: nat): nat {
    if k == 0 then x else var y := Follow(next, x, k - 1); if y < |next| then next[y] else y
  }

  /** The ring is a permutation of all buffers: from the head, step after step, each comes up exactly once before the
      head does again. */
  lemma {:induction false} OneRing(next: seq<nat>, prev: seq<nat>, pos: seq<nat>, n: nat, k: nat)
    requires RingOk(next, prev, pos, n) && k <= n
    ensures Follow(next, n, k) <= n && pos[Follow(next, n, k)] == k
    ensures k == n ==> Follow(next, n, n + 1) == n
  {
    if k > 0 {
      OneRing(next, prev, pos, n, k - 1);
    }
  }

  /** The positions once buffer b has been moved to the front. */
  ghost function Moved(pos: seq<nat>, n: nat, b: nat): (r: seq<nat>)
    requires |pos| == n + 1 && b < n
  {
    seq(n + 1, x requires 0 <= x <= n =>
      if x == n then 0 else if x == b then 1 else if pos[x] < pos[b] then pos[x] + 1 else pos[x])
  }

  /** b is first, and the others are in the order in which they were. */
  lemma MovedOrder(next: seq<nat>, prev: seq<nat>, pos: seq<nat>, n: nat, b: nat)
    requires RingOk(next, prev, pos, n) && b < n
    ensures |pos| == |Moved(pos, n, b)| == n + 1
    ensures forall x | 0 <= x < n && x != b :: Moved(pos, n, b)[b] < Moved(pos, n, b)[x]
    ensures forall x, y | 0 <= x < n && 0 <= y < n && x != b && y != b ::
      Moved(pos, n, b)[x] < Moved(pos, n, b)[y] <==> pos[x] < pos[y]
  {}

  /** The splice of brelse(): out of its place, and in behind the head. */
  function SpliceNext(next: seq<nat>, prev: seq<nat>, n: nat, b: nat): seq<nat>
    requires |next| == |prev| == n + 1 && b < n && prev[b] <= n
  {
    var out := next[prev[b] := next[b]];
    out[b := out[n]][n := b]
  }

  function SplicePrev(next: seq<nat>, prev: seq<nat>, n: nat, b: nat): seq<nat>
    requires |next| == |prev| == n + 1 && b < n && prev[b] <= n && next[b] <= n && next[n] <= n
  {
    var out := prev[next[b] := prev[b]];
    var first := if prev[b] == n then next[b] else next[n];
    out[b := n][first := b]
  }

  lemma NextAt(next: seq<nat>, prev: seq<nat>, pos: seq<nat>, n: nat, b: nat, x: nat)
    requires RingOk(next, prev, pos, n) && b < n && x <= n
    ensures |SpliceNext(next, prev, n, b)| == n + 1 && SpliceNext(next, prev, n, b)[x] ==
      if x == n then b
      else if x == b then (if prev[b] == n then next[b] else next[n])
      else if x == prev[b] then next[b] else next[x]
  {}

  lemma PrevAt(next: seq<nat>, prev: seq<nat>, pos: seq<nat>, n: nat, b: nat, x: nat)
    requires RingOk(next, prev, pos, n) && b < n && x <= n
    ensures |SplicePrev(next, prev, n, b)| == n + 1 && SplicePrev(next, prev, n, b)[x] ==
      if x == (if prev[b] == n then next[b] else next[n]) then b
      else if x == b then n
      else if x == next[b] then prev[b] else prev[x]
  {}

  lemma PosAt(pos: seq<nat>, n: nat, b: nat, x: nat)
    requires |pos| == n + 1 && b < n && x <= n
    ensures |Moved(pos, n, b)| == n + 1
    ensures Moved(pos, n, b)[x] ==
      if x == n then 0 else if x == b then 1 else if pos[x] < pos[b] then pos[x] + 1 else pos[x]
  {}

  lemma Positive(next: seq<nat>, prev: seq<nat>, pos: seq<nat>, n: nat, x: nat)
    requires RingOk(next, prev, pos, n) && x <= n
    ensures pos[x] == 0 <==> x == n
  {}

  /** The new successor of x has the next position. */
  lemma SpliceNextOk(next: seq<nat>, prev: seq<nat>, pos: seq<nat>, n: nat, b: nat, x: nat)
    requires RingOk(next, prev, pos, n) && b < n && x <= n
    ensures var y := SpliceNext(next, prev, n, b)[x];
      y <= n && Moved(pos, n, b)[y] == if Moved(pos, n, b)[x] == n then 0 else Moved(pos, n, b)[x] + 1
  {
    hide Moved, SpliceNext;
    NextAt(next, prev, pos, n, b, x);
    var y := SpliceNext(next, prev, n, b)[x];
    PosAt(pos, n, b, x);
    PosAt(pos, n, b, y);
    Positive(next, prev, pos, n, b);
    Positive(next, prev, pos, n, x);
    Positive(next, prev, pos, n, y);
    Positive(next, prev, pos, n, prev[b]);
    BackAndForth(next, prev, pos, n, b);
    BackAndForth(next, prev, pos, n, x);
    BackAndForth(next, prev, pos, n, n);
  }

  lemma SplicePrevOk(next: seq<nat>, prev: seq<nat>, pos: seq<nat>, n: nat, b: nat, x: nat)
    requires RingOk(next, prev, pos, n) && b < n && x <= n
    ensures var y := SplicePrev(next, prev, n, b)[x];
      y <= n && Moved(pos, n, b)[y] == if Moved(pos, n, b)[x] == 0 then n else Moved(pos, n, b)[x] - 1
  {
    hide Moved, SplicePrev;
    PrevAt(next, prev, pos, n, b, x);
    var y := SplicePrev(next, prev, n, b)[x];
    PosAt(pos, n, b, x);
    PosAt(pos, n, b, y);
    Positive(next, prev, pos, n, b);
    Positive(next, prev, pos, n, x);
    Positive(next, prev, pos, n, y);
    Positive(next, prev, pos, n, prev[b]);
    Positive(next, prev, pos, n, next[b]);
    BackAndForth(next, prev, pos, n, b);
    BackAndForth(next, prev, pos, n, x);
    BackAndForth(next, prev, pos, n, n);
  }

  lemma MovedApart(next: seq<nat>, prev: seq<nat>, pos: seq<nat>, n: nat, b: nat, x: nat, y: nat)
    requires RingOk(next, prev, pos, n) && b < n && x <= n && y <= n && x != y
    ensures Moved(pos, n, b)[x] != Moved(pos, n, b)[y] && Moved(pos, n, b)[x] <= n
  {
    hide Moved;
    PosAt(pos, n, b, x);
    PosAt(pos, n, b, y);
    Positive(next, prev, pos, n, b);
    Positive(next, prev, pos, n, x);
    Positive(next, prev, pos, n, y);
  }

  /** brelse() keeps the ring, and puts the buffer at its front. */
  lemma SpliceOk(next: seq<nat>, prev: seq<nat>, pos: seq<nat>, n: nat, b: nat)
    requires RingOk(next, prev, pos, n) && b < n
    ensures RingOk(SpliceNext(next, prev, n, b), SplicePrev(next, prev, n, b), Moved(pos, n, b), n)
  {
    hide Moved, SpliceNext, SplicePrev;
    NextAt(next, prev, pos, n, b, n);
    PrevAt(next, prev, pos, n, b, n);
    PosAt(pos, n, b, n);
    var next', prev', pos' := SpliceNext(next, prev, n, b), SplicePrev(next, prev, n, b), Moved(pos, n, b);
    forall x | 0 <= x <= n ensures next'[x] <= n && pos'[next'[x]] == if pos'[x] == n then 0 else pos'[x] + 1 {
      SpliceNextOk(next, prev, pos, n, b, x);
    }
    forall x | 0 <= x <= n ensures prev'[x] <= n && pos'[prev'[x]] == if pos'[x] == 0 then n else pos'[x] - 1 {
      SplicePrevOk(next, prev, pos, n, b, x);
    }
    forall x, y | 0 <= x <= n && 0 <= y <= n && x != y ensures pos'[x] != pos'[y] {
      MovedApart(next, prev, pos, n, b, x, y);
    }
    forall x | 0 <= x <= n ensures pos'[x] <= n {
      MovedApart(next, prev, pos, n, b, x, if x == n then 0 else n);
    }
  }

  /** The ring that binit() leaves: the last buffer first. */
  lemma InitRing(next: seq<nat>, prev: seq<nat>, n: nat)
    requires |next| == |prev| == n + 1 && n > 0
    requires next[n] == n - 1 && next[0] == n && (forall x | 0 < x < n :: next[x] == x - 1)
    requires prev[n] == 0 && prev[n - 1] == n && (forall x | 0 <= x < n - 1 :: prev[x] == x + 1)
    ensures RingOk(next, prev, seq(n + 1, x requires 0 <= x <= n => n - x), n)
  {}

  class Cache {
    const nbuf: nat
    const next: array<nat>                          // index nbuf is bcache.head
    const prev: array<nat>
    var bufs: seq<Buf>
    var disk: map<Id, Data>
    ghost var pos: seq<nat>

    ghost predicate Ring()
      reads this, next, prev
    {
      next != prev && RingOk(next[..], prev[..], pos, nbuf)
    }

    ghost function Now(): State
      reads this
    {
      State(disk, bufs)
    }

    ghost predicate Valid()
      reads this, next, prev
    {
      Ring() && |bufs| == nbuf && Inv(Now())
    }

    /** binit(). */
    constructor (nbuf: nat, disk: map<Id, Data>)
      requires nbuf > 0
      ensures Valid() && fresh(next) && fresh(prev) && this.nbuf == nbuf && this.disk == disk && Init(Now())
      ensures forall x | 0 <= x <= nbuf :: pos[x] == nbuf - x
    {
      this.nbuf, this.disk := nbuf, disk;
      next, prev := new nat[nbuf + 1], new nat[nbuf + 1];
      bufs := seq(nbuf, _ => Buf(Id(0, 0), false, [], multiset{}, 0, Open));
      pos := seq(nbuf + 1, x requires 0 <= x <= nbuf => nbuf - x);
      new;
      hide RingOk;
      LinkAll(next, prev, nbuf);
      InitRing(next[..], prev[..], nbuf);
      InitInv(Now());
    }

    /** The loop of binit(). */
    static method LinkAll(next: array<nat>, prev: array<nat>, nbuf: nat)
      requires next != prev && next.Length == prev.Length == nbuf + 1 && nbuf > 0
      modifies next, prev
      ensures next[nbuf] == nbuf - 1 && next[0] == nbuf && (forall x | 0 < x < nbuf :: next[x] == x - 1)
      ensures prev[nbuf] == 0 && prev[nbuf - 1] == nbuf && (forall x | 0 <= x < nbuf - 1 :: prev[x] == x + 1)
    {
      prev[nbuf] := nbuf;
      next[nbuf] := nbuf;
      var b := 0;
      while b < nbuf
        invariant 0 <= b <= nbuf && next[nbuf] == (if b == 0 then nbuf else b - 1)
        invariant prev[nbuf] == (if b == 0 then nbuf else 0)
        invariant b > 0 ==> next[0] == nbuf && prev[b - 1] == nbuf
        invariant (forall x | 0 < x < b :: next[x] == x - 1) && (forall x | 0 <= x < b - 1 :: prev[x] == x + 1)
      {
        next[b] := next[nbuf];
        prev[b] := nbuf;
        prev[next[nbuf]] := b;
        next[nbuf] := b;
        b := b + 1;
      }
    }

    /** The first loop of bget(): the buffer of a block, nbuf if it is not cached. */
    method FindCached(id: Id) returns (b: nat)
      requires Valid()
      ensures b <= nbuf && (b < nbuf ==> bufs[b].id == id)
      ensures b == nbuf <==> !Cached(Now(), id)
    {
      hide Inv;
      b := next[nbuf];
      NextPos(next[..], prev[..], pos, nbuf, nbuf);
      while b != nbuf
        invariant b <= nbuf && (b != nbuf ==> pos[b] > 0)
        invariant forall x | 0 <= x < nbuf && (b == nbuf || pos[x] < pos[b]) :: bufs[x].id != id
        decreases if b == nbuf then 0 else nbuf + 1 - pos[b]
      {
        if bufs[b].id == id {
          return;
        }
        NextPos(next[..], prev[..], pos, nbuf, b);
        b := next[b];
      }
    }

    /** The second loop: the unused buffer that has been unused the longest, nbuf if all are in use. */
    method FindUnused() returns (b: nat)
      requires Valid()
      ensures b < nbuf ==> Refcnt(bufs[b]) == 0 && forall x | 0 <= x < nbuf && pos[x] > pos[b] :: Refcnt(bufs[x]) > 0
      ensures b == nbuf <==> forall x | 0 <= x < nbuf :: Refcnt(bufs[x]) > 0
      ensures b <= nbuf
    {
      hide Inv;
      b := prev[nbuf];
      PrevPos(next[..], prev[..], pos, nbuf, nbuf);
      while b != nbuf
        invariant b <= nbuf && forall x | 0 <= x < nbuf && (b == nbuf || pos[x] > pos[b]) :: Refcnt(bufs[x]) > 0
        decreases if b == nbuf then 0 else pos[b]
      {
        if Refcnt(bufs[b]) == 0 {
          return;
        }
        PrevPos(next[..], prev[..], pos, nbuf, b);
        b := prev[b];
      }
    }

    /** bget() up to where it waits for the sleep-lock; false is panic("bget: no buffers"). */
    method Bget(t: nat, id: Id) returns (b: nat, ok: bool)
      requires Valid() && id.dev != 0 && id in disk
      modifies this`bufs
      ensures Valid() && b <= nbuf
      ensures old(Cached(Now(), id)) ==>
        ok && b < nbuf && old(bufs)[b].id == id && Now() == Apply(old(Now()), Hit(t, b))
      ensures !old(Cached(Now(), id)) && ok ==>
        && b < nbuf && Enabled(old(Now()), Recycle(t, id, b)) && Now() == Apply(old(Now()), Recycle(t, id, b))
        && forall x | 0 <= x < nbuf && pos[x] > pos[b] :: Refcnt(old(bufs)[x]) > 0
      ensures ok ==>
        && b < |old(bufs)| && bufs == old(bufs)[b := bufs[b]] && bufs[b].id == id
        && bufs[b].holders == old(bufs)[b].holders + multiset{t} && bufs[b].pins == old(bufs)[b].pins
        && bufs[b].lock == old(bufs)[b].lock
      ensures ok && old(bufs)[b].id == id ==> bufs[b] == old(bufs)[b].(holders := bufs[b].holders)
      ensures ok && old(bufs)[b].id != id ==>
        !bufs[b].valid && old(bufs)[b].holders == multiset{} && old(bufs)[b].pins == 0
      ensures !ok ==> Now() == old(Now()) && forall x | 0 <= x < nbuf :: Refcnt(bufs[x]) > 0
    {
      hide Inv, RingOk;
      b := FindCached(id);
      if b != nbuf {
        Keeps(Now(), Hit(t, b));
        bufs := bufs[b := bufs[b].(holders := bufs[b].holders + multiset{t})];
        return b, true;
      }
      b := FindUnused();
      if b == nbuf {
        return b, false;
      }
      Keeps(Now(), Recycle(t, id, b));
      bufs := bufs[b := bufs[b].(id := id, valid := false, holders := multiset{t})];
      return b, true;
    }

    /** bread(), when nobody else has the block locked: the buffer holds what cache and disk say the block is. It panics
        exactly if the block is not cached and every buffer is in use. */
    method Bread(t: nat, id: Id) returns (b: nat, ok: bool)
      requires Valid() && id.dev != 0 && id in disk
      requires forall i | 0 <= i < |bufs| && bufs[i].id == id :: bufs[i].lock.Open?
      modifies this`bufs
      ensures Valid()
      ensures !ok <==> old(!Cached(Now(), id)) && forall x | 0 <= x < |old(bufs)| :: Refcnt(old(bufs)[x]) > 0
      ensures !ok ==> Now() == old(Now())
      ensures ok ==>
        && b < nbuf && Locked(Now(), t, b) && bufs[b].id == id && bufs[b].valid
        && bufs[b].data == old(View(Now(), id))
        && bufs == old(bufs)[b := bufs[b]] && bufs[b].holders == old(bufs)[b].holders + multiset{t}
        && bufs[b].pins == old(bufs)[b].pins
    {
      hide Inv, RingOk, View;
      ghost var s0 := Now();
      b, ok := Bget(t, id);
      if !ok {
        return;
      }
      ghost var s1, got := Now(), if Cached(s0, id) then Hit(t, b) else Recycle(t, id, b);
      if !Cached(s0, id) { UnusedIsOpen(s0, b); }
      StepView(s0, got, id);
      Keeps(s1, Acquire(t, b));
      StepView(s1, Acquire(t, b), id);
      bufs := bufs[b := bufs[b].(lock := By(t))];
      ghost var s2 := Now();
      if !bufs[b].valid {
        Keeps(s2, Fill(t, b));
        StepView(s2, Fill(t, b), id);
        bufs := bufs[b := bufs[b].(data := disk[id], valid := true)];
      }
      ViewNow(Now(), id, b);
    }

    /** bwrite(). */
    method Bwrite(t: nat, b: nat)
      requires Valid() && Locked(Now(), t, b) && bufs[b].valid
      modifies this`disk
      ensures Valid() && disk == old(disk)[bufs[b].id := bufs[b].data]
      ensures forall id | id in old(disk) && id.dev != 0 :: id in disk && View(Now(), id) == old(View(Now(), id))
    {
      hide Inv, RingOk, View;
      ghost var s0 := Now();
      Keeps(s0, BCache.Bwrite(t, b));
      forall id | id in disk && id.dev != 0
        ensures id in Apply(s0, BCache.Bwrite(t, b)).disk && View(Apply(s0, BCache.Bwrite(t, b)), id) == View(s0, id)
      {
        StepView(s0, BCache.Bwrite(t, b), id);
      }
      disk := disk[bufs[b].id := bufs[b].data];
    }

    /** The splice in brelse(): six assignments to the links. */
    method ToFront(b: nat)
      requires Ring() && b < nbuf
      modifies next, prev, this`pos
      ensures Ring() && pos == Moved(old(pos), nbuf, b)
    {
      ghost var next0, prev0 := next[..], prev[..];
      SpliceOk(next0, prev0, pos, nbuf, b);
      Separate(next0, prev0, pos, nbuf, b);
      prev[next[b]] := prev[b];
      next[prev[b]] := next[b];
      next[b] := next[nbuf];
      prev[b] := nbuf;
      prev[next[nbuf]] := b;
      next[nbuf] := b;
      assert next[..] == SpliceNext(next0, prev0, nbuf, b);
      assert prev[..] == SplicePrev(next0, prev0, nbuf, b);
      pos := Moved(pos, nbuf, b);
    }

    /** brelse(): a buffer nobody has any more goes to the front of the ring. */
    method Brelse(t: nat, b: nat)
      requires Valid() && Locked(Now(), t, b) && bufs[b].valid && (Clean(Now(), bufs[b]) || bufs[b].pins > 0)
      modifies this`bufs, this`pos, next, prev
      ensures Valid() && b < nbuf
      ensures bufs == old(bufs)[b := old(bufs)[b].(lock := Open, holders := old(bufs)[b].holders - multiset{t})]
      ensures pos == if Refcnt(bufs[b]) == 0 then Moved(old(pos), nbuf, b) else old(pos)
      ensures |old(pos)| == |pos| == nbuf + 1
      ensures bufs[b].holders == multiset{} && bufs[b].pins == 0 ==>
        && (forall x | 0 <= x < nbuf && x != b :: pos[b] < pos[x])
        && (forall x, y | 0 <= x < nbuf && 0 <= y < nbuf && x != b && y != b ::
              pos[x] < pos[y] <==> old(pos)[x] < old(pos)[y])
    {
      hide Inv, RingOk, Moved;
      MovedOrder(next[..], prev[..], pos, nbuf, b);
      Keeps(Now(), Unlock(t, b));
      bufs := bufs[b := bufs[b].(lock := Open)];
      Keeps(Now(), Deref(t, b));
      bufs := bufs[b := bufs[b].(holders := bufs[b].holders - multiset{t})];
      if Refcnt(bufs[b]) == 0 {
        ToFront(b);
      }
    }

    /** bpin() and bunpin(), as log_write() and install_trans() call them, with the buffer locked. */
    method Bpin(t: nat, b: nat)
      requires Valid() && Locked(Now(), t, b) && bufs[b].valid
      modifies this`bufs
      ensures Valid() && b < |old(bufs)| && bufs == old(bufs)[b := old(bufs)[b].(pins := old(bufs)[b].pins + 1)]
    {
      hide Inv, RingOk;
      Keeps(Now(), BCache.Bpin(t, b));
      bufs := bufs[b := bufs[b].(pins := bufs[b].pins + 1)];
    }

    method Bunpin(t: nat, b: nat)
      requires Valid() && Locked(Now(), t, b) && bufs[b].pins > 0 && Clean(Now(), bufs[b])
      modifies this`bufs
      ensures Valid() && b < |old(bufs)| && bufs == old(bufs)[b := old(bufs)[b].(pins := old(bufs)[b].pins - 1)]
    {
      hide Inv, RingOk;
      Keeps(Now(), BCache.Bunpin(t, b));
      bufs := bufs[b := bufs[b].(pins := bufs[b].pins - 1)];
    }
  }

  lemma NextPos(next: seq<nat>, prev: seq<nat>, pos: seq<nat>, n: nat, x: nat)
    requires RingOk(next, prev, pos, n) && x <= n
    ensures var y := next[x]; y <= n && (y == n <==> pos[x] == n) && (y != n ==> pos[y] == pos[x] + 1)
    ensures forall z | 0 <= z <= n && pos[z] == pos[x] :: z == x
    ensures forall z | 0 <= z <= n :: pos[z] <= n && (pos[z] == 0 ==> z == n)
  {}

  lemma PrevPos(next: seq<nat>, prev: seq<nat>, pos: seq<nat>, n: nat, x: nat)
    requires RingOk(next, prev, pos, n) && x <= n
    ensures var y := prev[x]; y <= n && pos[y] == (if pos[x] == 0 then n else pos[x] - 1) && (y == n <==> pos[y] == 0)
    ensures forall z | 0 <= z <= n && pos[z] == pos[x] :: z == x
    ensures forall z | 0 <= z <= n :: pos[z] <= n && (pos[z] == 0 <==> z == n)
  {}

  lemma Separate(next: seq<nat>, prev: seq<nat>, pos: seq<nat>, n: nat, b: nat)
    requires RingOk(next, prev, pos, n) && b < n
    ensures next[b] <= n && prev[b] <= n && next[n] <= n && next[b] != b && prev[b] != b && next[n] != n
  {}

  lemma UnusedIsOpen(s: State, b: nat)
    requires Inv(s) && b < |s.bufs| && Refcnt(s.bufs[b]) == 0
    ensures s.bufs[b].lock.Open?
  {
    assert BufOk(s, b);
  }

  lemma ViewNow(s: State, id: Id, b: nat)
    requires Inv(s) && id in s.disk && id.dev != 0 && b < |s.bufs| && s.bufs[b].id == id && s.bufs[b].valid
    ensures View(s, id) == s.bufs[b].data
  {
    ViewIs(s, id, b);
  }
}
