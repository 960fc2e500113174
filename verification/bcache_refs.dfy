/** Who has which buffers, over every run of the buffer cache. */
module BCacheRefs {
  import opened BCache

  /** How many times thread t has the buffer of block id. */
  function Held(bufs: seq<Buf>, t: nat, id: Id): nat {
    if bufs == [] then 0 else Share(bufs[0], t, id) + Held(bufs[1..], t, id)
  }

  function Share(b: Buf, t: nat, id: Id): nat {
    if b.id == id then b.holders[t] else 0
  }

  /** How many pins the buffer of block id has. */
  function Pinned(bufs: seq<Buf>, id: Id): nat {
    if bufs == [] then 0 else Pins(bufs[0], id) + Pinned(bufs[1..], id)
  }

  function Pins(b: Buf, id: Id): nat {
    if b.id == id then b.pins else 0
  }

  lemma {:induction false} HeldPut(bufs: seq<Buf>, i: nat, b: Buf, t: nat, id: Id)
    requires i < |bufs|
    ensures Held(bufs[i := b], t, id) + Share(bufs[i], t, id) == Held(bufs, t, id) + Share(b, t, id)
    ensures Pinned(bufs[i := b], id) + Pins(bufs[i], id) == Pinned(bufs, id) + Pins(b, id)
  {
    if i == 0 {
      assert bufs[i := b][1..] == bufs[1..];
    } else {
      assert bufs[i := b][1..] == bufs[1..][i - 1 := b];
      HeldPut(bufs[1..], i - 1, b, t, id);
    }
  }

  /** bget() gives a reference, brelse() takes it; bpin() and bunpin() do the same with pins. */
  function Gained(s: State, a: Action, t: nat, id: Id): int
    requires Enabled(s, a)
  {
    match a
    case Hit(u, i) => if u == t && s.bufs[i].id == id then 1 else 0
    case Recycle(u, x, _) => if u == t && x == id then 1 else 0
    case Deref(u, i) => if u == t && s.bufs[i].id == id then -1 else 0
    case _ => 0
  }

  function Pushed(s: State, a: Action, id: Id): int
    requires Enabled(s, a)
  {
    match a
    case Bpin(_, i) => if s.bufs[i].id == id then 1 else 0
    case Bunpin(_, i) => if s.bufs[i].id == id then -1 else 0
    case _ => 0
  }

  ghost function Balance(run: seq<State>, acts: seq<Action>, j: nat, t: nat, id: Id): int
    requires IsRun(run, acts) && j <= |acts|
  {
    if j == 0 then 0 else Balance(run, acts, j - 1, t, id) + Gained(run[j - 1], acts[j - 1], t, id)
  }

  ghost function PinBalance(run: seq<State>, acts: seq<Action>, j: nat, id: Id): int
    requires IsRun(run, acts) && j <= |acts|
  {
    if j == 0 then 0 else PinBalance(run, acts, j - 1, id) + Pushed(run[j - 1], acts[j - 1], id)
  }

  lemma StepHeld(s: State, a: Action, t: nat, id: Id)
    requires Enabled(s, a)
    ensures Held(Apply(s, a).bufs, t, id) == Held(s.bufs, t, id) + Gained(s, a, t, id)
    ensures Pinned(Apply(s, a).bufs, id) == Pinned(s.bufs, id) + Pushed(s, a, id)
  {
    if a.Bwrite? {
      assert Apply(s, a).bufs == s.bufs;
    } else {
      if a.Recycle? { assert s.bufs[a.buf].holders == multiset{}; }
      HeldPut(s.bufs, a.buf, Apply(s, a).bufs[a.buf], t, id);
    }
  }

  lemma {:induction false} NobodyHolds(bufs: seq<Buf>, t: nat, id: Id)
    requires forall i | 0 <= i < |bufs| :: bufs[i].holders == multiset{} && bufs[i].pins == 0
    ensures Held(bufs, t, id) == 0 && Pinned(bufs, id) == 0
  {
    if bufs != [] {
      assert bufs[0].holders == multiset{};
      NobodyHolds(bufs[1..], t, id);
    }
  }

  /** In every run, a thread has the buffer of a block as many times as bget() has given it and brelse() has not taken
      it back, and the buffer has the pins that bpin() gave it and bunpin() has not taken back. */
  lemma {:induction false} ReferencesCounted(run: seq<State>, acts: seq<Action>, j: nat, t: nat, id: Id)
    requires IsRun(run, acts) && j < |run|
    ensures Held(run[j].bufs, t, id) == Balance(run, acts, j, t, id)
    ensures Pinned(run[j].bufs, id) == PinBalance(run, acts, j, id)
  {
    hide Enabled, Apply, Gained, Pushed;
    if j == 0 {
      NobodyHolds(run[0].bufs, t, id);
    } else {
      ReferencesCounted(run, acts, j - 1, t, id);
      StepHeld(run[j - 1], acts[j - 1], t, id);
    }
  }
}
