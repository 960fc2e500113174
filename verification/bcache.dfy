/** The buffer cache of kernel/bio.c as the steps of any number of threads: cache and disk together are one map
    from blocks to data. */
module BCache {
  datatype Id = Id(dev: nat, blockno: nat)
  type Data = seq<nat>

  datatype Lock = Open | By(thread: nat)

  /** A buffer. refcnt counts the threads that have it, and the pins. */
  datatype Buf = Buf(id: Id, valid: bool, data: Data, holders: multiset<nat>, pins: nat, lock: Lock)

  datatype State = State(disk: map<Id, Data>, bufs: seq<Buf>)

  function Refcnt(b: Buf): nat {
    |b.holders| + b.pins
  }

  datatype Action =
    | Hit(thread: nat, buf: nat)                    // bget() of a block that is cached
    | Recycle(thread: nat, id: Id, buf: nat)        // bget() of one that is not
    | Acquire(thread: nat, buf: nat)                // bget(): acquiresleep()
    | Fill(thread: nat, buf: nat)                   // bread(): the read from disk
    | Modify(thread: nat, buf: nat, to: Data)
    | Bwrite(thread: nat, buf: nat)
    | Unlock(thread: nat, buf: nat)                 // brelse(): releasesleep()
    | Deref(thread: nat, buf: nat)                  // brelse(): refcnt--
    | Bpin(thread: nat, buf: nat)
    | Bunpin(thread: nat, buf: nat)

  predicate Cached(s: State, id: Id) {
    exists j :: 0 <= j < |s.bufs| && s.bufs[j].id == id
  }

  predicate Holding(s: State, t: nat, i: nat) {
    i < |s.bufs| && t in s.bufs[i].holders
  }

  predicate Locked(s: State, t: nat, i: nat) {
    Holding(s, t, i) && s.bufs[i].lock == By(t)
  }

  predicate Clean(s: State, b: Buf) {
    b.id in s.disk && b.data == s.disk[b.id]
  }

  /** The discipline of the callers: a change is written or pinned (by log_write()) before the buffer is unlocked,
      and a pin is removed only from a buffer that has been written (by install_trans()). */
  predicate Enabled(s: State, a: Action) {
    match a
    case Hit(t, i) => i < |s.bufs| && s.bufs[i].id.dev != 0
    case Recycle(t, id, i) => id.dev != 0 && id in s.disk && !Cached(s, id) && i < |s.bufs| && Refcnt(s.bufs[i]) == 0
    case Acquire(t, i) => Holding(s, t, i) && s.bufs[i].lock.Open?
    case Fill(t, i) => Locked(s, t, i) && !s.bufs[i].valid && s.bufs[i].id in s.disk
    case Modify(t, i, to) => Locked(s, t, i) && s.bufs[i].valid
    case Bwrite(t, i) => Locked(s, t, i) && s.bufs[i].valid
    case Unlock(t, i) => Locked(s, t, i) && s.bufs[i].valid && (Clean(s, s.bufs[i]) || s.bufs[i].pins > 0)
    case Deref(t, i) => Holding(s, t, i) && s.bufs[i].lock != By(t)
    case Bpin(t, i) => Locked(s, t, i) && s.bufs[i].valid
    case Bunpin(t, i) => Locked(s, t, i) && s.bufs[i].pins > 0 && Clean(s, s.bufs[i])
  }

  function Put(s: State, i: nat, b: Buf): State
    requires i < |s.bufs|
  {
    s.(bufs := s.bufs[i := b])
  }

  function Apply(s: State, a: Action): State
    requires Enabled(s, a)
  {
    var b := s.bufs[a.buf];
    match a
    case Hit(t, i) => Put(s, i, b.(holders := b.holders + multiset{t}))
    case Recycle(t, id, i) => Put(s, i, b.(id := id, valid := false, holders := multiset{t}))
    case Acquire(t, i) => Put(s, i, b.(lock := By(t)))
    case Fill(t, i) => Put(s, i, b.(data := s.disk[b.id], valid := true))
    case Modify(t, i, to) => Put(s, i, b.(data := to))
    case Bwrite(t, i) => s.(disk := s.disk[b.id := b.data])
    case Unlock(t, i) => Put(s, i, b.(lock := Open))
    case Deref(t, i) => Put(s, i, b.(holders := b.holders - multiset{t}))
    case Bpin(t, i) => Put(s, i, b.(pins := b.pins + 1))
    case Bunpin(t, i) => Put(s, i, b.(pins := b.pins - 1))
  }

  /** binit(): all buffers zeroed, so that they share device 0, block 0. */
  predicate Init(s: State) {
    forall i | 0 <= i < |s.bufs| :: s.bufs[i] == Buf(Id(0, 0), false, s.bufs[i].data, multiset{}, 0, Open)
  }

  predicate IsRun(run: seq<State>, acts: seq<Action>) {
    && |run| == |acts| + 1 && Init(run[0])
    && forall j | 0 <= j < |acts| :: Enabled(run[j], acts[j]) && run[j + 1] == Apply(run[j], acts[j])
  }

  // ----- the invariant -----

  ghost predicate UniqueOk(s: State) {
    forall i, j | 0 <= i < j < |s.bufs| && s.bufs[i].id.dev != 0 :: s.bufs[i].id != s.bufs[j].id
  }

  ghost predicate BufOk(s: State, i: nat)
    requires i < |s.bufs|
  {
    var b := s.bufs[i];
    && (b.lock.By? ==> b.lock.thread in b.holders)
    && (b.id.dev != 0 ==> b.id in s.disk)
    && (b.id.dev == 0 ==> !b.valid && Refcnt(b) == 0)
    && (b.valid && b.lock.Open? ==> Clean(s, b) || b.pins > 0)
  }

  ghost predicate Inv(s: State) {
    UniqueOk(s) && forall i | 0 <= i < |s.bufs| :: BufOk(s, i)
  }

  /** The first buffer with a valid copy of a block, |bufs| if there is none. */
  function CopyAt(bufs: seq<Buf>, id: Id): (k: nat)
    ensures k <= |bufs| && (k < |bufs| ==> bufs[k].id == id && bufs[k].valid)
    ensures forall j | 0 <= j < k :: bufs[j].id != id || !bufs[j].valid
  {
    if bufs == [] then 0 else if bufs[0].id == id && bufs[0].valid then 0 else 1 + CopyAt(bufs[1..], id)
  }

  /** What readers see: the cached copy of a block, or the block on disk. */
  function View(s: State, id: Id): Data
    requires id in s.disk
  {
    var k := CopyAt(s.bufs, id);
    if k < |s.bufs| then s.bufs[k].data else s.disk[id]
  }

  lemma ViewIs(s: State, id: Id, i: nat)
    requires UniqueOk(s) && id in s.disk && id.dev != 0 && i < |s.bufs| && s.bufs[i].id == id
    ensures View(s, id) == if s.bufs[i].valid then s.bufs[i].data else s.disk[id]
  {}

  lemma ViewDisk(s: State, id: Id)
    requires id in s.disk && forall i | 0 <= i < |s.bufs| :: s.bufs[i].id != id
    ensures View(s, id) == s.disk[id]
  {}

  // ----- every step -----

  lemma Keeps(s: State, a: Action)
    requires Inv(s) && Enabled(s, a)
    ensures Inv(Apply(s, a))
  {
    var s' := Apply(s, a);
    assert BufOk(s, a.buf);
    forall j | 0 <= j < |s'.bufs| ensures BufOk(s', j) {
      assert BufOk(s, j);
    }
  }

  /** What a step does to the view of a block: only a change made under the lock is seen. */
  lemma StepView(s: State, a: Action, id: Id)
    requires Inv(s) && Enabled(s, a) && id in s.disk && id.dev != 0
    ensures id in Apply(s, a).disk
    ensures View(Apply(s, a), id) == if a.Modify? && s.bufs[a.buf].id == id then a.to else View(s, id)
  {
    var s' := Apply(s, a);
    Keeps(s, a);
    assert BufOk(s, a.buf);
    if s.bufs[a.buf].id == id {
      ViewIs(s, id, a.buf);
      if s'.bufs[a.buf].id == id {
        ViewIs(s', id, a.buf);
      } else {
        ViewDisk(s', id);
      }
    } else if j :| 0 <= j < |s.bufs| && s.bufs[j].id == id {
      ViewIs(s, id, j);
      ViewIs(s', id, j);
    } else {
      ViewDisk(s, id);
      if s'.bufs[a.buf].id == id {
        ViewIs(s', id, a.buf);
      } else {
        ViewDisk(s', id);
      }
    }
  }

  // ----- every run -----

  lemma {:induction false} RunInv(run: seq<State>, acts: seq<Action>, j: nat)
    requires IsRun(run, acts) && j < |run|
    ensures Inv(run[j])
  {
    hide Inv, Apply, Enabled;
    if j == 0 {
      InitInv(run[0]);
    } else {
      RunInv(run, acts, j - 1);
      Keeps(run[j - 1], acts[j - 1]);
    }
  }

  lemma InitInv(s: State)
    requires Init(s)
    ensures Inv(s)
  {}

  /** The data last stored in a block by a sequence of steps, `start` if by none. */
  ghost function LastStored(run: seq<State>, acts: seq<Action>, id: Id, n: nat, start: Data): Data
    requires n <= |acts| && |run| == |acts| + 1
  {
    if n == 0 then start
    else if acts[n - 1].Modify? && acts[n - 1].buf < |run[n - 1].bufs| && run[n - 1].bufs[acts[n - 1].buf].id == id
    then acts[n - 1].to
    else LastStored(run, acts, id, n - 1, start)
  }

  /** Cache and disk are one map: whatever is evicted, filled, written or pinned, a block reads as what was last
      stored in it, or as what was on disk at the start. */
  lemma {:induction false} OneMap(run: seq<State>, acts: seq<Action>, id: Id, n: nat)
    requires IsRun(run, acts) && n <= |acts| && id in run[0].disk && id.dev != 0
    ensures id in run[n].disk && View(run[n], id) == LastStored(run, acts, id, n, run[0].disk[id])
  {
    hide Inv, Apply, Enabled, View, UniqueOk;
    if n == 0 {
      InitView(run[0], id);
    } else {
      OneMap(run, acts, id, n - 1);
      RunInv(run, acts, n - 1);
      StepView(run[n - 1], acts[n - 1], id);
      BufExists(run[n - 1], acts[n - 1]);
    }
  }

  lemma BufExists(s: State, a: Action)
    requires Enabled(s, a)
    ensures a.buf < |s.bufs|
  {}

  lemma InitView(s: State, id: Id)
    requires Init(s) && id in s.disk && id.dev != 0
    ensures View(s, id) == s.disk[id]
  {}

  /** A thread that has read a block sees that map. */
  lemma ReadsView(run: seq<State>, acts: seq<Action>, n: nat, t: nat, i: nat)
    requires IsRun(run, acts) && n < |run| && Locked(run[n], t, i) && run[n].bufs[i].valid
    ensures var b := run[n].bufs[i]; b.id in run[n].disk && b.data == View(run[n], b.id)
  {
    RunInv(run, acts, n);
    assert BufOk(run[n], i);
    ViewIs(run[n], run[n].bufs[i].id, i);
  }

  /** Apart from the zeroed buffers of device 0, no block is in two buffers. */
  lemma OneBufferPerBlock(run: seq<State>, acts: seq<Action>, n: nat, i: nat, j: nat)
    requires IsRun(run, acts) && n < |run| && i < |run[n].bufs| && j < |run[n].bufs|
    requires run[n].bufs[i].id == run[n].bufs[j].id && run[n].bufs[i].id.dev != 0
    ensures i == j
  {
    RunInv(run, acts, n);
  }

  /** Only buffers that hold nothing new are recycled: a block that is logged and not installed yet stays cached. */
  lemma RecycledIsClean(run: seq<State>, acts: seq<Action>, n: nat)
    requires IsRun(run, acts) && n < |acts| && acts[n].Recycle?
    ensures acts[n].buf < |run[n].bufs|
    ensures var b := run[n].bufs[acts[n].buf]; b.valid ==> Clean(run[n], b) && b.pins == 0
  {
    RunInv(run, acts, n);
    assert BufOk(run[n], acts[n].buf);
  }
}
