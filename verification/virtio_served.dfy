/** virtio_disk_rw() comes back only when the device has served its request. */
module VirtioServed {
  import opened Options
  import opened Virtio
  import opened VirtioProof

  /** Something that was not so and is so has come about at some moment. */
  lemma {:induction false} Flip(p: seq<bool>, a: nat, b: nat) returns (m: nat)
    requires a <= b < |p| && !p[a] && p[b]
    ensures a <= m < b && !p[m] && p[m + 1]
    decreases b
  {
    if p[b - 1] {
      m := Flip(p, a, b - 1);
    } else {
      m := b - 1;
    }
  }

  /** The entries of a ring. */
  ghost function Queue(ring: seq<nat>, from: nat, to: nat): seq<nat>
    requires |ring| == NUM
  {
    seq((to + WRAP - from % WRAP) % WRAP, k requires 0 <= k < (to + WRAP - from % WRAP) % WRAP => ring[Slot(from, k)])
  }

  lemma QueueIs(ring: seq<nat>, from: nat, to: nat, queue: seq<nat>)
    requires from < WRAP && RingOk(ring, from, to, queue)
    ensures |ring| == NUM && Queue(ring, from, to) == queue
  {
    assert (to + WRAP - from % WRAP) % WRAP == |queue|;
  }

  ghost predicate InUsed(s: State, h: nat) {
    Sizes(s) && h in Queue(s.usedRing, s.seenIdx, s.usedIdx)
  }

  /** Only the device puts a head into the used ring, and only one that it has taken. */
  lemma NewUsed(s: State, a: Action, h: nat, avail: seq<nat>, used: seq<nat>, who: map<nat, nat>)
    requires Inv(s, avail, used, who) && Enabled(s, a) && !InUsed(s, h) && InUsed(Apply(s, a), h)
    ensures a == Complete(h)
  {
    hide ChainsOk, Count;
    QueueIs(s.usedRing, s.seenIdx, s.usedIdx, used);
    if a.Complete? {
      QueueSizes(s, avail, used, who, a);
      RingPush(s.usedRing, s.seenIdx, s.usedIdx, used, a.head);
      QueueIs(Apply(s, a).usedRing, s.seenIdx, Apply(s, a).usedIdx, used + [a.head]);
    } else if a.Interrupt? {
      RingPop(s.usedRing, s.seenIdx, s.usedIdx, used);
      QueueIs(s.usedRing, Apply(s, a).seenIdx, s.usedIdx, used[1..]);
    }
  }

  /** A chain just allocated is not in the device's hands, nor in the used ring. */
  lemma FreshHead(s: State, b: nat, avail: seq<nat>, used: seq<nat>, who: map<nat, nat>)
    requires Inv(s, avail, used, who) && Enabled(s, Submit(b))
    ensures var t := Apply(s, Submit(b));
      b in t.requests && b in t.busy && t.requests[b].head !in t.pending && !InUsed(t, t.requests[b].head)
  {
    hide Alloc3, Count, RingOk;
    var c := Alloc3(s.free).value;
    AllocFresh(s.free);
    assert forall d: nat | Working(s.info, s.busy, s.requests, d) :: d != c.head by {
      forall d: nat | Working(s.info, s.busy, s.requests, d) ensures d != c.head {
        assert ChainOk(s.free, s.desc, s.requests[s.info[d]]);
      }
    }
    QueueIs(s.usedRing, s.seenIdx, s.usedIdx, used);
  }

  /** Since its submission, request b has been neither submitted again nor finished. */
  predicate Since(run: seq<State>, acts: seq<Action>, i: nat, j: nat, b: nat) {
    && i < j < |run| == |acts| + 1 && acts[i] == Submit(b)
    && (forall x | i < x < j :: acts[x] != Submit(b) && acts[x] != Finish(b))
    && b in run[i + 1].requests
    && (forall x | i < x <= j :: b in run[x].requests && run[x].requests[b] == run[i + 1].requests[b])
  }

  lemma RequestsStay(s: State, a: Action, b: nat)
    requires Enabled(s, a) && a != Submit(b)
    ensures b in Apply(s, a).requests ==> b in s.requests && Apply(s, a).requests[b] == s.requests[b] && a != Finish(b)
  {}

  lemma {:induction false} Submitted(run: seq<State>, acts: seq<Action>, j: nat, b: nat) returns (i: nat)
    requires IsRun(run, acts) && j < |run| && b in run[j].requests
    ensures Since(run, acts, i, j, b)
    decreases j
  {
    hide Enabled, Apply;
    assert Init(run[0]);
    var a := acts[j - 1];
    assert Enabled(run[j - 1], a) && run[j] == Apply(run[j - 1], a);
    if a == Submit(b) {
      i := j - 1;
    } else {
      RequestsStay(run[j - 1], a, b);
      i := Submitted(run, acts, j - 1, b);
    }
  }

  /** Between the submission and the moment at which b->disk is clear again, a handler has cleared it. */
  lemma Cleared(run: seq<State>, acts: seq<Action>, i: nat, j: nat, b: nat) returns (m: nat)
    requires IsRun(run, acts) && Since(run, acts, i, j, b) && b !in run[j].busy
    ensures i < m < j && acts[m].Interrupt? && Enabled(run[m], Interrupt)
    ensures run[m].usedRing[run[m].seenIdx % NUM] == run[i + 1].requests[b].head
  {
    hide Inv, Enabled, Apply;
    var avail, used, who := RunInv(run, acts, i);
    assert run[i + 1] == Apply(run[i], acts[i]);
    FreshHead(run[i], b, avail, used, who);
    m := Flip(seq(|run|, x requires 0 <= x < |run| => b !in run[x].busy), i + 1, j);
    assert run[m + 1] == Apply(run[m], acts[m]);
    BusyUntilSeen(run[m], acts[m], b);
    Seen(run[m], b);
    CompletesItsOwn(run, acts, m);
  }

  lemma Seen(s: State, b: nat)
    requires Enabled(s, Interrupt) && b in s.busy && b !in Apply(s, Interrupt).busy
    ensures s.seenIdx != s.usedIdx && s.info[s.usedRing[s.seenIdx % NUM]] == b
  {}

  lemma FirstUsed(s: State, avail: seq<nat>, used: seq<nat>, who: map<nat, nat>)
    requires Inv(s, avail, used, who) && s.seenIdx != s.usedIdx
    ensures InUsed(s, s.usedRing[s.seenIdx % NUM])
  {
    hide ChainsOk, Count, WorkOk;
    QueueIs(s.usedRing, s.seenIdx, s.usedIdx, used);
    RingPop(s.usedRing, s.seenIdx, s.usedIdx, used);
  }

  /** A head in the used ring has been put there since it was not. */
  lemma Completed(run: seq<State>, acts: seq<Action>, i: nat, m: nat, h: nat) returns (k: nat)
    requires IsRun(run, acts) && i < m < |run| && !InUsed(run[i], h) && InUsed(run[m], h)
    ensures i <= k < m && acts[k] == Complete(h) && Enabled(run[k], Complete(h))
  {
    hide Inv, Enabled, Apply, InUsed;
    k := Flip(seq(|run|, x requires 0 <= x < |run| => InUsed(run[x], h)), i, m);
    var avail, used, who := RunInv(run, acts, k);
    assert run[k + 1] == Apply(run[k], acts[k]);
    NewUsed(run[k], acts[k], h, avail, used, who);
  }

  /** The device takes the head of the entry it has come to in the available ring. */
  predicate Takes(s: State, a: Action, h: nat) {
    a.Take? && Sizes(s) && s.availRing[s.devIdx % NUM] == h
  }

  lemma NewPending(s: State, a: Action, h: nat)
    requires Enabled(s, a) && h !in s.pending && h in Apply(s, a).pending
    ensures Takes(s, a, h)
  {}

  lemma TakenByDevice(run: seq<State>, acts: seq<Action>, i: nat, k: nat, h: nat) returns (t: nat)
    requires IsRun(run, acts) && i < k < |run| && h !in run[i].pending && h in run[k].pending
    ensures i <= t < k && Takes(run[t], acts[t], h)
  {
    hide Enabled, Apply, Takes;
    t := Flip(seq(|run|, x requires 0 <= x < |run| => h in run[x].pending), i, k);
    assert run[t + 1] == Apply(run[t], acts[t]);
    NewPending(run[t], acts[t], h);
  }

  lemma MustPend(s: State, h: nat)
    requires Enabled(s, Complete(h))
    ensures h in s.pending
  {}

  lemma MayFinish(s: State, b: nat)
    requires Enabled(s, Finish(b))
    ensures b in s.requests && b !in s.busy
  {}

  /** In every run: when virtio_disk_rw() goes on after its sleep, then since it submitted the request the device has
      taken the head of its chain from the available ring, has returned that head in the used ring, and the handler has
      seen it there, in this order. */
  lemma ServedBeforeDone(run: seq<State>, acts: seq<Action>, j: nat, b: nat)
    returns (i: nat, t: nat, k: nat, m: nat)
    requires IsRun(run, acts) && j < |acts| && acts[j] == Finish(b)
    ensures i < t < k < m < j && Since(run, acts, i, j, b)
    ensures var h := run[i + 1].requests[b].head;
      && Takes(run[t], acts[t], h) && acts[k] == Complete(h)
      && acts[m].Interrupt? && Sizes(run[m]) && run[m].usedRing[run[m].seenIdx % NUM] == h
  {
    hide Inv, Enabled, Apply, InUsed, Takes, Since;
    assert Enabled(run[j], acts[j]);
    MayFinish(run[j], b);
    i := Submitted(run, acts, j, b);
    m := Cleared(run, acts, i, j, b);
    OfSubmit(run, acts, i, j, b);
    var h := run[i + 1].requests[b].head;
    assert acts[m].Interrupt?;
    var avail, used, who := RunInv(run, acts, m);
    HandlerSees(run[m]);
    FirstUsed(run[m], avail, used, who);
    if m == i + 1 { assert false; }
    k := Completed(run, acts, i + 1, m, h);
    MustPend(run[k], h);
    if k == i + 1 { assert false; }
    t := TakenByDevice(run, acts, i + 1, k, h);
  }

  lemma HandlerSees(s: State)
    requires Enabled(s, Interrupt)
    ensures Sizes(s) && s.seenIdx != s.usedIdx
  {}

  lemma OfSubmit(run: seq<State>, acts: seq<Action>, i: nat, j: nat, b: nat)
    requires IsRun(run, acts) && Since(run, acts, i, j, b)
    ensures b in run[i + 1].requests
    ensures run[i + 1].requests[b].head !in run[i + 1].pending && !InUsed(run[i + 1], run[i + 1].requests[b].head)
  {
    hide Inv, Enabled, Apply, InUsed;
    var avail, used, who := RunInv(run, acts, i);
    assert run[i + 1] == Apply(run[i], acts[i]);
    FreshHead(run[i], b, avail, used, who);
  }
}
