/** What every step of the disk driver and its device keeps. */
module VirtioProof {
  import opened Options
  import opened Virtio

  /** Head h is being worked on: it is the head of the request of a buffer that is still busy. */
  predicate Working(info: seq<nat>, busy: set<nat>, requests: map<nat, Chain>, h: nat) {
    h < |info| && info[h] in busy && info[h] in requests && requests[info[h]].head == h
  }

  /** The heads of the busy requests are in exactly one of three places: the available ring, the device, the used
      ring. */
  ghost predicate WorkOk(info: seq<nat>, busy: set<nat>, requests: map<nat, Chain>, pending: set<nat>, avail: seq<nat>,
                         used: seq<nat>)
  {
    && (forall k | 0 <= k < |avail| ::
          Working(info, busy, requests, avail[k]) && avail[k] !in pending && avail[k] !in used)
    && (forall h | h in pending :: Working(info, busy, requests, h) && h !in used)
    && (forall k | 0 <= k < |used| :: Working(info, busy, requests, used[k]))
    && (forall j, k | 0 <= j < k < |avail| :: avail[j] != avail[k])
    && (forall j, k | 0 <= j < k < |used| :: used[j] != used[k])
    && (forall b | b in busy ::
          b in requests && (requests[b].head in avail || requests[b].head in pending || requests[b].head in used))
    && (forall b | b in requests :: b != 0 && requests[b].head < |info| && info[requests[b].head] == b)
    && |busy| == |avail| + |pending| + |used|
  }

  ghost predicate Inv(s: State, avail: seq<nat>, used: seq<nat>, who: map<nat, nat>) {
    && Sizes(s) && ChainsOk(s.free, s.desc, s.requests, who) && Count(s.free) + 3 * |s.requests| == NUM
    && RingOk(s.availRing, s.devIdx, s.availIdx, avail) && RingOk(s.usedRing, s.seenIdx, s.usedIdx, used)
    && WorkOk(s.info, s.busy, s.requests, s.pending, avail, used)
    && (forall k | 0 <= k < |used| :: used[k] < NUM && s.status[used[k]] == 0)
  }

  lemma InitInv(s: State)
    requires Init(s)
    ensures Inv(s, [], [], map[])
  {
    AllFree(s.free);
  }

  lemma {:induction false} AllFree(free: seq<bool>)
    requires forall i | 0 <= i < |free| :: free[i]
    ensures Count(free) == |free|
  {
    if free != [] { AllFree(free[..|free| - 1]); }
  }

  // ----- counting -----

  lemma {:induction false} CountUpdate(free: seq<bool>, i: nat, x: bool)
    requires i < |free|
    ensures Count(free[i := x]) == Count(free) - (if free[i] then 1 else 0) + (if x then 1 else 0)
  {
    var n := |free| - 1;
    if i == n {
      assert free[i := x][..n] == free[..n];
    } else {
      CountUpdate(free[..n], i, x);
      assert free[i := x][..n] == free[..n][i := x];
    }
  }

  lemma {:induction false} CountNone(free: seq<bool>)
    requires forall i | 0 <= i < |free| :: !free[i]
    ensures Count(free) == 0
  {
    if free != [] { CountNone(free[..|free| - 1]); }
  }

  /** alloc3_desc() succeeds exactly if three descriptors are free, and gives three different ones. */
  lemma Alloc3Exact(free: seq<bool>)
    ensures Alloc3(free).Some? <==> Count(free) >= 3
    ensures Alloc3(free).Some? ==> var c := Alloc3(free).value;
      && c.head < |free| && c.data < |free| && c.status < |free| && free[c.head] && free[c.data] && free[c.status]
      && c.head != c.data && c.head != c.status && c.data != c.status && Count(Taken(free, c)) == Count(free) - 3
  {
    var a := FirstFree(free);
    if a == |free| {
      CountNone(free);
    } else {
      var free1 := free[a := false];
      CountUpdate(free, a, false);
      var b := FirstFree(free1);
      if b == |free| {
        CountNone(free1);
      } else {
        var free2 := free1[b := false];
        CountUpdate(free1, b, false);
        var c := FirstFree(free2);
        if c == |free| { CountNone(free2); } else { CountUpdate(free2, c, false); }
      }
    }
  }

  // ----- the rings -----

  lemma RingPush(ring: seq<nat>, from: nat, to: nat, queue: seq<nat>, x: nat)
    requires RingOk(ring, from, to, queue) && from < WRAP && to < WRAP && |queue| < 2
    ensures RingOk(ring[to % NUM := x], from, (to + 1) % WRAP, queue + [x])
  {
    forall k | 0 <= k < |queue| + 1 ensures ring[to % NUM := x][Slot(from, k)] == (queue + [x])[k] {}
  }

  lemma RingPop(ring: seq<nat>, from: nat, to: nat, queue: seq<nat>)
    requires RingOk(ring, from, to, queue) && from < WRAP && to < WRAP && from != to
    ensures queue != [] && ring[from % NUM] == queue[0] && RingOk(ring, (from + 1) % WRAP, to, queue[1..])
  {
    assert Slot(from, 0) == from % NUM;
    forall k | 0 <= k < |queue| - 1 ensures ring[Slot((from + 1) % WRAP, k)] == queue[1..][k] {
      assert Slot((from + 1) % WRAP, k) == Slot(from, k + 1);
    }
  }

  /** The indices differ exactly if the ring holds something, whatever they have wrapped around to. */
  lemma RingEmpty(ring: seq<nat>, from: nat, to: nat, queue: seq<nat>)
    requires RingOk(ring, from, to, queue) && from < WRAP && to < WRAP
    ensures from == to <==> queue == []
  {}

  // ----- each step -----

  lemma SubsetSize(a: set<nat>, b: set<nat>)
    requires a <= b
    ensures |a| <= |b|
  {
    assert a + (b - a) == b;
  }

  lemma FewBusy(s: State, avail: seq<nat>, used: seq<nat>, who: map<nat, nat>)
    requires Inv(s, avail, used, who)
    ensures |s.busy| <= |s.requests| <= 2
  {
    assert s.busy <= s.requests.Keys;
    SubsetSize(s.busy, s.requests.Keys);
  }

  function Linked(desc: seq<Desc>, c: Chain): seq<Desc>
    requires c.head < |desc| && c.data < |desc| && c.status < |desc|
  {
    desc[c.head := Desc(c.data, true)][c.data := Desc(c.status, true)][c.status := Desc(0, false)]
  }

  function Claimed(who: map<nat, nat>, c: Chain, b: nat): map<nat, nat> {
    who[c.head := b][c.data := b][c.status := b]
  }

  predicate Fresh(free: seq<bool>, c: Chain) {
    && c.head < |free| && c.data < |free| && c.status < |free| && free[c.head] && free[c.data] && free[c.status]
    && c.head != c.data && c.head != c.status && c.data != c.status
  }

  lemma OtherChain(free: seq<bool>, desc: seq<Desc>, requests: map<nat, Chain>, who: map<nat, nat>, b: nat, c: Chain,
                   x: nat)
    requires ChainsOk(free, desc, requests, who) && b !in requests && Fresh(free, c) && x in requests
    ensures ChainOk(Taken(free, c), Linked(desc, c), requests[x]) && OwnsAll(Claimed(who, c, b), requests[x], x)
    ensures requests[x].head != c.head
  {
    assert ChainOk(free, desc, requests[x]) && OwnsAll(who, requests[x], x);
  }

  lemma SubmitChains(free: seq<bool>, desc: seq<Desc>, requests: map<nat, Chain>, who: map<nat, nat>, b: nat, c: Chain)
    requires ChainsOk(free, desc, requests, who) && b !in requests && Fresh(free, c)
    ensures ChainsOk(Taken(free, c), Linked(desc, c), requests[b := c], Claimed(who, c, b))
  {
    hide ChainOk, OwnsAll;
    assert ChainOk(Taken(free, c), Linked(desc, c), c) && OwnsAll(Claimed(who, c, b), c, b) by {
      NewChain(free, desc, who, b, c);
    }
    forall x | x in requests
      ensures ChainOk(Taken(free, c), Linked(desc, c), requests[x]) && OwnsAll(Claimed(who, c, b), requests[x], x)
    {
      OtherChain(free, desc, requests, who, b, c, x);
    }
  }

  lemma NewChain(free: seq<bool>, desc: seq<Desc>, who: map<nat, nat>, b: nat, c: Chain)
    requires |free| == |desc| == NUM && Fresh(free, c)
    ensures ChainOk(Taken(free, c), Linked(desc, c), c) && OwnsAll(Claimed(who, c, b), c, b)
  {}

  /** Working heads stay so while another request joins. */
  lemma StillWorking(info: seq<nat>, busy: set<nat>, requests: map<nat, Chain>, b: nat, c: Chain, h: nat)
    requires Working(info, busy, requests, h) && b !in requests && c.head < |info|
    requires forall x | x in requests :: requests[x].head != c.head
    ensures h != c.head && Working(info[c.head := b], busy + {b}, requests[b := c], h)
  {}

  lemma SubmitWork(info: seq<nat>, busy: set<nat>, requests: map<nat, Chain>, pending: set<nat>, avail: seq<nat>,
                   used: seq<nat>, b: nat, c: Chain)
    requires WorkOk(info, busy, requests, pending, avail, used) && b != 0 && b !in requests && c.head < |info|
    requires forall x | x in requests :: requests[x].head != c.head
    ensures WorkOk(info[c.head := b], busy + {b}, requests[b := c], pending, avail + [c.head], used)
  {
    hide Working;
    var info', busy', requests', avail' := info[c.head := b], busy + {b}, requests[b := c], avail + [c.head];
    assert b !in busy;
    assert avail'[|avail|] == c.head && forall k | 0 <= k < |avail| :: avail'[k] == avail[k];
    assert Working(info', busy', requests', c.head) by { NowWorking(info, busy, requests, b, c); }
    forall h: nat | Working(info, busy, requests, h) ensures h != c.head && Working(info', busy', requests', h) {
      StillWorking(info, busy, requests, b, c, h);
    }
    assert c.head !in pending && c.head !in used;
  }

  lemma NowWorking(info: seq<nat>, busy: set<nat>, requests: map<nat, Chain>, b: nat, c: Chain)
    requires c.head < |info|
    ensures Working(info[c.head := b], busy + {b}, requests[b := c], c.head)
  {}

  lemma TakeWork(info: seq<nat>, busy: set<nat>, requests: map<nat, Chain>, pending: set<nat>, avail: seq<nat>,
                 used: seq<nat>)
    requires WorkOk(info, busy, requests, pending, avail, used) && avail != []
    ensures WorkOk(info, busy, requests, pending + {avail[0]}, avail[1..], used)
  {
    hide Working;
    assert forall k | 0 <= k < |avail| - 1 :: avail[1..][k] == avail[k + 1];
    assert avail == [avail[0]] + avail[1..];
  }

  lemma CompleteWork(info: seq<nat>, busy: set<nat>, requests: map<nat, Chain>, pending: set<nat>, avail: seq<nat>,
                     used: seq<nat>, h: nat)
    requires WorkOk(info, busy, requests, pending, avail, used) && h in pending
    ensures WorkOk(info, busy, requests, pending - {h}, avail, used + [h])
  {
    hide Working;
    var used' := used + [h];
    assert used'[|used|] == h && forall k | 0 <= k < |used| :: used'[k] == used[k];
  }

  lemma InterruptWork(info: seq<nat>, busy: set<nat>, requests: map<nat, Chain>, pending: set<nat>, avail: seq<nat>,
                      used: seq<nat>)
    requires WorkOk(info, busy, requests, pending, avail, used) && used != []
    ensures used[0] < |info| && WorkOk(info, busy - {info[used[0]]}, requests, pending, avail, used[1..])
  {
    var busy' := busy - {info[used[0]]};
    assert Working(info, busy, requests, used[0]);
    assert used == [used[0]] + used[1..] && forall k | 0 <= k < |used| - 1 :: used[1..][k] == used[k + 1];
    forall h: nat | Working(info, busy, requests, h) && h != used[0] ensures Working(info, busy', requests, h) {}
    hide Working;
    forall k | 0 <= k < |avail| ensures avail[k] != used[0] {}
  }

  lemma FinishWork(info: seq<nat>, busy: set<nat>, requests: map<nat, Chain>, pending: set<nat>, avail: seq<nat>,
                   used: seq<nat>, b: nat)
    requires WorkOk(info, busy, requests, pending, avail, used) && b in requests && b !in busy
    ensures requests[b].head < |info|
    ensures WorkOk(info[requests[b].head := 0], busy, Less(requests, b), pending, avail, used)
  {
    var info', requests' := info[requests[b].head := 0], Less(requests, b);
    forall h: nat | Working(info, busy, requests, h) ensures Working(info', busy, requests', h) {}
    hide Working;
  }

  function Less(requests: map<nat, Chain>, b: nat): map<nat, Chain> {
    map x | x in requests && x != b :: requests[x]
  }

  function Unlinked(desc: seq<Desc>, c: Chain): seq<Desc>
    requires c.head < |desc| && c.data < |desc| && c.status < |desc|
  {
    desc[c.head := Desc(0, false)][c.data := Desc(0, false)][c.status := Desc(0, false)]
  }

  function Returned(free: seq<bool>, c: Chain): seq<bool>
    requires c.head < |free| && c.data < |free| && c.status < |free|
  {
    free[c.head := true][c.data := true][c.status := true]
  }

  function Disowned(who: map<nat, nat>, b: nat): map<nat, nat> {
    map d | d in who && who[d] != b :: who[d]
  }

  lemma LeftChain(free: seq<bool>, desc: seq<Desc>, requests: map<nat, Chain>, who: map<nat, nat>, b: nat, x: nat)
    requires ChainsOk(free, desc, requests, who) && b in requests && x in requests && x != b
    ensures ChainOk(free, desc, requests[b])
    ensures ChainOk(Returned(free, requests[b]), Unlinked(desc, requests[b]), requests[x])
    ensures OwnsAll(Disowned(who, b), requests[x], x)
  {
    assert ChainOk(free, desc, requests[x]) && OwnsAll(who, requests[x], x);
    assert ChainOk(free, desc, requests[b]) && OwnsAll(who, requests[b], b);
  }

  lemma FinishChains(free: seq<bool>, desc: seq<Desc>, requests: map<nat, Chain>, who: map<nat, nat>, b: nat)
    requires ChainsOk(free, desc, requests, who) && b in requests
    ensures ChainOk(free, desc, requests[b])
    ensures ChainsOk(Returned(free, requests[b]), Unlinked(desc, requests[b]), Less(requests, b), Disowned(who, b))
    ensures Count(Returned(free, requests[b])) == Count(free) + 3
  {
    hide Count, Returned, Unlinked, Disowned, ChainOk, OwnsAll;
    var c := requests[b];
    LeftOver(free, desc, requests, who, b);
    CountReturned(free, desc, c);
    forall x | x in requests && x != b
      ensures ChainOk(Returned(free, c), Unlinked(desc, c), requests[x]) && OwnsAll(Disowned(who, b), requests[x], x)
    {
      LeftChain(free, desc, requests, who, b, x);
    }
  }

  lemma CountReturned(free: seq<bool>, desc: seq<Desc>, c: Chain)
    requires |free| == |desc| == NUM && ChainOk(free, desc, c)
    ensures Count(Returned(free, c)) == Count(free) + 3
  {
    hide Count;
    CountUpdate(free, c.head, true);
    CountUpdate(free[c.head := true], c.data, true);
    CountUpdate(free[c.head := true][c.data := true], c.status, true);
  }

  lemma LeftOver(free: seq<bool>, desc: seq<Desc>, requests: map<nat, Chain>, who: map<nat, nat>, b: nat)
    requires ChainsOk(free, desc, requests, who) && b in requests
    ensures ChainOk(free, desc, requests[b]) && requests[b].head < NUM && requests[b].data < NUM
    ensures requests[b].status < NUM
    ensures var free', who', requests' := Returned(free, requests[b]), Disowned(who, b), Less(requests, b);
      && |free'| == |Unlinked(desc, requests[b])| == NUM
      && (forall d | d in who' :: d < NUM && !free'[d] && who'[d] in requests' && In(requests'[who'[d]], d))
      && (forall d: nat | d < NUM && !free'[d] :: d in who')
  {
    assert ChainOk(free, desc, requests[b]) && OwnsAll(who, requests[b], b);
    hide ChainOk;
    forall d: nat | d < NUM && !Returned(free, requests[b])[d] ensures d in Disowned(who, b) {
      assert d in who;
    }
  }

  // ----- every step -----

  lemma SubmitKeeps(s: State, a: Action, avail: seq<nat>, used: seq<nat>, who: map<nat, nat>)
    requires Inv(s, avail, used, who) && a.Submit? && Enabled(s, a)
    ensures var c := Alloc3(s.free).value; Inv(Apply(s, a), avail + [c.head], used, Claimed(who, c, a.buf))
  {
    hide WorkOk, RingOk, Count, Alloc3, ChainsOk, Fresh, Claimed;
    var c := Alloc3(s.free).value;
    AllocFresh(s.free);
    forall x | x in s.requests ensures s.requests[x].head != c.head {
      OtherChain(s.free, s.desc, s.requests, who, a.buf, c, x);
    }
    SubmitChains(s.free, s.desc, s.requests, who, a.buf, c);
    SubmitWork(s.info, s.busy, s.requests, s.pending, avail, used, a.buf, c);
    QueueSizes(s, avail, used, who, a);
    RingPush(s.availRing, s.devIdx, s.availIdx, avail, c.head);
    assert s.requests[a.buf := c].Keys == s.requests.Keys + {a.buf};
    UsedNotHead(s, avail, used, who, c.head);
  }

  lemma AllocFresh(free: seq<bool>)
    requires Alloc3(free).Some?
    ensures var c := Alloc3(free).value;
      && Fresh(free, c) && c.head < |free| && c.data < |free| && c.status < |free| && free[c.head]
      && Count(Taken(free, c)) == Count(free) - 3
  {
    hide Alloc3, Count;
    Alloc3Exact(free);
  }

  lemma QueueSizes(s: State, avail: seq<nat>, used: seq<nat>, who: map<nat, nat>, a: Action)
    requires Inv(s, avail, used, who) && Enabled(s, a)
    ensures a.Submit? ==> |avail| < 2
    ensures a.Complete? ==> |used| < 2
  {
    FewBusy(s, avail, used, who);
    if a.Submit? {
      Alloc3Exact(s.free);
    }
    if a.Complete? {
      SubsetSize({a.head}, s.pending);
    }
  }

  lemma UsedNotHead(s: State, avail: seq<nat>, used: seq<nat>, who: map<nat, nat>, h: nat)
    requires Inv(s, avail, used, who) && h < NUM && s.free[h]
    ensures h !in used
  {
    forall k | 0 <= k < |used| ensures used[k] != h {
      assert Working(s.info, s.busy, s.requests, used[k]);
      assert ChainOk(s.free, s.desc, s.requests[s.info[used[k]]]);
    }
  }

  lemma Keeps(s: State, a: Action, avail: seq<nat>, used: seq<nat>, who: map<nat, nat>)
    returns (avail': seq<nat>, used': seq<nat>, who': map<nat, nat>)
    requires Inv(s, avail, used, who) && Enabled(s, a)
    ensures Inv(Apply(s, a), avail', used', who')
  {
    hide WorkOk, RingOk, ChainsOk, Count, Alloc3, RingOk;
    avail', used', who' := avail, used, who;
    match a
    case Submit(b) =>
      SubmitKeeps(s, a, avail, used, who);
      avail', who' := avail + [Alloc3(s.free).value.head], Claimed(who, Alloc3(s.free).value, b);
    case Take =>
      RingPop(s.availRing, s.devIdx, s.availIdx, avail);
      TakeWork(s.info, s.busy, s.requests, s.pending, avail, used);
      avail' := avail[1..];
    case Complete(h) =>
      QueueSizes(s, avail, used, who, a);
      RingPush(s.usedRing, s.seenIdx, s.usedIdx, used, h);
      CompleteWork(s.info, s.busy, s.requests, s.pending, avail, used, h);
      used' := used + [h];
    case Interrupt =>
      RingPop(s.usedRing, s.seenIdx, s.usedIdx, used);
      InterruptWork(s.info, s.busy, s.requests, s.pending, avail, used);
      used' := used[1..];
      assert forall k | 0 <= k < |used'| :: used'[k] == used[k + 1];
    case Finish(b) =>
      FinishChains(s.free, s.desc, s.requests, who, b);
      FinishWork(s.info, s.busy, s.requests, s.pending, avail, used, b);
      who' := Disowned(who, b);
      assert Less(s.requests, b).Keys == s.requests.Keys - {b};
  }

  // ----- every run -----

  lemma {:induction false} RunInv(run: seq<State>, acts: seq<Action>, j: nat)
    returns (avail: seq<nat>, used: seq<nat>, who: map<nat, nat>)
    requires IsRun(run, acts) && j < |run|
    ensures Inv(run[j], avail, used, who)
  {
    hide Inv, Apply, Enabled, Init;
    if j == 0 {
      InitInv(run[0]);
      avail, used, who := [], [], map[];
    } else {
      avail, used, who := RunInv(run, acts, j - 1);
      avail, used, who := Keeps(run[j - 1], acts[j - 1], avail, used, who);
    }
  }

  /** At any time, free descriptors and three for each request add up; requests share none; each is a chain of three
      that ends. */
  lemma Conserved(run: seq<State>, acts: seq<Action>, j: nat)
    requires IsRun(run, acts) && j < |run|
    ensures Count(run[j].free) + 3 * |run[j].requests| == NUM
    ensures Sizes(run[j]) && forall b | b in run[j].requests :: ChainOk(run[j].free, run[j].desc, run[j].requests[b])
    ensures forall b, c, d | b in run[j].requests && c in run[j].requests
      && In(run[j].requests[b], d) && In(run[j].requests[c], d) :: b == c
  {
    hide IsRun, RingOk, WorkOk, Count;
    RunLength(run, acts);
    var avail, used, who := RunInv(run, acts, j);
    forall b, c, d | b in run[j].requests && c in run[j].requests
      && In(run[j].requests[b], d) && In(run[j].requests[c], d)
      ensures b == c
    {
      assert OwnsAll(who, run[j].requests[b], b) && OwnsAll(who, run[j].requests[c], c);
    }
  }

  lemma RunLength(run: seq<State>, acts: seq<Action>)
    requires IsRun(run, acts)
    ensures |run| == |acts| + 1
  {}

  /** Any completion the handler sees clears the buffer of the request that was completed, and no other: the entry is
      the head of that buffer's chain, the buffer is busy, and the status is 0. */
  lemma CompletesItsOwn(run: seq<State>, acts: seq<Action>, j: nat)
    requires IsRun(run, acts) && j < |run| && run[j].seenIdx != run[j].usedIdx
    ensures Enabled(run[j], Interrupt)
    ensures var s := run[j]; var h := s.usedRing[s.seenIdx % NUM]; var b := s.info[h];
      && b in s.busy && b in s.requests && s.requests[b].head == h && s.status[h] == 0
      && Apply(s, Interrupt).busy == s.busy - {b}
  {
    hide IsRun, ChainsOk, Count, RingOk;
    RunLength(run, acts);
    var s := run[j];
    var avail, used, who := RunInv(run, acts, j);
    RingPop(s.usedRing, s.seenIdx, s.usedIdx, used);
    assert Working(s.info, s.busy, s.requests, used[0]);
  }

  /** A buffer leaves the busy state in no other way, and then its descriptors can be freed: free_desc() finds them in
      use. */
  lemma FinishSafe(run: seq<State>, acts: seq<Action>, j: nat, b: nat)
    requires IsRun(run, acts) && j < |run| && b in run[j].requests && b !in run[j].busy
    ensures Enabled(run[j], Finish(b))
    ensures var s := run[j]; var c := s.requests[b]; !s.free[c.head] && !s.free[c.data] && !s.free[c.status]
  {
    hide IsRun, Count, RingOk, WorkOk;
    RunLength(run, acts);
    var avail, used, who := RunInv(run, acts, j);
    assert ChainOk(run[j].free, run[j].desc, run[j].requests[b]);
  }

  lemma BusyUntilSeen(s: State, a: Action, b: nat)
    requires Enabled(s, a) && b in s.busy && b !in Apply(s, a).busy
    ensures a.Interrupt?
  {}
}
