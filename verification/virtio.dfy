/** The request queue of kernel/virtio_disk.c: descriptors, the available and used rings of sections 2.6 and 5.2 of
    VIRTIO 1.1, the driver's threads and interrupt handler, and a device that returns each request once. A step is
    what happens under vdisk_lock, or one access of the device. */
module Virtio {
  import opened Options

  const NUM: nat := 8
  const WRAP: nat := 0x1_0000                       // the ring indices are 16 bits wide
  const BUSY_STATUS: nat := 0xff

  /** A descriptor, as far as its place in a chain goes: `more` is VRING_DESC_F_NEXT. */
  datatype Desc = Desc(next: nat, more: bool)

  /** The descriptors of a request: idx[0], idx[1] and idx[2] of virtio_disk_rw(). */
  datatype Chain = Chain(head: nat, data: nat, status: nat)

  /** `busy` are the buffers with b->disk set; `requests` the buffers that virtio_disk_rw() is working for, with its
      local idx[]. Buffer 0 stands for the null pointer. devIdx and pending belong to the device: how far it has
      read the available ring, and the heads it has taken and not returned. */
  datatype State = State(
    free: seq<bool>, desc: seq<Desc>, info: seq<nat>, status: seq<nat>,
    availRing: seq<nat>, availIdx: nat, usedRing: seq<nat>, usedIdx: nat, seenIdx: nat,
    busy: set<nat>, requests: map<nat, Chain>, devIdx: nat, pending: set<nat>)

  datatype Action =
    | Submit(buf: nat)                              // virtio_disk_rw() up to the notification
    | Take                                          // the device reads an entry of the available ring
    | Complete(head: nat)                           // the device writes an entry of the used ring
    | Interrupt                                     // a turn of the loop in virtio_disk_intr()
    | Finish(buf: nat)                              // virtio_disk_rw() after it has been woken

  /** alloc_desc(): the first free descriptor, NUM for -1. */
  function FirstFree(free: seq<bool>): (i: nat)
    ensures i <= |free| && (i < |free| ==> free[i]) && forall j | 0 <= j < i :: !free[j]
  {
    if free == [] then 0 else if free[0] then 0 else 1 + FirstFree(free[1..])
  }

  function Count(free: seq<bool>): nat {
    if free == [] then 0 else Count(free[..|free| - 1]) + if free[|free| - 1] then 1 else 0
  }

  /** alloc3_desc(): three descriptors, or none if there are fewer. */
  function Alloc3(free: seq<bool>): Option<Chain> {
    var a := FirstFree(free);
    if a == |free| then None else
    var b := FirstFree(free[a := false]);
    if b == |free| then None else
    var c := FirstFree(free[a := false][b := false]);
    if c == |free| then None else Some(Chain(a, b, c))
  }

  function Taken(free: seq<bool>, c: Chain): seq<bool>
    requires c.head < |free| && c.data < |free| && c.status < |free|
  {
    free[c.head := false][c.data := false][c.status := false]
  }

  predicate Sizes(s: State) {
    && |s.free| == |s.desc| == |s.info| == |s.status| == |s.availRing| == |s.usedRing| == NUM
    && s.availIdx < WRAP && s.usedIdx < WRAP && s.seenIdx < WRAP && s.devIdx < WRAP
  }

  /** The device takes an entry only while it is behind, and returns only what it has taken. The handler panics on a
      status that is not 0; Finish waits for b->disk to be clear. */
  predicate Enabled(s: State, a: Action) {
    && Sizes(s)
    && match a
       case Submit(b) => b != 0 && b !in s.requests && Alloc3(s.free).Some?
       case Take => s.devIdx != s.availIdx
       case Complete(h) => h in s.pending && h < NUM
       case Interrupt =>
         s.seenIdx != s.usedIdx && s.usedRing[s.seenIdx % NUM] < NUM && s.status[s.usedRing[s.seenIdx % NUM]] == 0
       case Finish(b) =>
         && b in s.requests && b !in s.busy && s.requests[b].head < NUM && s.requests[b].data < NUM
         && s.requests[b].status < NUM
  }

  function Apply(s: State, a: Action): State
    requires Enabled(s, a)
  {
    match a
    case Submit(b) =>
      var c := Alloc3(s.free).value;
      s.(free := Taken(s.free, c),
         desc := s.desc[c.head := Desc(c.data, true)][c.data := Desc(c.status, true)][c.status := Desc(0, false)],
         status := s.status[c.head := BUSY_STATUS], info := s.info[c.head := b], busy := s.busy + {b},
         availRing := s.availRing[s.availIdx % NUM := c.head], availIdx := (s.availIdx + 1) % WRAP,
         requests := s.requests[b := c])
    case Take => s.(pending := s.pending + {s.availRing[s.devIdx % NUM]}, devIdx := (s.devIdx + 1) % WRAP)
    case Complete(h) =>
      s.(status := s.status[h := 0], usedRing := s.usedRing[s.usedIdx % NUM := h], usedIdx := (s.usedIdx + 1) % WRAP,
         pending := s.pending - {h})
    case Interrupt =>
      s.(busy := s.busy - {s.info[s.usedRing[s.seenIdx % NUM]]}, seenIdx := (s.seenIdx + 1) % WRAP)
    case Finish(b) =>
      var c := s.requests[b];
      s.(info := s.info[c.head := 0], free := s.free[c.head := true][c.data := true][c.status := true],
         desc := s.desc[c.head := Desc(0, false)][c.data := Desc(0, false)][c.status := Desc(0, false)],
         requests := map x | x in s.requests && x != b :: s.requests[x])
  }

  /** virtio_disk_init(): all descriptors free, the rings empty. */
  predicate Init(s: State) {
    && Sizes(s) && s.availIdx == s.usedIdx == s.seenIdx == s.devIdx == 0
    && (forall i | 0 <= i < NUM :: s.free[i]) && s.busy == {} && s.requests == map[] && s.pending == {}
  }

  predicate IsRun(run: seq<State>, acts: seq<Action>) {
    && |run| == |acts| + 1 && Init(run[0])
    && forall j | 0 <= j < |acts| :: Enabled(run[j], acts[j]) && run[j + 1] == Apply(run[j], acts[j])
  }

  // ----- the invariant -----

  predicate In(c: Chain, d: nat) {
    d == c.head || d == c.data || d == c.status
  }

  /** Each request has three descriptors of its own, linked in order; the others are free. who[d] is the buffer whose
      request has descriptor d. */
  ghost predicate ChainsOk(free: seq<bool>, desc: seq<Desc>, requests: map<nat, Chain>, who: map<nat, nat>) {
    && |free| == |desc| == NUM
    && (forall b | b in requests :: ChainOk(free, desc, requests[b]) && OwnsAll(who, requests[b], b))
    && (forall d | d in who :: d < NUM && !free[d] && who[d] in requests && In(requests[who[d]], d))
    && (forall d: nat | d < NUM && !free[d] :: d in who)
  }

  predicate OwnsAll(who: map<nat, nat>, c: Chain, b: nat) {
    && c.head in who && c.data in who && c.status in who
    && who[c.head] == b && who[c.data] == b && who[c.status] == b
  }

  predicate ChainOk(free: seq<bool>, desc: seq<Desc>, c: Chain)
    requires |free| == |desc| == NUM
  {
    && c.head < NUM && c.data < NUM && c.status < NUM && c.head != c.data && c.head != c.status && c.data != c.status
    && !free[c.head] && !free[c.data] && !free[c.status]
    && desc[c.head] == Desc(c.data, true) && desc[c.data] == Desc(c.status, true) && desc[c.status] == Desc(0, false)
  }

  /** The entries of a ring from index `from` up to index `to`. */
  ghost predicate RingOk(ring: seq<nat>, from: nat, to: nat, queue: seq<nat>) {
    && |ring| == NUM && |queue| <= 2 && to == (from + |queue|) % WRAP
    && forall k | 0 <= k < |queue| :: ring[Slot(from, k)] == queue[k]
  }

  function Slot(from: nat, k: nat): (i: nat)
    ensures i < NUM
  {
    (from + k) % NUM
  }
}
