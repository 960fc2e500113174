/** What every step of the log machine keeps, and what every run of it guarantees. */
module WalProof {
  import opened Wal

  /** The entries of the in-memory header from this index on hold contents that are not yet at home. */
  function FirstUnwritten(ph: Phase, n: nat): nat {
    match ph
    case Install(tail) => tail
    case Boot | Replay(_) | EraseReplay => n
    case _ => 0
  }

  predicate Distinct(lh: seq<nat>) {
    forall i, j | 0 <= i < j < |lh| :: lh[i] != lh[j]
  }

  predicate Committing(ph: Phase) {
    ph.WriteLog? || ph.WriteHead? || ph.Install? || ph.EraseHead? || ph.Committed?
  }

  predicate Recovering(ph: Phase) {
    ph.Boot? || ph.Replay? || ph.EraseReplay?
  }

  /** The in-memory header is a list of distinct home blocks that fits the log. */
  predicate ListOk(sb: Super, lh: seq<nat>) {
    && Distinct(lh) && |lh| <= LOGSIZE && |lh| < sb.nlog
    && forall i | 0 <= i < |lh| :: IsHome(sb, lh[i])
  }

  /** Space reserved in the log: blocks already there plus what the open operations may still add. */
  predicate BudgetOk(s: State) {
    && s.outstanding == CountActive(s.ops)
    && (forall p | 0 <= p < |s.ops| && s.ops[p].Active? :: s.ops[p].used <= MAXOPBLOCKS)
    && (s.phase.Running? ==> |s.lh| + MAXOPBLOCKS * s.outstanding <= LOGSIZE + SumUsed(s.ops))
    && (!s.phase.Running? ==> s.outstanding == 0)
    && s.committing == Committing(s.phase)
  }

  /** Exactly one pin per entry from `first` on, and no other. */
  predicate PinsOk(lh: seq<nat>, first: nat, pins: multiset<nat>) {
    && (forall i {:trigger lh[i]} | 0 <= i < |lh| :: pins[lh[i]] == if i < first then 0 else 1)
    && (forall b | b in pins :: b in lh)
  }

  /** A buffer that is neither pinned nor held agrees with the disk. */
  ghost predicate CacheOk(sb: Super, disk: Disk, cache: map<nat, Block>, pins: multiset<nat>, locked: map<nat, nat>) {
    && (forall b | b in cache :: b < sb.size)
    && (forall b | b in pins :: b in cache)
    && (forall b | b in locked :: IsHome(sb, b) && b in cache)
    && (forall b | b in cache && b !in pins && b !in locked :: b in disk && cache[b] == disk[b])
  }

  predicate LocksOk(locked: map<nat, nat>, ops: seq<Op>) {
    forall b | b in locked :: locked[b] < |ops| && ops[locked[b]].Active?
  }

  /** The first `k` blocks named by `lh` already hold the contents of their log slots. */
  ghost predicate Copied(sb: Super, d: Disk, lh: seq<nat>, k: nat) {
    forall i {:trigger lh[i]} | 0 <= i < k && i < |lh| ::
      lh[i] in d && Slot(sb, i) in d && d[lh[i]] == d[Slot(sb, i)]
  }

  /** The log slots from `lo` up to `hi` hold the cached contents of the blocks named by `lh`. */
  ghost predicate Saved(sb: Super, d: Disk, cache: map<nat, Block>, lh: seq<nat>, lo: nat, hi: nat) {
    forall i {:trigger lh[i]} | lo <= i < hi && i < |lh| ::
      lh[i] in cache && Slot(sb, i) in d && d[Slot(sb, i)] == cache[lh[i]]
  }

  /** What the disk holds at each point of a commit or a recovery. */
  ghost predicate PhaseOk(sb: Super, ph: Phase, d: Disk, cache: map<nat, Block>, lh: seq<nat>)
    requires DiskOk(sb, d)
  {
    var hd := Head(sb, d);
    match ph
    case Running => hd == []
    case WriteLog(tail) => hd == [] && tail <= |lh| && Saved(sb, d, cache, lh, 0, tail)
    case WriteHead => hd == [] && Saved(sb, d, cache, lh, 0, |lh|)
    case Install(tail) =>
      hd == lh && tail <= |lh| && Copied(sb, d, lh, tail) && Saved(sb, d, cache, lh, tail, |lh|)
    case EraseHead => lh == [] && Copied(sb, d, hd, |hd|)
    case Committed => lh == [] && hd == []
    case Boot => lh == []
    case Replay(tail) => hd == lh && tail <= |lh| && Copied(sb, d, lh, tail)
    case EraseReplay => lh == [] && Copied(sb, d, hd, |hd|)
  }

  ghost predicate Inv(sb: Super, s: State) {
    && DiskOk(sb, s.disk)
    && ListOk(sb, s.lh)
    && BudgetOk(s)
    && LocksOk(s.locked, s.ops)
    && PinsOk(s.lh, FirstUnwritten(s.phase, |s.lh|), s.pins)
    && CacheOk(sb, s.disk, s.cache, s.pins, s.locked)
    && PhaseOk(sb, s.phase, s.disk, s.cache, s.lh)
  }

  // ----- counting -----

  lemma {:induction false} SetOp(ops: seq<Op>, p: nat, x: Op)
    requires p < |ops|
    ensures CountActive(ops[p := x])
         == CountActive(ops) - (if ops[p].Active? then 1 else 0) + (if x.Active? then 1 else 0)
    ensures SumUsed(ops[p := x])
         == SumUsed(ops) - (if ops[p].Active? then ops[p].used else 0) + (if x.Active? then x.used else 0)
  {
    if p == 0 {
      assert ops[0 := x][1..] == ops[1..];
    } else {
      assert ops[p := x][1..] == ops[1..][p - 1 := x];
      SetOp(ops[1..], p - 1, x);
    }
  }

  lemma {:induction false} NoneActive(ops: seq<Op>)
    ensures CountActive(ops) == 0 <==> forall p | 0 <= p < |ops| :: ops[p].Idle?
    ensures CountActive(ops) == 0 ==> SumUsed(ops) == 0
  {
    if ops != [] {
      NoneActive(ops[1..]);
      assert forall p | 0 <= p < |ops| :: ops[p] == if p == 0 then ops[0] else ops[1..][p - 1];
      if CountActive(ops[1..]) != 0 {
        var p :| 0 <= p < |ops[1..]| && !ops[1..][p].Idle?;
        assert ops[p + 1].Active?;
      }
    }
  }

  lemma {:induction false} UsedWithinBudget(ops: seq<Op>)
    requires forall p | 0 <= p < |ops| && ops[p].Active? :: ops[p].used <= MAXOPBLOCKS
    ensures SumUsed(ops) <= MAXOPBLOCKS * CountActive(ops)
  {
    if ops != [] {
      assert forall p | 0 <= p < |ops[1..]| :: ops[1..][p] == ops[p + 1];
      UsedWithinBudget(ops[1..]);
    }
  }

  lemma {:induction false} StrictBudget(ops: seq<Op>, p: nat)
    requires forall q | 0 <= q < |ops| && ops[q].Active? :: ops[q].used <= MAXOPBLOCKS
    requires p < |ops| && ops[p].Active? && ops[p].used < MAXOPBLOCKS
    ensures SumUsed(ops) < MAXOPBLOCKS * CountActive(ops)
  {
    var full := ops[p := Active(MAXOPBLOCKS)];
    SetOp(ops, p, Active(MAXOPBLOCKS));
    UsedWithinBudget(full);
  }

  lemma IndexOfEntry(lh: seq<nat>, i: nat)
    requires Distinct(lh) && i < |lh|
    ensures IndexIn(lh, lh[i]) == i
  {}

  lemma CountInDistinct(lh: seq<nat>, b: nat)
    requires Distinct(lh)
    ensures multiset(lh)[b] == if b in lh then 1 else 0
  {
    if lh != [] {
      CountInDistinct(lh[1..], b);
      assert lh == [lh[0]] + lh[1..];
    }
  }

  // ----- every step keeps the invariant -----

  /** PhaseOk looks at the cache only at pinned blocks. */
  lemma PhaseFrame(sb: Super, s: State, cache: map<nat, Block>)
    requires DiskOk(sb, s.disk) && PinsOk(s.lh, FirstUnwritten(s.phase, |s.lh|), s.pins)
    requires PhaseOk(sb, s.phase, s.disk, s.cache, s.lh)
    requires forall b | b in s.pins && b in s.cache :: b in cache && cache[b] == s.cache[b]
    ensures PhaseOk(sb, s.phase, s.disk, cache, s.lh)
  {}

  lemma KeepsFill(sb: Super, s: State, b: nat)
    requires Inv(sb, s) && b in s.disk && b !in s.cache
    ensures Inv(sb, s.(cache := s.cache[b := s.disk[b]]))
  {
    PhaseFrame(sb, s, s.cache[b := s.disk[b]]);
  }

  lemma KeepsEvict(sb: Super, s: State, b: nat)
    requires Inv(sb, s) && s.pins[b] == 0 && b !in s.locked
    ensures Inv(sb, s.(cache := s.cache - {b}))
  {
    hide HeadOk;
    PhaseFrame(sb, s, s.cache - {b});
  }

  lemma KeepsBegin(sb: Super, s: State, p: nat)
    requires Inv(sb, s) && Enabled(sb, s, BeginOp(p))
    ensures Inv(sb, Apply(sb, s, BeginOp(p)))
  {
    SetOp(s.ops, p, Active(0));
  }

  lemma KeepsModify(sb: Super, s: State, p: nat, b: nat, data: Block)
    requires Inv(sb, s) && Enabled(sb, s, Modify(p, b, data))
    ensures Inv(sb, Apply(sb, s, Modify(p, b, data)))
  {}

  lemma NewPin(sb: Super, s: State, b: nat)
    requires Inv(sb, s) && s.phase.Running? && b in s.locked && b !in s.lh
    ensures IsHome(sb, b) && PinsOk(s.lh + [b], 0, s.pins + multiset{b})
    ensures CacheOk(sb, s.disk, s.cache, s.pins + multiset{b}, s.locked - {b})
  {
    hide HeadOk, BudgetOk;
  }

  lemma KeptPin(sb: Super, s: State, b: nat)
    requires Inv(sb, s) && s.phase.Running? && b in s.lh
    ensures CacheOk(sb, s.disk, s.cache, s.pins, s.locked - {b})
  {
    hide HeadOk, BudgetOk;
    assert b in s.pins;
  }

  lemma KeepsLogWrite(sb: Super, s: State, p: nat, b: nat)
    requires Inv(sb, s) && Enabled(sb, s, LogWrite(p, b))
    ensures Inv(sb, Apply(sb, s, LogWrite(p, b)))
  {
    hide HeadOk, PinsOk, CacheOk;
    if b in s.lh {
      KeptPin(sb, s, b);
    } else {
      NewPin(sb, s, b);
      SetOp(s.ops, p, Active(s.ops[p].used + 1));
    }
  }

  lemma NoLocksLeft(locked: map<nat, nat>, ops: seq<Op>)
    requires LocksOk(locked, ops) && CountActive(ops) == 0
    ensures locked == map[]
  {
    NoneActive(ops);
    assert locked.Keys == {};
  }

  lemma KeepsEnd(sb: Super, s: State, p: nat)
    requires Inv(sb, s) && Enabled(sb, s, EndOp(p))
    ensures Inv(sb, Apply(sb, s, EndOp(p)))
  {
    hide HeadOk, PinsOk, CacheOk;
    SetOp(s.ops, p, Idle);
  }

  // A block write, seen by each part of the invariant.

  lemma DiskWrite(sb: Super, d: Disk, b: nat, data: Block)
    requires DiskOk(sb, d) && b < sb.size && b != sb.start
    ensures DiskOk(sb, d[b := data]) && Head(sb, d[b := data]) == Head(sb, d)
  {}

  lemma HeadWrite(sb: Super, d: Disk, was: Block, lh: seq<nat>)
    requires DiskOk(sb, d) && ListOk(sb, lh)
    ensures var e := d[sb.start := PutHead(was, lh)]; DiskOk(sb, e) && Head(sb, e) == lh
  {
    var hb := PutHead(was, lh);
    assert forall i | 1 <= i <= hb[0] :: hb[i] == HeadList(hb)[i - 1];
    assert HeadOk(sb, hb);
  }

  lemma SlotInLog(sb: Super, lh: seq<nat>, i: nat)
    requires SuperOk(sb) && ListOk(sb, lh) && i < |lh|
    ensures InLog(sb, Slot(sb, i)) && Slot(sb, i) < sb.size && Slot(sb, i) !in lh && sb.start !in lh
  {}

  lemma CacheWrite(sb: Super, d: Disk, cache: map<nat, Block>, pins: multiset<nat>, b: nat, data: Block)
    requires CacheOk(sb, d, cache, pins, map[]) && b < sb.size
    ensures CacheOk(sb, d[b := data], cache[b := data], pins, map[])
  {}

  lemma SavedMore(sb: Super, d: Disk, cache: map<nat, Block>, lh: seq<nat>, tail: nat)
    requires SuperOk(sb) && ListOk(sb, lh) && tail < |lh| && Saved(sb, d, cache, lh, 0, tail)
    requires forall i | 0 <= i < |lh| :: lh[i] in cache
    ensures var data := cache[lh[tail]];
            Saved(sb, d[Slot(sb, tail) := data], cache[Slot(sb, tail) := data], lh, 0, tail + 1)
  {
    SlotInLog(sb, lh, tail);
  }

  lemma PinnedCached(sb: Super, s: State)
    requires Inv(sb, s) && FirstUnwritten(s.phase, |s.lh|) == 0
    ensures forall i | 0 <= i < |s.lh| :: s.lh[i] in s.cache
  {
    hide HeadOk, BudgetOk, PhaseOk;
  }

  lemma KeepsWriteLog(sb: Super, s: State)
    requires Inv(sb, s) && s.phase.WriteLog? && s.phase.tail < |s.lh|
    ensures Enabled(sb, s, CommitStep) && Inv(sb, AfterCommitStep(sb, s))
  {
    hide HeadOk, Saved, PinsOk, CacheOk;
    var tail := s.phase.tail;
    PinnedCached(sb, s);
    SlotInLog(sb, s.lh, tail);
    NoLocksLeft(s.locked, s.ops);
    DiskWrite(sb, s.disk, Slot(sb, tail), View(s, s.lh[tail]));
    CacheWrite(sb, s.disk, s.cache, s.pins, Slot(sb, tail), View(s, s.lh[tail]));
    SavedMore(sb, s.disk, s.cache, s.lh, tail);
  }

  lemma SavedHead(sb: Super, d: Disk, cache: map<nat, Block>, lh: seq<nat>, hb: Block)
    requires SuperOk(sb) && ListOk(sb, lh) && Saved(sb, d, cache, lh, 0, |lh|)
    ensures Saved(sb, d[sb.start := hb], cache[sb.start := hb], lh, 0, |lh|)
  {}

  lemma KeepsWriteHead(sb: Super, s: State)
    requires Inv(sb, s) && s.phase.WriteHead?
    ensures Enabled(sb, s, CommitStep) && Inv(sb, AfterCommitStep(sb, s))
  {
    hide HeadOk, CacheOk, Saved, PinsOk;
    var hb := PutHead(View(s, sb.start), s.lh);
    NoLocksLeft(s.locked, s.ops);
    HeadWrite(sb, s.disk, View(s, sb.start), s.lh);
    CacheWrite(sb, s.disk, s.cache, s.pins, sb.start, hb);
    SavedHead(sb, s.disk, s.cache, s.lh, hb);
  }

  lemma InstallPins(lh: seq<nat>, tail: nat, pins: multiset<nat>)
    requires PinsOk(lh, tail, pins) && Distinct(lh) && tail < |lh|
    ensures PinsOk(lh, tail + 1, pins - multiset{lh[tail]})
  {}

  lemma InstallCache(sb: Super, d: Disk, cache: map<nat, Block>, pins: multiset<nat>, b: nat, data: Block)
    requires CacheOk(sb, d, cache, pins, map[]) && b < sb.size
    ensures CacheOk(sb, d[b := data], cache[b := data], pins - multiset{b}, map[])
  {}

  lemma InstallDisk(sb: Super, d: Disk, cache: map<nat, Block>, lh: seq<nat>, tail: nat)
    requires SuperOk(sb) && ListOk(sb, lh) && tail < |lh| && Slot(sb, tail) in d
    requires Copied(sb, d, lh, tail)
    ensures var data := d[Slot(sb, tail)];
            && Copied(sb, d[lh[tail] := data], lh, tail + 1)
            && (Saved(sb, d, cache, lh, tail, |lh|) ==>
                  Saved(sb, d[lh[tail] := data], cache[lh[tail] := data], lh, tail + 1, |lh|))
  {
    forall i | 0 <= i < |lh| ensures Slot(sb, i) != lh[tail] {
      SlotInLog(sb, lh, i);
    }
  }

  /** While no buffer is held, a log block read through the cache is the block on the disk. */
  lemma SlotView(sb: Super, s: State, i: nat)
    requires Inv(sb, s) && s.locked == map[] && i < |s.lh|
    ensures Slot(sb, i) in s.disk && s.lh[i] in s.disk && View(s, Slot(sb, i)) == s.disk[Slot(sb, i)]
  {
    SlotInLog(sb, s.lh, i);
    assert Slot(sb, i) !in s.pins;
  }

  lemma KeepsInstall(sb: Super, s: State)
    requires Inv(sb, s) && s.phase.Install? && s.phase.tail < |s.lh|
    ensures Enabled(sb, s, CommitStep) && Inv(sb, AfterCommitStep(sb, s))
  {
    hide CacheOk, PinsOk, Saved, Copied, HeadOk;
    var tail := s.phase.tail;
    NoLocksLeft(s.locked, s.ops);
    SlotView(sb, s, tail);
    InstallDisk(sb, s.disk, s.cache, s.lh, tail);
    var data := s.disk[Slot(sb, tail)];
    DiskWrite(sb, s.disk, s.lh[tail], data);
    InstallPins(s.lh, tail, s.pins);
    InstallCache(sb, s.disk, s.cache, s.pins, s.lh[tail], data);
  }

  /** Once the last entry is installed no pin is left. */
  lemma NoPinsLeft(lh: seq<nat>, pins: multiset<nat>)
    requires PinsOk(lh, |lh|, pins)
    ensures pins == multiset{}
  {
    assert forall b :: pins[b] == 0;
  }

  lemma KeepsErase(sb: Super, s: State)
    requires Inv(sb, s) && (s.phase.EraseHead? || s.phase.EraseReplay?)
    ensures View(s, sb.start) == s.disk[sb.start]
    ensures Inv(sb, Bwrite(s, sb.start, PutHead(View(s, sb.start), []))
                    .(phase := if s.phase.EraseHead? then Committed else Running))
  {
    NoLocksLeft(s.locked, s.ops);
    NoPinsLeft(s.lh, s.pins);
    HeadWrite(sb, s.disk, View(s, sb.start), []);
    CacheWrite(sb, s.disk, s.cache, s.pins, sb.start, PutHead(View(s, sb.start), []));
    NoneActive(s.ops);
  }

  lemma KeepsCommit(sb: Super, s: State)
    requires Inv(sb, s) && Committing(s.phase)
    ensures Enabled(sb, s, CommitStep) && Inv(sb, AfterCommitStep(sb, s))
  {
    hide HeadOk, CacheOk;
    if s.phase.WriteLog? && s.phase.tail < |s.lh| {
      KeepsWriteLog(sb, s);
    } else if s.phase.WriteHead? {
      KeepsWriteHead(sb, s);
    } else if s.phase.Install? && s.phase.tail < |s.lh| {
      KeepsInstall(sb, s);
    } else if s.phase.Install? {
      NoPinsLeft(s.lh, s.pins);
    } else if s.phase.EraseHead? {
      KeepsErase(sb, s);
    } else if s.phase.Committed? {
      NoneActive(s.ops);
    }
  }

  lemma KeepsCrash(sb: Super, s: State)
    requires DiskOk(sb, s.disk)
    ensures Inv(sb, AfterCrash(s))
  {
    NoneActive(AfterCrash(s).ops);
  }

  lemma KeepsReplay(sb: Super, s: State)
    requires Inv(sb, s) && s.phase.Replay? && s.phase.tail < |s.lh|
    ensures Enabled(sb, s, RecoverStep) && Inv(sb, AfterRecoverStep(sb, s))
  {
    hide HeadOk, CacheOk, Copied;
    var tail := s.phase.tail;
    NoLocksLeft(s.locked, s.ops);
    SlotView(sb, s, tail);
    NoPinsLeft(s.lh, s.pins);
    var data := s.disk[Slot(sb, tail)];
    InstallDisk(sb, s.disk, s.cache, s.lh, tail);
    DiskWrite(sb, s.disk, s.lh[tail], data);
    CacheWrite(sb, s.disk, s.cache, s.pins, s.lh[tail], data);
  }

  lemma KeepsRecover(sb: Super, s: State)
    requires Inv(sb, s) && Recovering(s.phase)
    ensures Enabled(sb, s, RecoverStep) && Inv(sb, AfterRecoverStep(sb, s))
  {
    if s.phase.Boot? {
      var hb := s.disk[sb.start];
      assert forall i | 0 <= i < |HeadList(hb)| :: HeadList(hb)[i] == hb[1 + i];
      NoPinsLeft(s.lh, s.pins);
    } else if s.phase.Replay? && s.phase.tail < |s.lh| {
      KeepsReplay(sb, s);
    } else if s.phase.Replay? {
      NoPinsLeft(s.lh, s.pins);
    } else {
      KeepsErase(sb, s);
    }
  }

  lemma KeepsInv(sb: Super, s: State, a: Action)
    requires Inv(sb, s) && Enabled(sb, s, a)
    ensures Inv(sb, Apply(sb, s, a))
  {
    match a
    case Fill(b) => KeepsFill(sb, s, b);
    case Evict(b) => KeepsEvict(sb, s, b);
    case BeginOp(p) => KeepsBegin(sb, s, p);
    case Modify(p, b, data) => KeepsModify(sb, s, p, b, data);
    case LogWrite(p, b) => KeepsLogWrite(sb, s, p, b);
    case EndOp(p) => KeepsEnd(sb, s, p);
    case CommitStep => KeepsCommit(sb, s);
    case Crash => KeepsCrash(sb, s);
    case RecoverStep => KeepsRecover(sb, s);
  }
}
