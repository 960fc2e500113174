/** The service that the log provides, and the proof that every run of the log machine provides it.

    The service is a disk of home blocks on which groups of operations take effect all at once:
    `view` is what the operations see, `durable` is what a crash leaves. */
module WalSpec {
  import opened Wal
  import opened WalProof

  datatype Spec = Spec(view: map<nat, Block>, durable: map<nat, Block>, active: nat)

  ghost predicate SpecNext(x: Spec, y: Spec) {
    || y == x
    || y == x.(active := x.active + 1)
    || (x.active > 0 && y == x.(active := x.active - 1))
    || (x.active > 0 && exists b :: b in x.view && b in y.view && y == x.(view := x.view[b := y.view[b]]))
    || (x.active == 0 && y == x.(durable := x.view))
    || y == Spec(x.durable, x.durable, 0)
  }

  /** What the operations see is what bread() returns, except for buffers in someone's hands. */
  ghost predicate ViewOk(sb: Super, disk: Disk, cache: map<nat, Block>, locked: map<nat, nat>, view: map<nat, Block>) {
    forall b: nat | b in view && b !in locked ::
      (b in cache || b in disk) && view[b] == if b in cache then cache[b] else disk[b]
  }

  /** How a log state implements a service state. */
  ghost predicate Implements(sb: Super, s: State, x: Spec)
    requires DiskOk(sb, s.disk)
  {
    && x.durable == Recovered(sb, s.disk)
    && x.active == s.outstanding
    && (forall b: nat :: b in x.view <==> IsHome(sb, b))
    && if Recovering(s.phase) then x.view == x.durable
       else ViewOk(sb, s.disk, s.cache, s.locked, x.view)
  }

  /** The service step that a log step takes. Only the header write of a commit, a crash and the
      calls of the interface are visible. */
  ghost function SpecStep(s: State, a: Action, x: Spec): Spec {
    match a
    case BeginOp(_) => x.(active := x.active + 1)
    case LogWrite(_, b) => if b in s.cache then x.(view := x.view[b := s.cache[b]]) else x
    case EndOp(_) => if x.active > 0 then x.(active := x.active - 1) else x
    case CommitStep => if s.phase.WriteHead? then x.(durable := x.view) else x
    case Crash => Spec(x.durable, x.durable, 0)
    case _ => x
  }

  lemma RecoveredAt(sb: Super, d: Disk, b: nat)
    requires DiskOk(sb, d)
    ensures b in Recovered(sb, d) <==> IsHome(sb, b)
    ensures IsHome(sb, b) && b !in Head(sb, d) ==> Recovered(sb, d)[b] == d[b]
  {}

  lemma RecoveredEntry(sb: Super, d: Disk, i: nat)
    requires DiskOk(sb, d) && i < |Head(sb, d)|
    ensures var b := Head(sb, d)[i]; b in Recovered(sb, d) && Recovered(sb, d)[b] == d[Slot(sb, i)]
  {
    var lh := Head(sb, d);
    var hb := d[sb.start];
    assert forall k | 0 <= k < |lh| :: lh[k] == hb[1 + k];
    IndexOfEntry(lh, i);
  }

  lemma IdleHead(sb: Super, d: Disk)
    requires DiskOk(sb, d) && Head(sb, d) == []
    ensures Recovered(sb, d) == Home(sb, d)
  {}

  lemma CopiedHead(sb: Super, d: Disk)
    requires DiskOk(sb, d) && Copied(sb, d, Head(sb, d), |Head(sb, d)|)
    ensures Recovered(sb, d) == Home(sb, d)
  {
    forall b | b in Home(sb, d) ensures Recovered(sb, d)[b] == d[b] {
      var lh := Head(sb, d);
      if b in lh {
        RecoveredEntry(sb, d, IndexIn(lh, b));
      }
    }
  }

  // ----- one block write and the state that recovery would produce -----

  lemma WriteOutsideHead(sb: Super, d: Disk, b: nat, data: Block)
    requires DiskOk(sb, d) && InLog(sb, b) && b != sb.start && Head(sb, d) == []
    ensures DiskOk(sb, d[b := data]) && Recovered(sb, d[b := data]) == Recovered(sb, d)
  {
    DiskWrite(sb, d, b, data);
    IdleHead(sb, d);
    IdleHead(sb, d[b := data]);
  }

  lemma InstallInvisible(sb: Super, d: Disk, i: nat)
    requires DiskOk(sb, d) && i < |Head(sb, d)|
    ensures Slot(sb, i) in d
    ensures var e := d[Head(sb, d)[i] := d[Slot(sb, i)]]; DiskOk(sb, e) && Recovered(sb, e) == Recovered(sb, d)
  {
    var lh := Head(sb, d);
    var hb := d[sb.start];
    assert forall k | 0 <= k < |lh| :: lh[k] == hb[1 + k];
    assert Slot(sb, i) in d;
    var e := d[lh[i] := d[Slot(sb, i)]];
    DiskWrite(sb, d, lh[i], d[Slot(sb, i)]);
    forall b | b in Recovered(sb, d) ensures Recovered(sb, e)[b] == Recovered(sb, d)[b] {
      if b in lh {
        var k := IndexIn(lh, b);
        RecoveredEntry(sb, d, k);
        RecoveredEntry(sb, e, k);
        SlotInLog(sb, lh, k);
      }
    }
  }

  lemma EraseInvisible(sb: Super, d: Disk, was: Block)
    requires DiskOk(sb, d) && Copied(sb, d, Head(sb, d), |Head(sb, d)|)
    ensures var e := d[sb.start := PutHead(was, [])]; DiskOk(sb, e) && Recovered(sb, e) == Recovered(sb, d)
  {
    var e := d[sb.start := PutHead(was, [])];
    HeadWrite(sb, d, was, []);
    CopiedHead(sb, d);
    IdleHead(sb, e);
    assert Home(sb, e) == Home(sb, d);
  }

  /** The home blocks as the cache over the disk shows them when only the blocks of `lh` are ahead. */
  ghost predicate Ahead(sb: Super, d: Disk, cache: map<nat, Block>, lh: seq<nat>, view: map<nat, Block>) {
    && (forall b: nat :: b in view <==> IsHome(sb, b))
    && (forall b: nat | b in view && b !in lh :: b in d && view[b] == d[b])
    && (forall i | 0 <= i < |lh| :: lh[i] in view && lh[i] in cache && view[lh[i]] == cache[lh[i]])
  }

  lemma CommitPointAt(sb: Super, d: Disk, cache: map<nat, Block>, lh: seq<nat>, e: Disk, view: map<nat, Block>, b: nat)
    requires ListOk(sb, lh) && Saved(sb, d, cache, lh, 0, |lh|) && Ahead(sb, d, cache, lh, view)
    requires DiskOk(sb, e) && Head(sb, e) == lh && IsHome(sb, b)
    requires forall c | c in d && c != sb.start :: c in e && e[c] == d[c]
    ensures b in Recovered(sb, e) && Recovered(sb, e)[b] == view[b]
  {
    hide HeadOk, Recovered, DiskOk;
    RecoveredAt(sb, e, b);
    if b in lh {
      var k := IndexIn(lh, b);
      RecoveredEntry(sb, e, k);
    }
  }

  /** The commit point: after the header write, recovery produces what the operations saw. */
  lemma CommitPoint(sb: Super, d: Disk, cache: map<nat, Block>, lh: seq<nat>, was: Block, view: map<nat, Block>)
    requires DiskOk(sb, d) && ListOk(sb, lh) && Saved(sb, d, cache, lh, 0, |lh|)
    requires Ahead(sb, d, cache, lh, view)
    ensures var e := d[sb.start := PutHead(was, lh)]; DiskOk(sb, e) && Recovered(sb, e) == view
  {
    hide HeadOk, Saved, Recovered;
    var e := d[sb.start := PutHead(was, lh)];
    HeadWrite(sb, d, was, lh);
    forall b: nat ensures b in Recovered(sb, e) <==> b in view {
      RecoveredAt(sb, e, b);
    }
    forall b | IsHome(sb, b) ensures Recovered(sb, e)[b] == view[b] {
      CommitPointAt(sb, d, cache, lh, e, view, b);
    }
  }

  lemma ViewAhead(sb: Super, s: State, x: Spec)
    requires Inv(sb, s) && s.phase.WriteHead? && s.locked == map[] && Implements(sb, s, x)
    ensures Ahead(sb, s.disk, s.cache, s.lh, x.view)
  {
    hide HeadOk, BudgetOk, Saved, Recovered;
  }

  // ----- every log step is a service step -----

  /** A log step and its service step, given that the step keeps the invariant. */
  ghost predicate Simulates(sb: Super, s: State, a: Action, x: Spec)
    requires Enabled(sb, s, a)
  {
    && Inv(sb, Apply(sb, s, a))
    && Implements(sb, Apply(sb, s, a), SpecStep(s, a, x))
    && SpecNext(x, SpecStep(s, a, x))
  }

  lemma SimCache(sb: Super, s: State, a: Action, x: Spec)
    requires Inv(sb, s) && Implements(sb, s, x) && Enabled(sb, s, a) && (a.Fill? || a.Evict? || a.Modify?)
    ensures Simulates(sb, s, a, x)
  {
    KeepsInv(sb, s, a);
    assert ViewOk(sb, s.disk, s.cache, s.locked, x.view) ==>
             ViewOk(sb, s.disk, Apply(sb, s, a).cache, Apply(sb, s, a).locked, x.view);
  }

  lemma SimBounds(sb: Super, s: State, a: Action, x: Spec)
    requires Inv(sb, s) && Implements(sb, s, x) && Enabled(sb, s, a) && (a.BeginOp? || a.EndOp?)
    ensures Simulates(sb, s, a, x)
  {
    hide CacheOk, PinsOk, PhaseOk, LocksOk, ListOk, ViewOk, HeadOk, Recovered;
    KeepsInv(sb, s, a);
  }

  lemma SimLogWrite(sb: Super, s: State, a: Action, x: Spec)
    requires Inv(sb, s) && Implements(sb, s, x) && Enabled(sb, s, a) && a.LogWrite?
    ensures Simulates(sb, s, a, x)
  {
    hide HeadOk, ListOk, Recovered, BudgetOk, PinsOk, PhaseOk, LocksOk, CacheOk, ViewOk;
    KeepsInv(sb, s, a);
    LockedHome(sb, s, a.b);
    LogWriteView(sb, s.disk, s.cache, s.locked, x.view, a.b);
    var y := SpecStep(s, a, x);
    assert a.b in x.view && y.view[a.b] == s.cache[a.b];
  }

  lemma LogWriteView(sb: Super, disk: Disk, cache: map<nat, Block>, locked: map<nat, nat>,
                     view: map<nat, Block>, b: nat)
    requires b in cache
    ensures ViewOk(sb, disk, cache, locked, view) ==> ViewOk(sb, disk, cache, locked - {b}, view[b := cache[b]])
  {}

  lemma LockedHome(sb: Super, s: State, b: nat)
    requires Inv(sb, s) && b in s.locked
    ensures IsHome(sb, b) && b in s.cache
  {
    hide HeadOk, ListOk, BudgetOk, PinsOk, PhaseOk, LocksOk;
  }

  lemma ViewWrite(sb: Super, s: State, b: nat, data: Block, view: map<nat, Block>)
    requires ViewOk(sb, s.disk, s.cache, s.locked, view)
    requires b in view ==> b !in s.locked && view[b] == data
    ensures ViewOk(sb, s.disk[b := data], s.cache[b := data], s.locked, view)
  {}

  lemma SimWriteLog(sb: Super, s: State, x: Spec)
    requires Inv(sb, s) && Implements(sb, s, x) && s.phase.WriteLog? && s.phase.tail < |s.lh|
    requires Enabled(sb, s, CommitStep)
    ensures Simulates(sb, s, CommitStep, x)
  {
    hide PinsOk, ListOk, ViewOk, HeadOk, Recovered;
    KeepsInv(sb, s, CommitStep);
    var b, data := Slot(sb, s.phase.tail), View(s, s.lh[s.phase.tail]);
    SlotInLog(sb, s.lh, s.phase.tail);
    WriteOutsideHead(sb, s.disk, b, data);
    ViewWrite(sb, s, b, data, x.view);
  }

  lemma SimWriteHead(sb: Super, s: State, x: Spec)
    requires Inv(sb, s) && Implements(sb, s, x) && s.phase.WriteHead? && Enabled(sb, s, CommitStep)
    ensures Simulates(sb, s, CommitStep, x)
  {
    hide PinsOk, ListOk, ViewOk, HeadOk, Recovered, CacheOk, Ahead;
    KeepsInv(sb, s, CommitStep);
    NoLocksLeft(s.locked, s.ops);
    ViewAhead(sb, s, x);
    CommitPoint(sb, s.disk, s.cache, s.lh, View(s, sb.start), x.view);
    ViewWrite(sb, s, sb.start, PutHead(View(s, sb.start), s.lh), x.view);
  }

  lemma SimInstall(sb: Super, s: State, x: Spec)
    requires Inv(sb, s) && Implements(sb, s, x) && s.phase.Install? && s.phase.tail < |s.lh|
    requires Enabled(sb, s, CommitStep)
    ensures Simulates(sb, s, CommitStep, x)
  {
    hide PinsOk, ListOk, HeadOk, Recovered, CacheOk, Copied;
    KeepsInv(sb, s, CommitStep);
    NoLocksLeft(s.locked, s.ops);
    var b, data := s.lh[s.phase.tail], View(s, Slot(sb, s.phase.tail));
    SlotView(sb, s, s.phase.tail);
    InstallInvisible(sb, s.disk, s.phase.tail);
    ViewWrite(sb, s, b, data, x.view);
  }

  lemma SimCommit(sb: Super, s: State, x: Spec)
    requires Inv(sb, s) && Implements(sb, s, x) && Enabled(sb, s, CommitStep)
    ensures Simulates(sb, s, CommitStep, x)
  {
    hide PinsOk, ListOk, ViewOk, HeadOk, Recovered, CacheOk;
    if s.phase.WriteLog? && s.phase.tail < |s.lh| {
      SimWriteLog(sb, s, x);
    } else if s.phase.WriteHead? {
      SimWriteHead(sb, s, x);
    } else if s.phase.Install? && s.phase.tail < |s.lh| {
      SimInstall(sb, s, x);
    } else {
      KeepsInv(sb, s, CommitStep);
      if s.phase.EraseHead? {
        EraseInvisible(sb, s.disk, View(s, sb.start));
        ViewWrite(sb, s, sb.start, PutHead(View(s, sb.start), s.lh), x.view);
      }
    }
  }

  /** Recovery, from its first read to its last write, changes nothing that a recovery would produce. */
  lemma RecoverInvisible(sb: Super, s: State)
    requires Inv(sb, s) && Recovering(s.phase) && Enabled(sb, s, RecoverStep)
    ensures var t := AfterRecoverStep(sb, s); DiskOk(sb, t.disk) && Recovered(sb, t.disk) == Recovered(sb, s.disk)
  {
    hide PinsOk, HeadOk, Recovered, CacheOk;
    NoLocksLeft(s.locked, s.ops);
    if s.phase.Replay? && s.phase.tail < |s.lh| {
      SlotView(sb, s, s.phase.tail);
      InstallInvisible(sb, s.disk, s.phase.tail);
    } else if s.phase.EraseReplay? {
      EraseInvisible(sb, s.disk, View(s, sb.start));
    }
  }

  /** Once recovery is done the home blocks are what it had to produce. */
  lemma RecoveryDone(sb: Super, s: State)
    requires Inv(sb, s) && s.phase.Running? && s.lh == []
    ensures Recovered(sb, s.disk) == Home(sb, s.disk)
    ensures forall b | IsHome(sb, b) && b !in s.locked :: View(s, b) == s.disk[b]
  {
    IdleHead(sb, s.disk);
    assert forall b | b in s.cache :: b !in s.pins;
  }

  lemma SimRecover(sb: Super, s: State, x: Spec)
    requires Inv(sb, s) && Implements(sb, s, x) && Enabled(sb, s, RecoverStep)
    ensures Simulates(sb, s, RecoverStep, x)
  {
    hide PinsOk, HeadOk, Recovered, CacheOk, Copied, Saved, ListOk;
    KeepsInv(sb, s, RecoverStep);
    RecoverInvisible(sb, s);
    if s.phase.EraseReplay? {
      var t := Apply(sb, s, RecoverStep);
      RecoveryDone(sb, t);
      assert ViewOk(sb, t.disk, t.cache, t.locked, x.view);
    }
  }

  lemma SimStep(sb: Super, s: State, a: Action, x: Spec)
    requires Inv(sb, s) && Implements(sb, s, x) && Enabled(sb, s, a)
    ensures Simulates(sb, s, a, x)
  {
    hide Inv, Implements;
    match a
    case Fill(_) | Evict(_) | Modify(_, _, _) => SimCache(sb, s, a, x);
    case BeginOp(_) | EndOp(_) => SimBounds(sb, s, a, x);
    case LogWrite(_, _) => SimLogWrite(sb, s, a, x);
    case CommitStep => SimCommit(sb, s, x);
    case Crash => SimCrash(sb, s, x);
    case RecoverStep => SimRecover(sb, s, x);
  }

  lemma SimCrash(sb: Super, s: State, x: Spec)
    requires Inv(sb, s) && Implements(sb, s, x)
    ensures Simulates(sb, s, Crash, x)
  {
    hide PinsOk, ListOk, HeadOk, CacheOk, PhaseOk;
    KeepsInv(sb, s, Crash);
  }

  // ----- every run -----

  lemma NextInv(sb: Super, s: State, t: State)
    requires Inv(sb, s) && Next(sb, s, t)
    ensures Inv(sb, t)
  {
    hide Inv, Enabled, Apply;
    var a :| Enabled(sb, s, a) && Apply(sb, s, a) == t;
    KeepsInv(sb, s, a);
  }

  lemma {:induction false} RunInv(sb: Super, run: seq<State>, i: nat)
    requires IsRun(sb, run) && i < |run|
    ensures Inv(sb, run[i])
  {
    hide Inv, Next;
    if i == 0 {
      KeepsCrash(sb, run[0]);
    } else {
      RunInv(sb, run, i - 1);
      NextInv(sb, run[i - 1], run[i]);
    }
  }

  /** The header write of a commit reaches the disk between moments k and k + 1. */
  predicate CommitsAt(run: seq<State>, k: nat) {
    k + 1 < |run| && run[k].phase.WriteHead? && run[k + 1].phase.Install?
  }

  /** `durable` becomes `view` at the header write of a commit, when no operation is open, and changes nowhere else. */
  ghost predicate DurableStep(x: Spec, y: Spec, commits: bool) {
    if commits then x.active == 0 && y.durable == x.view else y.durable == x.durable
  }

  lemma OnlyCommits(sb: Super, s: State, a: Action, x: Spec)
    requires Inv(sb, s) && Enabled(sb, s, a) && x.active == s.outstanding
    ensures DurableStep(x, SpecStep(s, a, x), s.phase.WriteHead? && Apply(sb, s, a).phase.Install?)
  {
    hide PinsOk, ListOk, HeadOk, CacheOk, PhaseOk, LocksOk, DiskOk;
  }

  /** Every run of the log machine, crashes included, is a run of the service, and the service commits exactly where
      the header write of a commit reaches the disk. */
  lemma {:induction false} Refinement(sb: Super, run: seq<State>) returns (spec: seq<Spec>)
    requires IsRun(sb, run)
    ensures |spec| == |run|
    ensures spec[0].view == spec[0].durable && spec[0].active == 0
    ensures forall i | 0 <= i < |run| :: Inv(sb, run[i]) && Implements(sb, run[i], spec[i])
    ensures forall i | 0 <= i < |run| - 1 :: SpecNext(spec[i], spec[i + 1])
    ensures forall i | 0 <= i < |run| - 1 :: DurableStep(spec[i], spec[i + 1], CommitsAt(run, i))
  {
    hide Inv, Implements, SpecNext, Enabled, Apply, DurableStep;
    if |run| == 1 {
      spec := [FirstSpec(sb, run[0])];
    } else {
      var k := |run| - 1;
      var front := run[..k];
      var xs := Refinement(sb, front);
      assert Next(sb, run[k - 1], run[k]);
      var a :| Enabled(sb, run[k - 1], a) && Apply(sb, run[k - 1], a) == run[k];
      SimStep(sb, run[k - 1], a, xs[k - 1]);
      ActiveOps(sb, run[k - 1], xs[k - 1]);
      OnlyCommits(sb, run[k - 1], a, xs[k - 1]);
      spec := xs + [SpecStep(run[k - 1], a, xs[k - 1])];
      forall i | 0 <= i < |run| - 1 ensures DurableStep(spec[i], spec[i + 1], CommitsAt(run, i)) {
        if i < k - 1 {
          assert CommitsAt(front, i) == CommitsAt(run, i);
          assert DurableStep(xs[i], xs[i + 1], CommitsAt(front, i));
        }
      }
    }
  }

  lemma ActiveOps(sb: Super, s: State, x: Spec)
    requires Inv(sb, s) && Implements(sb, s, x)
    ensures x.active == s.outstanding
  {}

  ghost function FirstSpec(sb: Super, s: State): (x: Spec)
    requires Init(sb, s)
    ensures Inv(sb, s) && Implements(sb, s, x) && x.view == x.durable && x.active == 0
  {
    KeepsCrash(sb, s);
    Spec(Recovered(sb, s.disk), Recovered(sb, s.disk), 0)
  }

  // ----- the last commit -----

  /** The home blocks as bread() shows them. */
  ghost function Seen(sb: Super, s: State): map<nat, Block> {
    map b | b in s.disk && !InLog(sb, b) :: View(s, b)
  }

  /** The commit point, at every step of the machine: the header write of a commit makes what bread() shows durable,
      with no operation open, and no other step changes what a recovery would produce. */
  lemma CommitPointOnly(sb: Super, s: State, a: Action)
    requires Inv(sb, s) && Enabled(sb, s, a)
    ensures Inv(sb, Apply(sb, s, a))
    ensures var t := Apply(sb, s, a);
      if s.phase.WriteHead? && t.phase.Install? then s.outstanding == 0 && Recovered(sb, t.disk) == Seen(sb, s)
      else Recovered(sb, t.disk) == Recovered(sb, s.disk)
  {
    hide PinsOk, ListOk, HeadOk, CacheOk, PhaseOk, LocksOk, Recovered, Enabled, Apply, BudgetOk;
    var view := if Recovering(s.phase) then Recovered(sb, s.disk) else Seen(sb, s);
    var x := Spec(view, Recovered(sb, s.disk), s.outstanding);
    forall b: nat ensures b in Recovered(sb, s.disk) <==> IsHome(sb, b) {
      RecoveredAt(sb, s.disk, b);
    }
    SimStep(sb, s, a, x);
    OnlyCommits(sb, s, a, x);
  }

  /** The last moment before i at which the header write of a commit reached the disk; -1 if there is none. */
  function LastCommit(run: seq<State>, i: nat): (j: int)
    requires i < |run|
    ensures -1 <= j < i
    ensures j >= 0 ==> CommitsAt(run, j)
    ensures forall k | j < k < i :: !CommitsAt(run, k)
  {
    if i == 0 then -1
    else if CommitsAt(run, i - 1) then i - 1
    else LastCommit(run, i - 1)
  }

  /** What the last commit before moment i made durable. */
  ghost function LastDurable(sb: Super, run: seq<State>, i: nat): map<nat, Block>
    requires i < |run| && forall k | 0 <= k < |run| :: DiskOk(sb, run[k].disk)
  {
    var j := LastCommit(run, i);
    if j < 0 then Recovered(sb, run[0].disk) else Seen(sb, run[j])
  }

  lemma {:induction false} RunDisks(sb: Super, run: seq<State>)
    requires IsRun(sb, run)
    ensures forall k | 0 <= k < |run| :: DiskOk(sb, run[k].disk)
  {
    hide DiskOk, Next;
    forall k | 0 <= k < |run| ensures DiskOk(sb, run[k].disk) {
      RunInv(sb, run, k);
    }
  }

  /** At every moment of every run, in the middle of a commit or of a recovery too, the disk stands for what the
      operations saw at the last commit whose header write reached it: whole groups of operations, and none lost. */
  lemma {:induction false} LastCommitStands(sb: Super, run: seq<State>, i: nat)
    requires IsRun(sb, run) && i < |run|
    ensures forall k | 0 <= k < |run| :: DiskOk(sb, run[k].disk)
    ensures Recovered(sb, run[i].disk) == LastDurable(sb, run, i)
    ensures LastCommit(run, i) >= 0 ==> run[LastCommit(run, i)].outstanding == 0
  {
    hide Inv, DiskOk, Recovered, Seen, Enabled, Apply;
    RunDisks(sb, run);
    if i > 0 {
      LastCommitStands(sb, run, i - 1);
      RunInv(sb, run, i - 1);
      assert Next(sb, run[i - 1], run[i]);
      var a :| Enabled(sb, run[i - 1], a) && Apply(sb, run[i - 1], a) == run[i];
      CommitPointOnly(sb, run[i - 1], a);
    }
  }

  /** A run segment that starts with a crash and in which no operation gets to run. */
  ghost predicate RecoverySegment(run: seq<State>, i: nat, k: nat) {
    && i < k < |run| && run[i + 1] == AfterCrash(run[i])
    && forall j | i < j < k :: Recovering(run[j].phase)
  }

  /** A crash anywhere, then a recovery interrupted by any number of further crashes: when operations
      can run again, the home blocks are exactly what the crashed disk stood for. */
  lemma {:induction false} CrashSafety(sb: Super, run: seq<State>, i: nat, k: nat)
    requires IsRun(sb, run) && RecoverySegment(run, i, k)
    ensures Inv(sb, run[i]) && Inv(sb, run[k])
    ensures Recovered(sb, run[k].disk) == Recovered(sb, run[i].disk)
    ensures run[k].phase.Running? ==> Home(sb, run[k].disk) == Recovered(sb, run[i].disk)
    decreases k
  {
    hide Next, PinsOk, HeadOk, Recovered, CacheOk, Copied, Saved, ListOk, BudgetOk, LocksOk;
    RunInv(sb, run, i);
    RunInv(sb, run, k);
    if k > i + 1 {
      CrashSafety(sb, run, i, k - 1);
      RecoveryKeeps(sb, run[k - 1], run[k]);
    }
    if run[k].phase.Running? {
      IdleHead(sb, run[k].disk);
    }
  }

  /** A crash anywhere, also in the middle of a commit, then a recovery interrupted by any number of crashes: when
      operations can run again, the home blocks are what the operations saw at the last commit before the crash. */
  lemma CommitsSurvive(sb: Super, run: seq<State>, i: nat, k: nat)
    requires IsRun(sb, run) && RecoverySegment(run, i, k) && run[k].phase.Running?
    ensures forall j | 0 <= j < |run| :: DiskOk(sb, run[j].disk)
    ensures Home(sb, run[k].disk) == LastDurable(sb, run, i)
  {
    hide Inv, DiskOk, Recovered, LastDurable, Home, Next;
    CrashSafety(sb, run, i, k);
    LastCommitStands(sb, run, i);
  }

  lemma RecoveryKeeps(sb: Super, s: State, t: State)
    requires Inv(sb, s) && Inv(sb, t) && Recovering(s.phase) && Next(sb, s, t)
    ensures Recovered(sb, t.disk) == Recovered(sb, s.disk)
  {
    hide DiskOk, PinsOk, HeadOk, Recovered, CacheOk, Copied, Saved, ListOk;
    var a :| Enabled(sb, s, a) && Apply(sb, s, a) == t;
    if a.RecoverStep? {
      RecoverInvisible(sb, s);
    } else {
      NoneActive(s.ops);
      assert t.disk == s.disk;
    }
  }
}
