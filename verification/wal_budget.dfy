/** The space that begin_op() reserves, and exactly when it is enough. */
module WalBudget {
  import opened Wal
  import opened WalProof
  import opened WalSpec

  /** In every run: what is in the log plus what the open operations may still add fits LOGSIZE, and a
      commit is under way only when no operation is open. */
  lemma ReservedSpace(sb: Super, run: seq<State>, i: nat)
    requires IsRun(sb, run) && i < |run|
    ensures var s := run[i];
      && (s.phase.Running? ==> |s.lh| + (MAXOPBLOCKS * s.outstanding - SumUsed(s.ops)) <= LOGSIZE)
      && (s.committing ==> s.outstanding == 0)
      && Distinct(s.lh) && PinsOk(s.lh, FirstUnwritten(s.phase, |s.lh|), s.pins)
  {
    RunInv(sb, run, i);
  }

  /** A log larger than LOGSIZE has room for every block that an operation within its budget adds. */
  lemma RoomForNewBlock(sb: Super, run: seq<State>, i: nat, p: nat)
    requires IsRun(sb, run) && i < |run| && sb.nlog > LOGSIZE
    requires run[i].phase.Running? && IsActive(run[i], p) && run[i].ops[p].used < MAXOPBLOCKS
    ensures !LogWritePanics(sb, run[i])
  {
    RunInv(sb, run, i);
    StrictBudget(run[i].ops, p);
  }

  /** `hs` lists distinct home blocks. */
  predicate HomeList(sb: Super, hs: seq<nat>) {
    Distinct(hs) && forall i | 0 <= i < |hs| :: IsHome(sb, hs[i])
  }

  function Spread(k: nat, p: nat): nat {
    if k <= MAXOPBLOCKS * p then 0 else if k >= MAXOPBLOCKS * (p + 1) then MAXOPBLOCKS else k - MAXOPBLOCKS * p
  }

  /** Three processes that have logged the first `k` blocks of `hs`, each filling its budget in turn. */
  ghost predicate Grown(s: State, hs: seq<nat>, k: nat) {
    && k <= |hs| && s.lh == hs[..k]
    && s.phase.Running? && !s.committing && s.outstanding == 3 && s.locked == map[]
    && s.ops == [Active(Spread(k, 0)), Active(Spread(k, 1)), Active(Spread(k, 2))]
  }

  lemma Extend(sb: Super, run: seq<State>, a: Action) returns (longer: seq<State>)
    requires IsRun(sb, run) && Enabled(sb, run[|run| - 1], a)
    ensures IsRun(sb, longer) && |longer| == |run| + 1
    ensures longer[|longer| - 1] == Apply(sb, run[|run| - 1], a)
  {
    hide Enabled, Apply, Init;
    longer := run + [Apply(sb, run[|run| - 1], a)];
    assert Next(sb, run[|run| - 1], longer[|run|]);
  }

  lemma Started(sb: Super, d: Disk) returns (run: seq<State>)
    requires DiskOk(sb, d) && Head(sb, d) == []
    ensures IsRun(sb, run) && Grown(run[|run| - 1], [], 0)
  {
    var s := State(d, map[], [], multiset{}, [Idle, Idle, Idle], 0, false, map[], Boot);
    assert s.ops == seq(3, _ => Idle);
    run := [s];
    run := Extend(sb, run, RecoverStep);
    run := Extend(sb, run, RecoverStep);
    run := Extend(sb, run, RecoverStep);
    run := ThreeBegin(sb, run);
  }

  lemma ThreeBegin(sb: Super, run: seq<State>) returns (longer: seq<State>)
    requires IsRun(sb, run)
    requires var s := run[|run| - 1];
      && s.phase.Running? && !s.committing && s.outstanding == 0 && s.locked == map[] && s.lh == []
      && s.ops == [Idle, Idle, Idle]
    ensures IsRun(sb, longer) && Grown(longer[|longer| - 1], [], 0)
  {
    hide Init;
    longer := Extend(sb, run, BeginOp(0));
    longer := Extend(sb, longer, BeginOp(1));
    longer := Extend(sb, longer, BeginOp(2));
  }

  lemma HomeOnDisk(sb: Super, run: seq<State>, b: nat)
    requires IsRun(sb, run) && IsHome(sb, b)
    ensures b in run[|run| - 1].disk
  {
    RunInv(sb, run, |run| - 1);
  }

  lemma BringIn(sb: Super, run: seq<State>, hs: seq<nat>, k: nat, b: nat) returns (longer: seq<State>)
    requires IsRun(sb, run) && Grown(run[|run| - 1], hs, k) && IsHome(sb, b)
    ensures IsRun(sb, longer) && Grown(longer[|longer| - 1], hs, k) && b in longer[|longer| - 1].cache
  {
    hide Next;
    HomeOnDisk(sb, run, b);
    if b in run[|run| - 1].cache {
      longer := run;
    } else {
      longer := Extend(sb, run, Fill(b));
    }
  }

  /** Reading a block, changing it and logging it, for the next block of the list. */
  lemma GrowOne(sb: Super, run: seq<State>, hs: seq<nat>, k: nat) returns (longer: seq<State>)
    requires IsRun(sb, run) && Grown(run[|run| - 1], hs, k) && HomeList(sb, hs)
    requires k < |hs| && k < LOGSIZE && k < sb.nlog - 1
    ensures IsRun(sb, longer) && Grown(longer[|longer| - 1], hs, k + 1)
  {
    hide Next;
    var p, b := k / MAXOPBLOCKS, hs[k];
    longer := BringIn(sb, run, hs, k, b);
    var s := longer[|longer| - 1];
    longer := Extend(sb, longer, Modify(p, b, s.cache[b]));
    assert longer[|longer| - 1].locked == map[b := p];
    assert b !in hs[..k];
    longer := Extend(sb, longer, LogWrite(p, b));
    assert map[b := p] - {b} == map[];
  }

  lemma {:induction false} Grow(sb: Super, d: Disk, hs: seq<nat>, k: nat) returns (run: seq<State>)
    requires DiskOk(sb, d) && Head(sb, d) == [] && HomeList(sb, hs)
    requires k <= |hs| && k <= LOGSIZE && k <= sb.nlog - 1
    ensures IsRun(sb, run) && Grown(run[|run| - 1], hs, k)
  {
    hide IsRun, DiskOk, HomeList;
    if k == 0 {
      run := Started(sb, d);
    } else {
      run := Grow(sb, d, hs, k - 1);
      run := GrowOne(sb, run, hs, k - 1);
    }
  }

  /** On a log of at most LOGSIZE blocks (mkfs makes one of exactly LOGSIZE) there is a run in which an
      operation that is within its budget makes log_write() panic on a new block. */
  lemma SmallLogPanics(sb: Super, d: Disk, hs: seq<nat>) returns (run: seq<State>, p: nat, b: nat)
    requires DiskOk(sb, d) && Head(sb, d) == [] && HomeList(sb, hs)
    requires sb.nlog <= LOGSIZE && |hs| >= sb.nlog
    ensures IsRun(sb, run)
    ensures var s := run[|run| - 1];
      && s.phase.Running? && IsActive(s, p) && s.ops[p].used < MAXOPBLOCKS
      && IsHome(sb, b) && b !in s.lh && LogWritePanics(sb, s)
  {
    hide IsRun;
    var k := sb.nlog - 1;
    run := Grow(sb, d, hs, k);
    p, b := 2, hs[k];
    assert b !in hs[..k];
  }

  /** Even a large log panics when it is exactly full and an operation within its budget writes a block
      again that is already logged: the size test comes before the search for an entry to reuse. */
  lemma FullLogPanicsOnRewrite(sb: Super, d: Disk, hs: seq<nat>) returns (run: seq<State>)
    requires DiskOk(sb, d) && Head(sb, d) == [] && HomeList(sb, hs)
    requires sb.nlog > LOGSIZE && |hs| >= LOGSIZE
    ensures IsRun(sb, run)
    ensures var s := run[|run| - 1];
      && s.phase.Running? && IsActive(s, 0) && s.ops[0].used <= MAXOPBLOCKS
      && hs[0] in s.lh && LogWritePanics(sb, s)
  {
    hide IsRun, DiskOk;
    run := Grow(sb, d, hs, LOGSIZE);
    assert hs[..LOGSIZE][0] == hs[0];
  }
}
