/** No process of the machine is ever stuck but for a lock, and no set of processes for each other's locks. */
module ProcGo {
  import opened Proc
  import opened ProcProof

  /** The next step of the code that the process on CPU c is in. */
  function Own(s: Sys, c: nat): Action
    requires Running(s, c)
  {
    match PcOf(s, c)
    case Run => Yield(c)
    case ForkLink(_) => ForkParent(c)
    case ForkStart(_) => ForkRun(c)
    case Reparent(_) => ExitReparent(c)
    case ReparentWake(_, _) => ExitWakeup(c)
    case ExitWake(j) => if j < |s.procs| then ExitWakeup(c) else ExitLock(c)
    case ExitLocked => ExitDie(c)
    case ExitZombie => ExitRelease(c)
    case WaitScan(i, _) => if i < |s.procs| then WaitLook(c, false) else WaitEnd(c)
    case WaitLocked => WaitLet(c)
    case Falling(_, _) => Fall(c)
    case Sched(_) => Switch(c)
    case Parked(_) => Switch(c)
    case Resumed(_) => Wake(c)
    case WaitAgain => Wake(c)
  }

  /** It needs wait_lock, and somebody has it. */
  predicate NeedsWaitLock(s: Sys, c: nat) {
    Running(s, c) && (PcOf(s, c).ForkLink? || PcOf(s, c).WaitAgain?) && s.waiter != -1
  }

  /** It needs the lock of slot q, and somebody has it. */
  predicate NeedsSlotLock(s: Sys, c: nat, q: nat) {
    && Running(s, c) && q < |s.procs| && s.procs[q].locked
    && match PcOf(s, c) {
         case ForkStart(np) => q == np
         case ReparentWake(_, j) => q == j && j != s.cpus[c].p
         case ExitWake(j) => q == j && j != s.cpus[c].p
         case WaitScan(i, _) => q == i && s.procs[i].parent == s.cpus[c].p
         case _ => false
       }
  }

  ghost predicate Blocked(s: Sys, c: nat) {
    NeedsWaitLock(s, c) || exists q :: NeedsSlotLock(s, c, q)
  }

  // ----- loops stay within the table -----

  predicate InBounds(procs: seq<Process>, p: nat)
    requires p < |procs|
  {
    && (procs[p].pc.ExitWake? ==> procs[p].pc.j <= |procs|)
    && (procs[p].pc.WaitScan? ==> procs[p].pc.i <= |procs|)
  }

  lemma KeepsBounds(s: Sys, a: Action, p: nat)
    requires Enabled(s, a) && p < |s.procs| && InBounds(s.procs, p)
    ensures |Apply(s, a).procs| == |s.procs| && InBounds(Apply(s, a).procs, p)
  {
    hide Enabled, Apply, InBounds;
    match a
    case ExitReparent(_) | ExitWakeup(_) => BoundsExit(s, a, p);
    case Wake(_) | WaitBegin(_) | WaitLook(_, _) | WaitEnd(_) => BoundsWait(s, a, p);
    case _ => BoundsRest(s, a, p);
  }

  lemma BoundsExit(s: Sys, a: Action, p: nat)
    requires Enabled(s, a) && p < |s.procs| && InBounds(s.procs, p) && (a.ExitReparent? || a.ExitWakeup?)
    ensures |Apply(s, a).procs| == |s.procs| && InBounds(Apply(s, a).procs, p)
  {}

  lemma BoundsWait(s: Sys, a: Action, p: nat)
    requires Enabled(s, a) && p < |s.procs| && InBounds(s.procs, p)
    requires a.Wake? || a.WaitBegin? || a.WaitLook? || a.WaitEnd?
    ensures |Apply(s, a).procs| == |s.procs| && InBounds(Apply(s, a).procs, p)
  {}

  lemma BoundsRest(s: Sys, a: Action, p: nat)
    requires Enabled(s, a) && p < |s.procs| && InBounds(s.procs, p)
    requires !a.ExitReparent? && !a.ExitWakeup? && !a.Wake? && !a.WaitBegin? && !a.WaitLook? && !a.WaitEnd?
    ensures |Apply(s, a).procs| == |s.procs| && InBounds(Apply(s, a).procs, p)
  {}

  lemma {:induction false} RunBounds(run: seq<Sys>, i: nat, p: nat)
    requires IsRun(run) && i < |run| && p < |run[i].procs|
    ensures InBounds(run[i].procs, p)
  {
    hide Enabled, Apply, InBounds;
    if i == 0 {
      StartBounds(run[0], p);
    } else {
      assert Next(run[i - 1], run[i]);
      var a :| Enabled(run[i - 1], a) && Apply(run[i - 1], a) == run[i];
      SameSize(run[i - 1], a);
      RunBounds(run, i - 1, p);
      KeepsBounds(run[i - 1], a, p);
    }
  }

  lemma SameSize(s: Sys, a: Action)
    requires Enabled(s, a)
    ensures |Apply(s, a).procs| == |s.procs|
  {}

  lemma StartBounds(s: Sys, p: nat)
    requires Init(s) && p < |s.procs|
    ensures InBounds(s.procs, p)
  {}

  // ----- nobody is stuck -----

  /** What is known of a process on a CPU. */
  lemma OnIt(s: Sys, c: nat)
    requires Inv(s) && Running(s, c)
    ensures !PcOf(s, c).Parked? && LocalOk(s.procs[s.cpus[c].p], s.cpus[c].p, s.init)
    ensures PcOf(s, c).ForkStart? || PcOf(s, c).ForkLink? ==> PcOf(s, c).np < |s.procs|
    ensures PcOf(s, c).Resumed? ==> !PcOf(s, c).to.Never?
  {
    hide ParentsOk, ReparentOk, WakeupsOk, ProgressOk, WaitLockOk, PlacesOk;
    OnCpu(s, c);
    ForkInRange(s.procs, s.cpus[c].p);
    hide ForksOk;
  }

  lemma ForkInRange(procs: seq<Process>, p: nat)
    requires ForksOk(procs) && p < |procs|
    ensures procs[p].pc.ForkStart? || procs[p].pc.ForkLink? ==> procs[p].pc.np < |procs|
  {
    assert procs[p].pc.ForkStart? || procs[p].pc.ForkLink? ==> ForkOf(procs[p].pc).np == procs[p].pc.np;
  }

  /** A process on a CPU can take its next step exactly if it does not need a lock that somebody has. */
  lemma GoesOn(s: Sys, c: nat)
    requires Inv(s) && Running(s, c) && InBounds(s.procs, s.cpus[c].p)
    ensures Enabled(s, Own(s, c)) <==> !Blocked(s, c)
  {
    hide Inv, Enabled, Blocked, Own, LocalOk;
    OnIt(s, c);
    match PcOf(s, c)
    case ForkLink(_) => ByWaitLock(s, c);
    case WaitAgain => ByWaitLock(s, c);
    case ForkStart(np) => ByForkLock(s, c);
    case ReparentWake(_, _) => ByWakeLock(s, c);
    case ExitWake(_) => ByWakeLock(s, c);
    case WaitScan(_, _) => ByScanLock(s, c);
    case _ => ByNone(s, c);
  }

  lemma ByNone(s: Sys, c: nat)
    requires Running(s, c) && LocalOk(s.procs[s.cpus[c].p], s.cpus[c].p, s.init) && !PcOf(s, c).Parked?
    requires !PcOf(s, c).ForkLink? && !PcOf(s, c).WaitAgain? && !PcOf(s, c).ForkStart? && !PcOf(s, c).ReparentWake?
    requires !PcOf(s, c).ExitWake? && !PcOf(s, c).WaitScan? && (PcOf(s, c).Resumed? ==> !PcOf(s, c).to.Never?)
    ensures Enabled(s, Own(s, c)) && !Blocked(s, c)
  {}

  lemma ByWaitLock(s: Sys, c: nat)
    requires Running(s, c) && (PcOf(s, c).ForkLink? || PcOf(s, c).WaitAgain?)
    requires PcOf(s, c).ForkLink? ==> PcOf(s, c).np < |s.procs|
    ensures Enabled(s, Own(s, c)) <==> !Blocked(s, c)
  {}

  lemma ByForkLock(s: Sys, c: nat)
    requires Running(s, c) && PcOf(s, c).ForkStart? && PcOf(s, c).np < |s.procs|
    ensures Enabled(s, Own(s, c)) <==> !Blocked(s, c)
  {
    assert NeedsSlotLock(s, c, PcOf(s, c).np) <==> s.procs[PcOf(s, c).np].locked;
  }

  lemma ByWakeLock(s: Sys, c: nat)
    requires Running(s, c) && (PcOf(s, c).ReparentWake? || PcOf(s, c).ExitWake?) && InBounds(s.procs, s.cpus[c].p)
    requires LocalOk(s.procs[s.cpus[c].p], s.cpus[c].p, s.init)
    ensures Enabled(s, Own(s, c)) <==> !Blocked(s, c)
  {
    var j := PcOf(s, c).j;
    assert j < |s.procs| ==> (NeedsSlotLock(s, c, j) <==> j != s.cpus[c].p && s.procs[j].locked);
  }

  lemma ByScanLock(s: Sys, c: nat)
    requires Running(s, c) && PcOf(s, c).WaitScan? && InBounds(s.procs, s.cpus[c].p)
    requires LocalOk(s.procs[s.cpus[c].p], s.cpus[c].p, s.init)
    ensures Enabled(s, Own(s, c)) <==> !Blocked(s, c)
  {
    var i := PcOf(s, c).i;
    assert i < |s.procs| ==> (NeedsSlotLock(s, c, i) <==> s.procs[i].parent == s.cpus[c].p && s.procs[i].locked);
  }

  // ----- no deadlock -----

  /** CPU d can go on: the process on it can take its next step, or its scheduler can let go of the one before. */
  predicate CanStep(s: Sys, d: nat) {
    (Running(s, d) && Enabled(s, Own(s, d))) || Enabled(s, Retire(d))
  }

  /** Whoever holds the lock of a slot can go on. */
  lemma SlotHolder(s: Sys, q: nat) returns (d: nat)
    requires Inv(s) && q < |s.procs| && s.procs[q].locked && forall p: nat | p < |s.procs| :: InBounds(s.procs, p)
    ensures CanStep(s, d)
  {
    d := HolderCpu(s, q);
    if Running(s, d) {
      hide Inv, Enabled, Own;
      GoesOn(s, d);
    }
  }

  /** The lock of a slot is held by the process itself, on its CPU, or by the scheduler it has just left. */
  lemma HolderCpu(s: Sys, q: nat) returns (d: nat)
    requires Inv(s) && q < |s.procs| && s.procs[q].locked
    ensures Enabled(s, Retire(d)) || (Running(s, d) && s.cpus[d].p == q && !Blocked(s, d))
  {
    hide ForksOk, ParentsOk, ReparentOk, WakeupsOk, ProgressOk, WaitLockOk;
    assert LocalOk(s.procs[q], q, s.init);
    d := s.procs[q].cpu;
  }

  /** Whoever holds wait_lock can go on, or waits for the lock of a slot. */
  lemma WaitHolder(s: Sys) returns (d: nat)
    requires Inv(s) && s.waiter != -1 && forall p: nat | p < |s.procs| :: InBounds(s.procs, p)
    ensures CanStep(s, d)
  {
    d := WaiterCpu(s);
    hide Inv, Enabled, Own;
    GoesOn(s, d);
    if Blocked(s, d) {
      var q :| NeedsSlotLock(s, d, q);
      d := SlotHolder(s, q);
    }
  }

  lemma WaiterCpu(s: Sys) returns (d: nat)
    requires Inv(s) && s.waiter != -1
    ensures Running(s, d) && !NeedsWaitLock(s, d)
  {
    hide ForksOk, ParentsOk, ReparentOk, WakeupsOk, ProgressOk;
    assert HoldsWaitLock(s.procs[s.waiter].pc);
    assert LocalOk(s.procs[s.waiter], s.waiter, s.init);
    d := s.procs[s.waiter].cpu;
  }

  /** In every run, at every moment: if a CPU is not idle, some CPU can go on. If a process waits for a lock, somebody
      else can go on who holds it, or who holds what its holder waits for. */
  lemma NoDeadlock(run: seq<Sys>, i: nat, c: nat) returns (d: nat)
    requires IsRun(run) && i < |run| && c < |run[i].cpus| && !run[i].cpus[c].Idle?
    ensures CanStep(run[i], d)
  {
    hide IsRun, Inv, Enabled, Own, NeedsWaitLock, NeedsSlotLock;
    var s := run[i];
    RunInv(run, i);
    forall p: nat | p < |s.procs| ensures InBounds(s.procs, p) { RunBounds(run, i, p); }
    NotIdle(s, c);
    if Running(s, c) {
      GoesOn(s, c);
      if NeedsWaitLock(s, c) {
        SomebodyHas(s, c);
        d := WaitHolder(s);
      } else if Blocked(s, c) {
        var q :| NeedsSlotLock(s, c, q);
        LockedSlot(s, c, q);
        d := SlotHolder(s, q);
      } else {
        d := c;
      }
    } else {
      d := c;
    }
  }

  lemma NotIdle(s: Sys, c: nat)
    requires Inv(s) && c < |s.cpus| && !s.cpus[c].Idle?
    ensures Running(s, c) || Enabled(s, Retire(c))
  {
    hide ForksOk, ParentsOk, ReparentOk, WakeupsOk, ProgressOk, LocalsOk;
  }

  lemma SomebodyHas(s: Sys, c: nat)
    requires NeedsWaitLock(s, c)
    ensures s.waiter != -1
  {}

  lemma LockedSlot(s: Sys, c: nat, q: nat)
    requires NeedsSlotLock(s, c, q)
    ensures q < |s.procs| && s.procs[q].locked
  {}

  /** And an idle CPU can take up any RUNNABLE process whose lock is free. */
  lemma CanDispatch(run: seq<Sys>, i: nat, c: nat, p: nat)
    requires IsRun(run) && i < |run| && c < |run[i].cpus| && run[i].cpus[c].Idle?
    requires Unlocked(run[i], p) && run[i].procs[p].state.RUNNABLE?
    ensures Enabled(run[i], Dispatch(c, p))
  {
    hide IsRun, ForksOk, ParentsOk, ReparentOk, WakeupsOk, ProgressOk, WaitLockOk, PlacesOk;
    RunInv(run, i);
    assert LocalOk(run[i].procs[p], p, run[i].init);
  }
}
