/** What the steps of the process machine do, seen from one slot: its state, its parent, and what wait() returns. */
module ProcLife {
  import opened Proc
  import opened ProcProof

  /** The process that takes the step, for a step that some process takes. */
  predicate ByProcess(s: Sys, a: Action, p: nat) {
    !a.Dispatch? && !a.Retire? && !a.Kill? && !a.WakeOther? && Running(s, a.c) && s.cpus[a.c].p == p
  }

  // ----- life and death -----

  /** A wakeup() that this step makes reaches slot p. */
  predicate Wakes(s: Sys, a: Action, p: nat) {
    match a
    case WakeOther(v, id) => v == p && p < |s.procs| && s.procs[p].chan == Other(id)
    case Kill(v) => v == p
    case ExitWakeup(c) =>
      && Running(s, c) && s.cpus[c].p != p && p < |s.procs|
      && ((PcOf(s, c).ReparentWake? && PcOf(s, c).j == p && s.procs[p].chan == Slot(s.init))
          || (PcOf(s, c).ExitWake? && PcOf(s, c).j == p && s.procs[s.cpus[c].p].parent >= 0
              && s.procs[p].chan == Slot(s.procs[s.cpus[c].p].parent)))
    case _ => false
  }

  /** The scan of wait() by p's parent frees slot p. */
  predicate Reaps(s: Sys, a: Action, p: nat) {
    && a.WaitLook? && !a.fault && Running(s, a.c) && PcOf(s, a.c).WaitScan? && PcOf(s, a.c).i == p < |s.procs|
    && s.procs[p].parent == s.cpus[a.c].p && s.procs[p].state.ZOMBIE?
  }

  /** The state of slot p after the step. */
  function StateAfter(s: Sys, a: Action, p: nat): ProcState
    requires Enabled(s, a) && p < |s.procs|
  {
    match s.procs[p].state
    case UNUSED => if a.ForkAlloc? && a.np == p then USED else UNUSED
    case USED => if a.ForkRun? && PcOf(s, a.c).np == p then RUNNABLE else USED
    case RUNNABLE => if a.Dispatch? && a.p == p then RUNNING else RUNNABLE
    case SLEEPING => if Wakes(s, a, p) then RUNNABLE else SLEEPING
    case ZOMBIE => if Reaps(s, a, p) then UNUSED else ZOMBIE
    case RUNNING =>
      if !ByProcess(s, a, p) then RUNNING
      else if a.Yield? then RUNNABLE
      else if a.Fall? then SLEEPING
      else if a.ExitDie? then ZOMBIE
      else RUNNING
  }

  /** When the state of a slot changes, and to what: allocated and started by fork(), scheduled, preempted, put to
      sleep, woken, ended by exit(), and freed by the parent's wait(). Nothing else changes a state. */
  lemma LifeCycle(s: Sys, a: Action, p: nat)
    requires Inv(s) && Enabled(s, a) && p < |s.procs|
    ensures |Apply(s, a).procs| == |s.procs| && Apply(s, a).procs[p].state == StateAfter(s, a, p)
  {
    hide Inv, Enabled, Apply, StateAfter;
    Actor(s, a, p);
    match a
    case Dispatch(_, _) | Retire(_) | Switch(_) | Wake(_) | Yield(_) | Nap(_, _) | Fall(_) => LifeSched(s, a, p);
    case ForkAlloc(_, _) | ForkParent(_) | ForkRun(_) => LifeFork(s, a, p);
    case WaitBegin(_) | WaitLook(_, _) | WaitEnd(_) | WaitLet(_) => LifeWait(s, a, p);
    case ExitWakeup(_) => LifeWakeup(s, a, p);
    case Kill(_) | WakeOther(_, _) => LifeOutside(s, a, p);
    case _ => LifeExit(s, a, p);
  }

  lemma LifeSched(s: Sys, a: Action, p: nat)
    requires Enabled(s, a) && p < |s.procs|
    requires a.Dispatch? || a.Retire? || a.Switch? || a.Wake? || a.Yield? || a.Nap? || a.Fall?
    requires ByProcess(s, a, p) && !a.Switch? ==> s.procs[p].state.RUNNING?
    requires a.Switch? ==> !s.procs[s.cpus[a.c].p].state.RUNNING?
    ensures |Apply(s, a).procs| == |s.procs| && Apply(s, a).procs[p].state == StateAfter(s, a, p)
  {}

  lemma LifeFork(s: Sys, a: Action, p: nat)
    requires Enabled(s, a) && p < |s.procs| && (a.ForkAlloc? || a.ForkParent? || a.ForkRun?)
    requires ByProcess(s, a, p) ==> s.procs[p].state.RUNNING?
    requires a.ForkRun? ==> PcOf(s, a.c).np < |s.procs| && s.procs[PcOf(s, a.c).np].state.USED?
    ensures |Apply(s, a).procs| == |s.procs| && Apply(s, a).procs[p].state == StateAfter(s, a, p)
  {}

  lemma LifeExit(s: Sys, a: Action, p: nat)
    requires Enabled(s, a) && p < |s.procs|
    requires a.ExitBegin? || a.ExitReparent? || a.ExitLock? || a.ExitDie? || a.ExitRelease?
    requires ByProcess(s, a, p) && !a.ExitRelease? ==> s.procs[p].state.RUNNING?
    requires a.ExitRelease? ==> !s.procs[s.cpus[a.c].p].state.RUNNING?
    ensures |Apply(s, a).procs| == |s.procs| && Apply(s, a).procs[p].state == StateAfter(s, a, p)
  {}

  lemma LifeWakeup(s: Sys, a: Action, p: nat)
    requires Enabled(s, a) && p < |s.procs| && a.ExitWakeup?
    requires ByProcess(s, a, p) ==> s.procs[p].state.RUNNING?
    ensures |Apply(s, a).procs| == |s.procs| && Apply(s, a).procs[p].state == StateAfter(s, a, p)
  {}

  lemma LifeWait(s: Sys, a: Action, p: nat)
    requires Enabled(s, a) && p < |s.procs| && (a.WaitBegin? || a.WaitLook? || a.WaitEnd? || a.WaitLet?)
    requires ByProcess(s, a, p) ==> s.procs[p].state.RUNNING?
    ensures |Apply(s, a).procs| == |s.procs| && Apply(s, a).procs[p].state == StateAfter(s, a, p)
  {}

  lemma LifeOutside(s: Sys, a: Action, p: nat)
    requires Enabled(s, a) && p < |s.procs| && (a.Kill? || a.WakeOther?)
    ensures |Apply(s, a).procs| == |s.procs| && Apply(s, a).procs[p].state == StateAfter(s, a, p)
  {}

  /** The process that takes a step is RUNNING, but for one in sched(), and the slot that fork() starts is USED. */
  lemma Actor(s: Sys, a: Action, p: nat)
    requires Inv(s) && Enabled(s, a) && p < |s.procs|
    ensures ByProcess(s, a, p) && !a.Switch? && !a.ExitRelease? ==> s.procs[p].state.RUNNING?
    ensures a.Switch? || a.ExitRelease? ==> !s.procs[s.cpus[a.c].p].state.RUNNING?
    ensures a.ForkRun? ==> PcOf(s, a.c).np < |s.procs| && s.procs[PcOf(s, a.c).np].state.USED?
  {
    hide ParentsOk, ReparentOk, WakeupsOk, ProgressOk, WaitLockOk;
    if !a.Dispatch? && !a.Retire? && !a.Kill? && !a.WakeOther? {
      OnCpu(s, a.c);
    }
  }

  // ----- parents -----

  /** The parent of slot p after the step: fork() sets it, the exit of the parent hands it to init, and the slot loses
      it when it is freed. */
  function ParentAfter(s: Sys, a: Action, p: nat): int
    requires Enabled(s, a) && p < |s.procs|
  {
    if a.ForkParent? && PcOf(s, a.c).np == p then s.cpus[a.c].p
    else if a.ExitReparent? && PcOf(s, a.c).i == p && s.procs[p].parent == s.cpus[a.c].p then s.init
    else if Reaps(s, a, p) then -1
    else s.procs[p].parent
  }

  /** Whether slot p is killed after the step: kill() says so, and only freeing the slot takes it back. */
  predicate KilledAfter(s: Sys, a: Action, p: nat)
    requires p < |s.procs|
  {
    (s.procs[p].killed || (a.Kill? && a.v == p)) && !Reaps(s, a, p)
  }

  lemma Family(s: Sys, a: Action, p: nat)
    requires Inv(s) && Enabled(s, a) && p < |s.procs|
    ensures |Apply(s, a).procs| == |s.procs| && Apply(s, a).procs[p].parent == ParentAfter(s, a, p)
    ensures Apply(s, a).procs[p].killed <==> KilledAfter(s, a, p)
  {
    hide Inv, Enabled, Apply, ParentAfter, KilledAfter;
    NotOwnParent(s, p);
    match a
    case ForkAlloc(_, _) | ForkParent(_) | ForkRun(_) => FamilyFork(s, a, p);
    case ExitReparent(_) | ExitWakeup(_) => FamilyExit(s, a, p);
    case WaitBegin(_) | WaitLook(_, _) | WaitEnd(_) | WaitLet(_) => FamilyWait(s, a, p);
    case _ => FamilyRest(s, a, p);
  }

  lemma NotOwnParent(s: Sys, p: nat)
    requires Inv(s) && p < |s.procs|
    ensures s.procs[p].parent != p
  {
    hide LocalsOk, PlacesOk, WaitLockOk, ForksOk, ReparentOk, WakeupsOk, ProgressOk;
  }

  lemma FamilyFork(s: Sys, a: Action, p: nat)
    requires Enabled(s, a) && p < |s.procs| && (a.ForkParent? || a.ForkAlloc? || a.ForkRun?)
    ensures |Apply(s, a).procs| == |s.procs| && Apply(s, a).procs[p].parent == ParentAfter(s, a, p)
    ensures Apply(s, a).procs[p].killed <==> KilledAfter(s, a, p)
  {}

  lemma FamilyExit(s: Sys, a: Action, p: nat)
    requires Enabled(s, a) && p < |s.procs| && (a.ExitReparent? || a.ExitWakeup?) && s.procs[p].parent != p
    ensures |Apply(s, a).procs| == |s.procs| && Apply(s, a).procs[p].parent == ParentAfter(s, a, p)
    ensures Apply(s, a).procs[p].killed <==> KilledAfter(s, a, p)
  {}

  lemma FamilyWait(s: Sys, a: Action, p: nat)
    requires Enabled(s, a) && p < |s.procs| && (a.WaitBegin? || a.WaitLook? || a.WaitEnd? || a.WaitLet?)
    requires s.procs[p].parent != p
    ensures |Apply(s, a).procs| == |s.procs| && Apply(s, a).procs[p].parent == ParentAfter(s, a, p)
    ensures Apply(s, a).procs[p].killed <==> KilledAfter(s, a, p)
  {}

  lemma FamilyRest(s: Sys, a: Action, p: nat)
    requires Enabled(s, a) && p < |s.procs|
    requires !a.ForkParent? && !a.ForkAlloc? && !a.ForkRun? && !a.ExitReparent? && !a.ExitWakeup?
    requires !a.WaitBegin? && !a.WaitLook? && !a.WaitEnd? && !a.WaitLet?
    ensures |Apply(s, a).procs| == |s.procs| && Apply(s, a).procs[p].parent == ParentAfter(s, a, p)
    ensures Apply(s, a).procs[p].killed <==> KilledAfter(s, a, p)
  {}

  // ----- wait() -----

  predicate HasChild(procs: seq<Process>, p: nat, n: nat) {
    exists c: nat :: c < n && c < |procs| && procs[c].parent == p
  }

  /** `havekids` is right for the slots that wait() has looked at. */
  predicate ScanOk(procs: seq<Process>, p: nat)
    requires p < |procs|
  {
    procs[p].pc.WaitScan? ==> procs[p].pc.i <= |procs| && (procs[p].pc.kids <==> HasChild(procs, p, procs[p].pc.i))
  }

  /** How a process gets into the scan, or on in it. */
  lemma ScanSteps(s: Sys, a: Action, p: nat)
    requires Inv(s) && Enabled(s, a) && p < |s.procs| == |Apply(s, a).procs| && Apply(s, a).procs[p].pc.WaitScan?
    ensures || Apply(s, a).procs[p].pc == s.procs[p].pc
            || Apply(s, a).procs[p].pc == WaitScan(0, false)
            || (&& a.WaitLook? && Running(s, a.c) && s.cpus[a.c].p == p && s.procs[p].pc.WaitScan?
                && s.procs[p].pc.i < |s.procs| && Apply(s, a).procs[p].pc.i == s.procs[p].pc.i + 1
                && (Apply(s, a).procs[p].pc.kids <==> s.procs[p].pc.kids || s.procs[s.procs[p].pc.i].parent == p))
  {
    hide Inv, Enabled, Apply;
    match a
    case WaitLook(_, _) => ScanLook(s, a, p);
    case WaitBegin(_) | WaitEnd(_) | WaitLet(_) | Wake(_) => ScanWait(s, a, p);
    case ExitReparent(_) | ExitWakeup(_) => ScanExit(s, a, p);
    case _ => ScanRest(s, a, p);
  }

  lemma ScanLook(s: Sys, a: Action, p: nat)
    requires Enabled(s, a) && p < |s.procs| == |Apply(s, a).procs| && Apply(s, a).procs[p].pc.WaitScan? && a.WaitLook?
    ensures || Apply(s, a).procs[p].pc == s.procs[p].pc
            || (&& Running(s, a.c) && s.cpus[a.c].p == p && s.procs[p].pc.WaitScan?
                && s.procs[p].pc.i < |s.procs| && Apply(s, a).procs[p].pc.i == s.procs[p].pc.i + 1
                && (Apply(s, a).procs[p].pc.kids <==> s.procs[p].pc.kids || s.procs[s.procs[p].pc.i].parent == p))
  {}

  lemma ScanWait(s: Sys, a: Action, p: nat)
    requires Enabled(s, a) && p < |s.procs| == |Apply(s, a).procs| && Apply(s, a).procs[p].pc.WaitScan?
    requires a.WaitBegin? || a.WaitEnd? || a.WaitLet? || a.Wake?
    ensures Apply(s, a).procs[p].pc == s.procs[p].pc || Apply(s, a).procs[p].pc == WaitScan(0, false)
  {}

  lemma ScanExit(s: Sys, a: Action, p: nat)
    requires Enabled(s, a) && p < |s.procs| == |Apply(s, a).procs| && Apply(s, a).procs[p].pc.WaitScan?
    requires a.ExitReparent? || a.ExitWakeup?
    ensures Apply(s, a).procs[p].pc == s.procs[p].pc
  {}

  lemma ScanRest(s: Sys, a: Action, p: nat)
    requires Enabled(s, a) && p < |s.procs| == |Apply(s, a).procs| && Apply(s, a).procs[p].pc.WaitScan?
    requires !a.WaitLook? && !a.WaitBegin? && !a.WaitEnd? && !a.WaitLet? && !a.Wake? && !a.ExitReparent?
    requires !a.ExitWakeup?
    ensures Apply(s, a).procs[p].pc == s.procs[p].pc
  {}

  /** While a process scans, it holds wait_lock, and no slot becomes its child or ceases to be. */
  lemma ScanHolds(s: Sys, a: Action, p: nat, c: nat)
    requires Inv(s) && Enabled(s, a) && p < |s.procs| && c < |s.procs| == |Apply(s, a).procs|
    requires s.procs[p].pc.WaitScan? && Apply(s, a).procs[p].pc.WaitScan?
    ensures Apply(s, a).procs[c].parent == p <==> s.procs[c].parent == p
  {
    hide LocalsOk, PlacesOk, ForksOk, ParentsOk, ReparentOk, WakeupsOk, ProgressOk;
    Family(s, a, c);
    if a.ExitReparent? || a.WaitLook? { assert HoldsWaitLock(PcOf(s, a.c)); }
    hide Apply;
    assert HoldsWaitLock(s.procs[p].pc);
    if Reaps(s, a, c) { ReapEnds(s, a, c); }
  }

  lemma ReapEnds(s: Sys, a: Action, c: nat)
    requires Enabled(s, a) && Reaps(s, a, c)
    ensures s.cpus[a.c].p < |Apply(s, a).procs| && Apply(s, a).procs[s.cpus[a.c].p].pc == Run
  {}

  lemma KeepsScan(s: Sys, a: Action, p: nat)
    requires Inv(s) && Enabled(s, a) && p < |s.procs| && ScanOk(s.procs, p)
    ensures p < |Apply(s, a).procs| && ScanOk(Apply(s, a).procs, p)
  {
    hide Inv, Enabled, Apply;
    Family(s, a, p);
    var t := Apply(s, a);
    if t.procs[p].pc.WaitScan? {
      ScanSteps(s, a, p);
      if s.procs[p].pc.WaitScan? {
        forall c: nat | c < |s.procs| ensures t.procs[c].parent == p <==> s.procs[c].parent == p {
          ScanHolds(s, a, p, c);
        }
        SameChildren(s.procs, t.procs, p, t.procs[p].pc.i);
        if t.procs[p].pc.i > 0 { NextChild(s.procs, p, t.procs[p].pc.i - 1); }
      }
    }
  }

  lemma SameChildren(procs: seq<Process>, procs': seq<Process>, p: nat, n: nat)
    requires |procs'| == |procs| && forall c: nat | c < |procs| :: procs'[c].parent == p <==> procs[c].parent == p
    ensures HasChild(procs', p, n) <==> HasChild(procs, p, n)
  {}

  lemma NextChild(procs: seq<Process>, p: nat, i: nat)
    ensures HasChild(procs, p, i + 1) <==> HasChild(procs, p, i) || (i < |procs| && procs[i].parent == p)
  {}

  lemma {:induction false} RunScan(run: seq<Sys>, i: nat, p: nat)
    requires IsRun(run) && i < |run| && p < |run[i].procs|
    ensures ScanOk(run[i].procs, p)
  {
    hide Inv, Enabled, Apply, ScanOk;
    if i == 0 {
      StartScan(run[0], p);
    } else {
      RunInv(run, i - 1);
      assert Next(run[i - 1], run[i]);
      var a :| Enabled(run[i - 1], a) && Apply(run[i - 1], a) == run[i];
      SameSize(run[i - 1], a);
      RunScan(run, i - 1, p);
      KeepsScan(run[i - 1], a, p);
    }
  }

  lemma StartScan(s: Sys, p: nat)
    requires Init(s) && p < |s.procs|
    ensures ScanOk(s.procs, p)
  {}

  lemma SameSize(s: Sys, a: Action)
    requires Inv(s) && Enabled(s, a)
    ensures |Apply(s, a).procs| == |s.procs|
  {
    hide Enabled, Apply, ParentAfter, KilledAfter, PlacesOk, ForksOk, ParentsOk, ReparentOk, WakeupsOk, ProgressOk;
    Family(s, a, s.init);
  }

  /** In every interleaving: wait() that has found no exited child returns -1 if the process has no child at all or has
      been killed, and otherwise goes to sleep, with a child that has not exited. */
  lemma WaitDecides(run: seq<Sys>, i: nat, c: nat)
    requires IsRun(run) && i < |run| && Enabled(run[i], WaitEnd(c))
    ensures var s, t := run[i], Apply(run[i], WaitEnd(c)); var p := s.cpus[c].p;
      && (forall d: nat | d < |s.procs| && s.procs[d].parent == p :: !s.procs[d].state.ZOMBIE?)
      && |t.procs| == |s.procs|
      && if s.procs[p].killed || (forall d: nat | d < |s.procs| :: s.procs[d].parent != p)
         then t.procs == s.procs[p := s.procs[p].(pc := Run)] && t.waiter == -1
         else t.procs == s.procs[p := s.procs[p].(pc := WaitLocked, locked := true)] && t.waiter == s.waiter == p
  {
    hide IsRun, PlacesOk, ForksOk, ParentsOk, ReparentOk, WakeupsOk;
    RunInv(run, i);
    var s := run[i];
    var p := s.cpus[c].p;
    RunScan(run, i, p);
    assert HoldsWaitLock(s.procs[p].pc);
    forall d: nat | d < |s.procs| && s.procs[d].parent == p ensures !s.procs[d].state.ZOMBIE? {
      assert !ZombieChild(s.procs, p, d);
    }
  }

  // ----- where a process is -----

  /** Where a process goes on when sched() returns. */
  function BackAt(to: Resume): Pc {
    match to
    case ToRun | ToOther => Run
    case ToLink(np) => ForkLink(np)
    case ToStart(np) => ForkStart(np)
    case ToAgain | ToWait => WaitAgain
    case Never => Parked(Never)
  }

  /** Where a process is in its own code, whether or not it is asleep or switched out. */
  function Point(pc: Pc): Pc {
    match pc
    case Falling(_, to) => BackAt(to)
    case Sched(to) => BackAt(to)
    case Parked(to) => BackAt(to)
    case Resumed(to) => BackAt(to)
    case _ => pc
  }

  /** The steps by which a process gets on in its own code; the others only switch it in and out. */
  predicate Advances(s: Sys, a: Action, p: nat) {
    && ByProcess(s, a, p) && !a.Switch? && !a.Yield? && !a.Nap? && !a.Fall?
    && (a.Wake? ==> s.procs[s.cpus[a.c].p].pc.WaitAgain?)
  }

  /** Being preempted, put to sleep, woken and switched in again takes a process nowhere else: it goes on where it was.
      Only its own steps move it, but for the slot that fork() prepares and the one that wait() frees. */
  lemma SwitchingKeepsPoint(s: Sys, a: Action, p: nat)
    requires Inv(s) && Enabled(s, a) && p < |s.procs| && !Advances(s, a, p)
    ensures |Apply(s, a).procs| == |s.procs|
    ensures Point(Apply(s, a).procs[p].pc) ==
      if a.ForkAlloc? && a.np == p then Run
      else if Reaps(s, a, p) then Parked(Never)
      else Point(s.procs[p].pc)
  {
    hide Inv, Enabled, Apply;
    Actor(s, a, p);
    NotOwnParent(s, p);
    match a
    case Dispatch(_, _) | Retire(_) | Switch(_) | Wake(_) => PointSwitch(s, a, p);
    case Yield(_) | Nap(_, _) | Fall(_) => PointSleep(s, a, p);
    case ForkAlloc(_, _) | ForkParent(_) | ForkRun(_) => PointFork(s, a, p);
    case WaitLook(_, _) => PointLook(s, a, p);
    case _ => PointRest(s, a, p);
  }

  lemma PointSwitch(s: Sys, a: Action, p: nat)
    requires Enabled(s, a) && p < |s.procs| && !Advances(s, a, p) && (a.Dispatch? || a.Retire? || a.Switch? || a.Wake?)
    ensures |Apply(s, a).procs| == |s.procs| && Point(Apply(s, a).procs[p].pc) == Point(s.procs[p].pc)
  {}

  lemma PointSleep(s: Sys, a: Action, p: nat)
    requires Enabled(s, a) && p < |s.procs| && (a.Yield? || a.Nap? || a.Fall?)
    ensures |Apply(s, a).procs| == |s.procs| && Point(Apply(s, a).procs[p].pc) == Point(s.procs[p].pc)
  {}

  lemma PointFork(s: Sys, a: Action, p: nat)
    requires Enabled(s, a) && p < |s.procs| && !Advances(s, a, p) && (a.ForkAlloc? || a.ForkParent? || a.ForkRun?)
    ensures |Apply(s, a).procs| == |s.procs|
    ensures Point(Apply(s, a).procs[p].pc) == if a.ForkAlloc? && a.np == p then Run else Point(s.procs[p].pc)
  {}

  lemma PointLook(s: Sys, a: Action, p: nat)
    requires Enabled(s, a) && p < |s.procs| && !Advances(s, a, p) && a.WaitLook?
    ensures |Apply(s, a).procs| == |s.procs|
    ensures Point(Apply(s, a).procs[p].pc) == if Reaps(s, a, p) then Parked(Never) else Point(s.procs[p].pc)
  {}

  lemma PointRest(s: Sys, a: Action, p: nat)
    requires Enabled(s, a) && p < |s.procs| && !Advances(s, a, p)
    requires !a.Dispatch? && !a.Retire? && !a.Switch? && !a.Wake?
    requires !a.Yield? && !a.Nap? && !a.Fall? && !a.ForkAlloc? && !a.ForkParent? && !a.ForkRun? && !a.WaitLook?
    ensures |Apply(s, a).procs| == |s.procs| && Point(Apply(s, a).procs[p].pc) == Point(s.procs[p].pc)
  {}

  /** fork(), exit() and wait() go from point to point as their code does. */
  lemma OwnStepsAdvance(s: Sys, a: Action, p: nat)
    requires Inv(s) && Enabled(s, a) && p < |s.procs| && Advances(s, a, p)
    ensures var t := Apply(s, a); |t.procs| == |s.procs| && var x, y := s.procs[p].pc, t.procs[p].pc;
      && (x.Run? ==> || (a.ForkAlloc? && y == ForkLink(a.np)) || (a.ExitBegin? && y == Reparent(0))
                     || (a.WaitBegin? && y == WaitScan(0, false)))
      && (x.ForkLink? ==> y == ForkStart(x.np)) && (x.ForkStart? ==> y == Run)
      && (x.Reparent? ==> y == if x.i >= |s.procs| then ExitWake(0)
                               else if s.procs[x.i].parent == p then ReparentWake(x.i, 0) else Reparent(x.i + 1))
      && (x.ReparentWake? ==> y == if x.j >= |s.procs| then Reparent(x.i + 1) else ReparentWake(x.i, x.j + 1))
      && (x.ExitWake? ==> y == if x.j < |s.procs| then ExitWake(x.j + 1) else ExitLocked)
      && (x.ExitLocked? ==> y == ExitZombie) && (x.ExitZombie? ==> Point(y) == Parked(Never))
      && (x.WaitLocked? ==> Point(y) == WaitAgain) && (x.WaitAgain? ==> y == WaitScan(0, false))
  {
    hide Inv;
  }
}
