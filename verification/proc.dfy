/** Process life cycle of kernel/proc.c: fork, exit, wait, sleep, wakeup, kill and the per-CPU scheduler as
    the steps of one machine. A step is what a CPU does between two points at which another CPU can see the
    difference; a lock section that takes no further lock is one step. */
module Proc {
  datatype ProcState = UNUSED | USED | SLEEPING | RUNNABLE | RUNNING | ZOMBIE

  /** What a process can sleep on: a slot of the process table (only wait() does that, on its own slot)
      or some other kernel object. */
  datatype Chan = NoChan | Slot(p: nat) | Other(id: nat)

  /** Where a process continues when the scheduler switches back to it: in forkret() or in the yield() of a timer
      interrupt, which may have come between two lock sections of fork() or wait(); in a sleep() called by
      wait(), in another sleep(), or nowhere because it has exited. */
  datatype Resume = ToRun | ToLink(np: nat) | ToStart(np: nat) | ToAgain | ToWait | ToOther | Never

  /** The point that the kernel thread of a process has reached. */
  datatype Pc =
    | Run                                     // outside of all the code below
    | ForkLink(np: nat)                       // fork(): np is USED, its parent not yet set
    | ForkStart(np: nat)                      // fork(): np has its parent, not yet RUNNABLE
    | Reparent(i: nat)                        // exit(): holds wait_lock, slots below i are reparented
    | ReparentWake(i: nat, j: nat)            // exit(): slot i was given to init; wakeup(init) is at slot j
    | ExitWake(j: nat)                        // exit(): wakeup(p->parent) is at slot j
    | ExitLocked                              // exit(): holds wait_lock and p->lock
    | ExitZombie                              // exit(): state is ZOMBIE, both locks still held
    | WaitScan(i: nat, kids: bool)            // wait(): holds wait_lock, slots below i were looked at
    | WaitLocked                              // sleep() in wait(): holds wait_lock and p->lock
    | Falling(chan: Chan, to: Resume)         // sleep(): holds p->lock, state not yet SLEEPING
    | Sched(to: Resume)                       // sched(): state set, about to swtch, holds p->lock
    | Parked(to: Resume)                      // switched out
    | Resumed(to: Resume)                     // switched in again, holds p->lock
    | WaitAgain                               // sleep() in wait(): about to take wait_lock again

  /** `parent` and `cpu` are -1 when there is none; `cpu` is the hart that the thread runs on. */
  datatype Process = Process(
    state: ProcState, chan: Chan, parent: int, killed: bool, locked: bool, pc: Pc, cpu: int)

  /** A CPU's scheduler is looking for work, has switched to p, or has been switched back to from p and
      still has c->proc == p and p->lock. */
  datatype Cpu = Idle | On(p: nat) | Back(p: nat)

  /** `waiter` holds wait_lock, -1 when it is free; `init` is initproc. */
  datatype Sys = Sys(procs: seq<Process>, cpus: seq<Cpu>, waiter: int, init: nat)

  datatype Action =
    | Dispatch(c: nat, p: nat)                // scheduler(): found p RUNNABLE, swtch to it
    | Retire(c: nat)                          // scheduler(): c->proc = 0, release(p->lock)
    | Switch(c: nat)                          // sched(): swtch to the scheduler
    | Wake(c: nat)                            // the code after sched() in yield(), forkret() and sleep()
    | Yield(c: nat)                           // a timer interrupt where no spinlock is held
    | Nap(c: nat, id: nat)                    // sleep() on another object: acquire(p->lock)
    | Fall(c: nat)                            // sleep(): p->chan = chan, p->state = SLEEPING
    | ForkAlloc(c: nat, np: nat)
    | ForkParent(c: nat)
    | ForkRun(c: nat)
    | ExitBegin(c: nat)
    | ExitReparent(c: nat)
    | ExitWakeup(c: nat)                      // one slot of wakeup(init) or of wakeup(p->parent)
    | ExitLock(c: nat)
    | ExitDie(c: nat)
    | ExitRelease(c: nat)
    | WaitBegin(c: nat)
    | WaitLook(c: nat, fault: bool)           // one slot of wait()'s scan; fault: copyout fails
    | WaitEnd(c: nat)                         // the scan is over: return, or acquire(p->lock) to sleep
    | WaitLet(c: nat)                         // sleep() in wait(): release(wait_lock)
    | Kill(v: nat)
    | WakeOther(v: nat, id: nat)              // any wakeup() on another object, at slot v

  function Pid(s: Sys, c: nat): nat
    requires c < |s.cpus| && s.cpus[c].On?
  {
    s.cpus[c].p
  }

  predicate Running(s: Sys, c: nat) {
    c < |s.cpus| && s.cpus[c].On? && s.cpus[c].p < |s.procs|
  }

  function PcOf(s: Sys, c: nat): Pc
    requires Running(s, c)
  {
    s.procs[s.cpus[c].p].pc
  }

  predicate Unlocked(s: Sys, p: nat) {
    p < |s.procs| && !s.procs[p].locked
  }

  /** No spinlock is held, so interrupts are on. */
  predicate Preemptible(pc: Pc) {
    pc.Run? || pc.ForkLink? || pc.ForkStart? || pc.WaitAgain?
  }

  /** Where yield() returns to. */
  function ReturnTo(pc: Pc): Resume
    requires Preemptible(pc)
  {
    match pc
    case Run => ToRun
    case ForkLink(np) => ToLink(np)
    case ForkStart(np) => ToStart(np)
    case WaitAgain => ToAgain
  }

  predicate Enabled(s: Sys, a: Action) {
    match a
    case Dispatch(c, p) =>
      c < |s.cpus| && s.cpus[c].Idle? && Unlocked(s, p) && s.procs[p].state.RUNNABLE? && s.procs[p].pc.Parked?
    case Retire(c) => c < |s.cpus| && s.cpus[c].Back? && s.cpus[c].p < |s.procs|
    case Switch(c) => Running(s, c) && PcOf(s, c).Sched?
    case Wake(c) =>
      && Running(s, c)
      && ((PcOf(s, c).Resumed? && !PcOf(s, c).to.Never?) || (PcOf(s, c).WaitAgain? && s.waiter == -1))
    case Yield(c) => Running(s, c) && Preemptible(PcOf(s, c)) && Unlocked(s, s.cpus[c].p)
    case Nap(c, id) => Running(s, c) && PcOf(s, c).Run? && Unlocked(s, s.cpus[c].p)
    case Fall(c) => Running(s, c) && PcOf(s, c).Falling?
    case ForkAlloc(c, np) =>
      Running(s, c) && PcOf(s, c).Run? && Unlocked(s, np) && s.procs[np].state.UNUSED?
    case ForkParent(c) =>
      Running(s, c) && PcOf(s, c).ForkLink? && PcOf(s, c).np < |s.procs| && s.waiter == -1
    case ForkRun(c) => Running(s, c) && PcOf(s, c).ForkStart? && Unlocked(s, PcOf(s, c).np)
    case ExitBegin(c) => Running(s, c) && PcOf(s, c).Run? && s.cpus[c].p != s.init && s.waiter == -1
    case ExitReparent(c) => Running(s, c) && PcOf(s, c).Reparent?
    case ExitWakeup(c) =>
      && Running(s, c)
      && match PcOf(s, c) {
           case ReparentWake(_, j) => j < |s.procs| && j != s.cpus[c].p ==> Unlocked(s, j)
           case ExitWake(j) => j < |s.procs| && (j != s.cpus[c].p ==> Unlocked(s, j))
           case _ => false
         }
    case ExitLock(c) =>
      Running(s, c) && PcOf(s, c).ExitWake? && PcOf(s, c).j == |s.procs| && Unlocked(s, s.cpus[c].p)
    case ExitDie(c) => Running(s, c) && PcOf(s, c).ExitLocked?
    case ExitRelease(c) => Running(s, c) && PcOf(s, c).ExitZombie?
    case WaitBegin(c) => Running(s, c) && PcOf(s, c).Run? && s.waiter == -1
    case WaitLook(c, fault) =>
      && Running(s, c) && PcOf(s, c).WaitScan? && PcOf(s, c).i < |s.procs|
      && (s.procs[PcOf(s, c).i].parent == s.cpus[c].p ==> Unlocked(s, PcOf(s, c).i))
    case WaitEnd(c) =>
      && Running(s, c) && PcOf(s, c).WaitScan? && PcOf(s, c).i == |s.procs| && Unlocked(s, s.cpus[c].p)
    case WaitLet(c) => Running(s, c) && PcOf(s, c).WaitLocked?
    case Kill(v) => Unlocked(s, v) && !s.procs[v].state.UNUSED?
    case WakeOther(v, id) => Unlocked(s, v)
  }

  function SetProc(s: Sys, p: nat, x: Process): Sys
    requires p < |s.procs|
  {
    s.(procs := s.procs[p := x])
  }

  function SetPc(s: Sys, p: nat, pc: Pc): Sys
    requires p < |s.procs|
  {
    SetProc(s, p, s.procs[p].(pc := pc))
  }

  /** One slot of wakeup(chan). */
  function WakeSlot(s: Sys, v: nat, chan: Chan): Sys
    requires v < |s.procs|
  {
    if s.procs[v].state.SLEEPING? && s.procs[v].chan == chan
    then SetProc(s, v, s.procs[v].(state := RUNNABLE))
    else s
  }

  /** What freeproc() leaves. */
  const FREE_SLOT := Process(UNUSED, NoChan, -1, false, false, Parked(Never), -1)

  function ApplyWake(s: Sys, c: nat): Sys
    requires Enabled(s, Wake(c))
  {
    var p := Pid(s, c);
    if PcOf(s, c).WaitAgain?
    then SetPc(s, p, WaitScan(0, false)).(waiter := p)
    else
      var to := PcOf(s, c).to;
      SetProc(s, p, s.procs[p].(
        locked := false,
        chan := if to.ToWait? || to.ToOther? then NoChan else s.procs[p].chan,
        pc := match to
              case ToLink(np) => ForkLink(np)
              case ToStart(np) => ForkStart(np)
              case ToAgain | ToWait => WaitAgain
              case _ => Run))
  }

  function ApplyExitWakeup(s: Sys, c: nat): Sys
    requires Enabled(s, ExitWakeup(c))
  {
    var p := Pid(s, c);
    match PcOf(s, c)
    case ReparentWake(i, j) =>
      if j >= |s.procs| then SetPc(s, p, Reparent(i + 1))
      else SetPc(if j == p then s else WakeSlot(s, j, Slot(s.init)), p, ReparentWake(i, j + 1))
    case ExitWake(j) =>
      var par := s.procs[p].parent;
      SetPc(if j == p || par < 0 then s else WakeSlot(s, j, Slot(par)), p, ExitWake(j + 1))
  }

  function ApplyWaitLook(s: Sys, c: nat, fault: bool): Sys
    requires Enabled(s, WaitLook(c, fault))
  {
    var p, i := Pid(s, c), PcOf(s, c).i;
    if s.procs[i].parent != p then SetPc(s, p, WaitScan(i + 1, PcOf(s, c).kids))
    else if !s.procs[i].state.ZOMBIE? then SetPc(s, p, WaitScan(i + 1, true))
    else if fault then SetPc(s, p, Run).(waiter := -1)
    else SetPc(SetProc(s, i, FREE_SLOT), p, Run).(waiter := -1)
  }

  function ApplyWaitEnd(s: Sys, c: nat): Sys
    requires Enabled(s, WaitEnd(c))
  {
    var p := Pid(s, c);
    if !PcOf(s, c).kids || s.procs[p].killed then SetPc(s, p, Run).(waiter := -1)
    else SetProc(s, p, s.procs[p].(locked := true, pc := WaitLocked))
  }

  function Apply(s: Sys, a: Action): Sys
    requires Enabled(s, a)
  {
    match a
    case Dispatch(c, p) =>
      SetProc(s, p, s.procs[p].(state := RUNNING, locked := true, cpu := c, pc := Resumed(s.procs[p].pc.to)))
      .(cpus := s.cpus[c := On(p)])
    case Retire(c) =>
      var p := s.cpus[c].p;
      SetProc(s, p, s.procs[p].(locked := false, cpu := -1)).(cpus := s.cpus[c := Idle])
    case Switch(c) =>
      var p := Pid(s, c);
      SetPc(s, p, Parked(PcOf(s, c).to)).(cpus := s.cpus[c := Back(p)])
    case Wake(c) => ApplyWake(s, c)
    case Yield(c) =>
      var p := Pid(s, c);
      SetProc(s, p, s.procs[p].(locked := true, state := RUNNABLE, pc := Sched(ReturnTo(PcOf(s, c)))))
    case Nap(c, id) =>
      var p := Pid(s, c);
      SetProc(s, p, s.procs[p].(locked := true, pc := Falling(Other(id), ToOther)))
    case Fall(c) =>
      var p := Pid(s, c);
      SetProc(s, p, s.procs[p].(chan := PcOf(s, c).chan, state := SLEEPING, pc := Sched(PcOf(s, c).to)))
    case ForkAlloc(c, np) =>
      SetPc(SetProc(s, np, s.procs[np].(state := USED, pc := Parked(ToRun))), Pid(s, c), ForkLink(np))
    case ForkParent(c) =>
      var p, np := Pid(s, c), PcOf(s, c).np;
      SetPc(SetProc(s, np, s.procs[np].(parent := p)), p, ForkStart(np))
    case ForkRun(c) =>
      var p, np := Pid(s, c), PcOf(s, c).np;
      SetPc(SetProc(s, np, s.procs[np].(state := RUNNABLE)), p, Run)
    case ExitBegin(c) => SetPc(s, Pid(s, c), Reparent(0)).(waiter := Pid(s, c))
    case ExitReparent(c) =>
      var p, i := Pid(s, c), PcOf(s, c).i;
      if i >= |s.procs| then SetPc(s, p, ExitWake(0))
      else if s.procs[i].parent == p
      then SetPc(SetProc(s, i, s.procs[i].(parent := s.init)), p, ReparentWake(i, 0))
      else SetPc(s, p, Reparent(i + 1))
    case ExitWakeup(c) => ApplyExitWakeup(s, c)
    case ExitLock(c) =>
      var p := Pid(s, c);
      SetProc(s, p, s.procs[p].(locked := true, pc := ExitLocked))
    case ExitDie(c) =>
      var p := Pid(s, c);
      SetProc(s, p, s.procs[p].(state := ZOMBIE, pc := ExitZombie))
    case ExitRelease(c) => SetPc(s, Pid(s, c), Sched(Never)).(waiter := -1)
    case WaitBegin(c) => SetPc(s, Pid(s, c), WaitScan(0, false)).(waiter := Pid(s, c))
    case WaitLook(c, fault) => ApplyWaitLook(s, c, fault)
    case WaitEnd(c) => ApplyWaitEnd(s, c)
    case WaitLet(c) => SetPc(s, Pid(s, c), Falling(Slot(Pid(s, c)), ToWait)).(waiter := -1)
    case Kill(v) =>
      SetProc(s, v, s.procs[v].(
        killed := true,
        state := if s.procs[v].state.SLEEPING? then RUNNABLE else s.procs[v].state))
    case WakeOther(v, id) => WakeSlot(s, v, Other(id))
  }

  /** After userinit(): one process, RUNNABLE, that will be initproc; every CPU looks for work. */
  ghost predicate Init(s: Sys) {
    && s.init < |s.procs| && s.waiter == -1
    && (forall c | 0 <= c < |s.cpus| :: s.cpus[c].Idle?)
    && (forall p | 0 <= p < |s.procs| ::
          s.procs[p] == if p == s.init
                        then Process(RUNNABLE, NoChan, -1, false, false, Parked(ToRun), -1)
                        else FREE_SLOT)
  }

  ghost predicate Next(s: Sys, t: Sys) {
    exists a :: Enabled(s, a) && Apply(s, a) == t
  }

  ghost predicate IsRun(run: seq<Sys>) {
    && |run| > 0 && Init(run[0])
    && forall i | 0 <= i < |run| - 1 :: Next(run[i], run[i + 1])
  }
}
