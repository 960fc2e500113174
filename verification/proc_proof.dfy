/** What every step of the process machine keeps, and what holds in every reachable state. */
module ProcProof {
  import opened Proc

  predicate HoldsWaitLock(pc: Pc) {
    pc.Reparent? || pc.ReparentWake? || pc.ExitWake? || pc.ExitLocked? || pc.ExitZombie? ||
    pc.WaitScan? || pc.WaitLocked?
  }

  predicate HoldsOwnLock(pc: Pc) {
    pc.ExitLocked? || pc.ExitZombie? || pc.WaitLocked? || pc.Falling? || pc.Sched? || pc.Resumed?
  }

  predicate Exiting(pc: Pc) {
    pc.Reparent? || pc.ReparentWake? || pc.ExitWake? || pc.ExitLocked? || pc.ExitZombie?
  }

  /** State, program point and lock of one process fit together. */
  predicate LocalOk(x: Process, p: nat, init: nat) {
    && x.locked == (HoldsOwnLock(x.pc) || (x.pc.Parked? && x.cpu >= 0))
    && (x.cpu < 0 ==> x.cpu == -1 && x.pc.Parked?)
    && match x.state {
         case UNUSED => x == FREE_SLOT
         case USED => x.pc == Parked(ToRun) && x.cpu == -1 && x.chan.NoChan?
         case SLEEPING =>
           && (x.pc.Sched? || x.pc.Parked?)
           && if x.pc.to.ToWait? then x.chan == Slot(p) else x.pc.to.ToOther? && x.chan.Other?
         case RUNNABLE => (x.pc.Sched? || x.pc.Parked?) && !x.pc.to.Never?
         case RUNNING =>
           && !x.pc.Sched? && !x.pc.Parked? && !x.pc.ExitZombie?
           && (x.pc.Resumed? ==> !x.pc.to.Never?)
           && (x.pc.Falling? ==>
                 (x.pc.to.ToWait? && x.pc.chan == Slot(p)) || (x.pc.to.ToOther? && x.pc.chan.Other?))
         case ZOMBIE => x.pc.ExitZombie? || ((x.pc.Sched? || x.pc.Parked?) && x.pc.to.Never?)
       }
    && (p == init ==> !x.state.UNUSED? && !x.state.USED? && !x.state.ZOMBIE? && x.parent == -1 && !Exiting(x.pc))
  }

  /** c->proc and the process that runs on the CPU agree, both ways. */
  ghost predicate PlacesOk(procs: seq<Process>, cpus: seq<Cpu>) {
    && (forall c | 0 <= c < |cpus| && !cpus[c].Idle? ::
          && cpus[c].p < |procs| && procs[cpus[c].p].cpu == c
          && (cpus[c].Back? <==> procs[cpus[c].p].pc.Parked?))
    && (forall p | 0 <= p < |procs| && procs[p].cpu >= 0 ::
          && procs[p].cpu < |cpus| && !cpus[procs[p].cpu].Idle? && cpus[procs[p].cpu].p == p)
  }

  /** Exactly the holder of wait_lock is at a point that holds it. */
  ghost predicate WaitLockOk(procs: seq<Process>, waiter: int) {
    && -1 <= waiter < |procs|
    && forall p | 0 <= p < |procs| :: HoldsWaitLock(procs[p].pc) <==> waiter == p
  }

  /** The fork() that a process is in: it has yet to set the parent of slot np, or to make slot np RUNNABLE. */
  datatype Fork = NoFork | Linking(np: nat) | Starting(np: nat)

  function Resuming(to: Resume): Fork {
    match to
    case ToLink(np) => Linking(np)
    case ToStart(np) => Starting(np)
    case _ => NoFork
  }

  /** Whether or not the process is switched out. */
  function ForkOf(pc: Pc): Fork {
    match pc
    case ForkLink(np) => Linking(np)
    case ForkStart(np) => Starting(np)
    case Sched(to) => Resuming(to)
    case Parked(to) => Resuming(to)
    case Resumed(to) => Resuming(to)
    case _ => NoFork
  }

  predicate Forks(pc: Pc) {
    !ForkOf(pc).NoFork?
  }

  predicate Forking(pc: Pc, np: nat) {
    Forks(pc) && ForkOf(pc).np == np
  }

  /** A slot being set up by fork() is USED and belongs to one forking process. */
  ghost predicate ForksOk(procs: seq<Process>) {
    && (forall p | 0 <= p < |procs| && Forks(procs[p].pc) ::
          && ForkOf(procs[p].pc).np < |procs| && procs[ForkOf(procs[p].pc).np].state.USED?
          && procs[ForkOf(procs[p].pc).np].parent == if ForkOf(procs[p].pc).Linking? then -1 else p)
    && (forall p, q | 0 <= p < q < |procs| && Forks(procs[p].pc) :: !Forking(procs[q].pc, ForkOf(procs[p].pc).np))
  }

  predicate Alive(st: ProcState) {
    st.SLEEPING? || st.RUNNABLE? || st.RUNNING?
  }

  /** Every parent pointer names a process that has neither exited nor been freed, and every process but
      init that has started has a parent. */
  ghost predicate ParentsOk(procs: seq<Process>, init: nat) {
    forall c {:trigger procs[c]} | 0 <= c < |procs| ::
      && -1 <= procs[c].parent < |procs|
      && (procs[c].parent >= 0 ==> procs[c].parent != c && Alive(procs[procs[c].parent].state))
      && (procs[c].parent == -1 ==> c == init || procs[c].state.UNUSED? || procs[c].state.USED?)
  }

  /** The slots that an exiting process has already been over are not its children any more. */
  predicate Abandoned(pc: Pc, c: nat) {
    match pc
    case Reparent(i) => c < i
    case ReparentWake(i, _) => c <= i
    case ExitWake(_) | ExitLocked | ExitZombie => true
    case _ => false
  }

  ghost predicate ReparentOk(procs: seq<Process>) {
    forall p, c | 0 <= p < |procs| && 0 <= c < |procs| && Abandoned(procs[p].pc, c) :: procs[c].parent != p
  }

  /** The process is in wait(), has seen no exited child, and will not look again before a wakeup. */
  predicate AwaitsChild(x: Process) {
    || x.pc.WaitLocked?
    || (x.pc.Falling? && x.pc.to.ToWait?)
    || (x.state.SLEEPING? && (x.pc.Sched? || x.pc.Parked?) && x.pc.to.ToWait?)
  }

  predicate ZombieChild(procs: seq<Process>, p: nat, c: nat) {
    p < |procs| && c < |procs| && procs[c].parent == p && procs[c].state.ZOMBIE?
  }

  /** The holder of wait_lock has just given a child to init and its wakeup(init) has yet to reach it. */
  predicate WakeupPending(procs: seq<Process>, waiter: int, init: nat) {
    0 <= waiter < |procs| && procs[waiter].pc.ReparentWake? && procs[waiter].pc.j <= init
  }

  /** No wakeup is lost. */
  ghost predicate WakeupsOk(procs: seq<Process>, waiter: int, init: nat) {
    forall p: nat, c: nat | ZombieChild(procs, p, c) && AwaitsChild(procs[p]) ::
      p == init && WakeupPending(procs, waiter, init)
  }

  /** What the holder of wait_lock has already established. */
  ghost predicate ProgressOk(procs: seq<Process>, waiter: int, init: nat) {
    0 <= waiter < |procs| ==>
      match procs[waiter].pc
      case WaitScan(i, _) => forall c | 0 <= c < i :: !ZombieChild(procs, waiter, c)
      case ReparentWake(i, j) => i < |procs| && (init < j && init < |procs| ==> !AwaitsChild(procs[init]))
      case ExitWake(j) =>
        var par := procs[waiter].parent;
        0 <= par < j && par < |procs| ==> !AwaitsChild(procs[par])
      case ExitLocked =>
        var par := procs[waiter].parent;
        0 <= par < |procs| ==> !AwaitsChild(procs[par])
      case _ => true
  }

  predicate LocalsOk(procs: seq<Process>, init: nat) {
    init < |procs| && forall p | 0 <= p < |procs| :: LocalOk(procs[p], p, init)
  }

  ghost predicate Inv(s: Sys) {
    && LocalsOk(s.procs, s.init)
    && PlacesOk(s.procs, s.cpus)
    && WaitLockOk(s.procs, s.waiter)
    && ForksOk(s.procs)
    && ParentsOk(s.procs, s.init)
    && ReparentOk(s.procs)
    && WakeupsOk(s.procs, s.waiter, s.init)
    && ProgressOk(s.procs, s.waiter, s.init)
  }

  // ----- replacing one process, seen by each part of the invariant -----

  lemma SetLocal(procs: seq<Process>, init: nat, p: nat, x: Process)
    requires LocalsOk(procs, init) && p < |procs| && LocalOk(x, p, init)
    ensures LocalsOk(procs[p := x], init)
  {}

  lemma SetPlaces(procs: seq<Process>, cpus: seq<Cpu>, p: nat, x: Process)
    requires PlacesOk(procs, cpus) && p < |procs|
    requires x.cpu == procs[p].cpu && x.pc.Parked? == procs[p].pc.Parked?
    ensures PlacesOk(procs[p := x], cpus)
  {}

  lemma SetWaitLock(procs: seq<Process>, waiter: int, p: nat, x: Process, after: int)
    requires WaitLockOk(procs, waiter) && p < |procs|
    requires if HoldsWaitLock(x.pc) then after == p && waiter in {-1, p as int}
             else after == (if waiter == p then -1 else waiter)
    ensures WaitLockOk(procs[p := x], after)
  {}

  /** No fork() is setting up slot `np`. */
  ghost predicate NobodyForks(procs: seq<Process>, np: nat) {
    forall q | 0 <= q < |procs| :: !Forking(procs[q].pc, np)
  }

  lemma SetForks(procs: seq<Process>, p: nat, x: Process)
    requires ForksOk(procs) && p < |procs| && (Forks(x.pc) ==> ForkOf(x.pc) == ForkOf(procs[p].pc))
    requires (procs[p].state.USED? ==> x.state.USED? && x.parent == procs[p].parent) || NobodyForks(procs, p)
    ensures ForksOk(procs[p := x])
  {
    hide ForkOf;
  }

  lemma SetParents(procs: seq<Process>, init: nat, p: nat, x: Process)
    requires ParentsOk(procs, init) && p < |procs| && x.parent == procs[p].parent
    requires Alive(procs[p].state) ==> Alive(x.state)
    requires x.state.ZOMBIE? ==> procs[p].state.ZOMBIE?
    requires Alive(x.state) ==> Alive(procs[p].state) || x.parent >= 0
    ensures ParentsOk(procs[p := x], init)
  {}

  lemma SetReparent(procs: seq<Process>, p: nat, x: Process)
    requires ReparentOk(procs) && p < |procs| && x.parent == procs[p].parent
    requires forall c: nat | c < |procs| && Abandoned(x.pc, c) :: Abandoned(procs[p].pc, c)
    ensures ReparentOk(procs[p := x])
  {}

  /** A step of a process that does not hold wait_lock, which leaves its family alone. */
  lemma SetWakeups(procs: seq<Process>, waiter: int, init: nat, p: nat, x: Process)
    requires WakeupsOk(procs, waiter, init) && p < |procs| && (p != waiter || x.pc == procs[p].pc)
    requires x.parent == procs[p].parent && x.state.ZOMBIE? == procs[p].state.ZOMBIE?
    requires AwaitsChild(x) ==> AwaitsChild(procs[p])
    ensures WakeupsOk(procs[p := x], waiter, init)
  {
    var qs := procs[p := x];
    forall q: nat, c: nat | ZombieChild(qs, q, c) && AwaitsChild(qs[q])
      ensures q == init && WakeupPending(qs, waiter, init)
    {
      assert ZombieChild(procs, q, c) && AwaitsChild(procs[q]);
    }
  }

  lemma SetProgress(procs: seq<Process>, waiter: int, init: nat, p: nat, x: Process)
    requires ProgressOk(procs, waiter, init) && p < |procs| && (p != waiter || x.pc == procs[p].pc)
    requires x.parent == procs[p].parent && x.state.ZOMBIE? == procs[p].state.ZOMBIE?
    requires AwaitsChild(x) ==> AwaitsChild(procs[p])
    ensures ProgressOk(procs[p := x], waiter, init)
  {
    var qs := procs[p := x];
    if 0 <= waiter < |procs| && procs[waiter].pc.WaitScan? {
      forall c: nat | c < procs[waiter].pc.i ensures !ZombieChild(qs, waiter, c) {
        assert !ZombieChild(procs, waiter, c);
      }
    }
  }

  /** The class of steps that touch one process without wait_lock and leave its family alone. */
  predicate Quiet(x: Process, y: Process) {
    && !HoldsWaitLock(x.pc) && !HoldsWaitLock(y.pc)
    && (Forks(y.pc) ==> ForkOf(y.pc) == ForkOf(x.pc)) && x.parent == y.parent
    && x.state.USED? == y.state.USED? && x.state.UNUSED? == y.state.UNUSED? && x.state.ZOMBIE? == y.state.ZOMBIE?
    && (AwaitsChild(y) ==> AwaitsChild(x))
  }

  lemma KeepsQuiet(s: Sys, p: nat, x: Process, cpus: seq<Cpu>)
    requires Inv(s) && p < |s.procs| && Quiet(s.procs[p], x) && LocalOk(x, p, s.init)
    requires PlacesOk(s.procs[p := x], cpus)
    ensures Inv(SetProc(s, p, x).(cpus := cpus))
  {
    hide PlacesOk, ForksOk, ParentsOk, ReparentOk, WakeupsOk, ProgressOk, LocalsOk, LocalOk;
    assert s.waiter != p;
    SetLocal(s.procs, s.init, p, x);
    SetWaitLock(s.procs, s.waiter, p, x, s.waiter);
    SetForks(s.procs, p, x);
    SetParents(s.procs, s.init, p, x);
    SetReparent(s.procs, p, x);
    SetWakeups(s.procs, s.waiter, s.init, p, x);
    SetProgress(s.procs, s.waiter, s.init, p, x);
  }

  lemma KeepsStill(s: Sys, p: nat, x: Process)
    requires Inv(s) && p < |s.procs| && Quiet(s.procs[p], x) && LocalOk(x, p, s.init)
    requires x.cpu == s.procs[p].cpu && x.pc.Parked? == s.procs[p].pc.Parked?
    ensures Inv(SetProc(s, p, x))
  {
    hide PlacesOk, ForksOk, ParentsOk, ReparentOk, WakeupsOk, ProgressOk, LocalsOk, LocalOk, WaitLockOk;
    SetPlaces(s.procs, s.cpus, p, x);
    KeepsQuiet(s, p, x, s.cpus);
  }

  // ----- scheduling steps -----

  lemma KeepsDispatch(s: Sys, c: nat, p: nat)
    requires Inv(s) && Enabled(s, Dispatch(c, p))
    ensures Inv(Apply(s, Dispatch(c, p)))
  {
    hide ForksOk, ParentsOk, ReparentOk, WakeupsOk, ProgressOk, WaitLockOk;
    var x := s.procs[p].(state := RUNNING, locked := true, cpu := c, pc := Resumed(s.procs[p].pc.to));
    assert LocalOk(s.procs[p], p, s.init);
    KeepsQuiet(s, p, x, s.cpus[c := On(p)]);
  }

  lemma KeepsRetire(s: Sys, c: nat)
    requires Inv(s) && Enabled(s, Retire(c))
    ensures Inv(Apply(s, Retire(c)))
  {
    hide ForksOk, ParentsOk, ReparentOk, WakeupsOk, ProgressOk, WaitLockOk;
    var p := s.cpus[c].p;
    assert LocalOk(s.procs[p], p, s.init);
    KeepsQuiet(s, p, s.procs[p].(locked := false, cpu := -1), s.cpus[c := Idle]);
  }

  lemma KeepsSwitch(s: Sys, c: nat)
    requires Inv(s) && Enabled(s, Switch(c))
    ensures Inv(Apply(s, Switch(c)))
  {
    hide ForksOk, ParentsOk, ReparentOk, WakeupsOk, ProgressOk, WaitLockOk;
    var p := s.cpus[c].p;
    assert LocalOk(s.procs[p], p, s.init);
    KeepsQuiet(s, p, s.procs[p].(pc := Parked(PcOf(s, c).to)), s.cpus[c := Back(p)]);
  }

  /** A process that a CPU has switched to runs there. */
  lemma OnCpu(s: Sys, c: nat)
    requires Inv(s) && Running(s, c)
    ensures var p := s.cpus[c].p; LocalOk(s.procs[p], p, s.init) && s.procs[p].cpu == c && !s.procs[p].pc.Parked?
  {
    hide ForksOk, ParentsOk, ReparentOk, WakeupsOk, ProgressOk, WaitLockOk;
  }

  lemma KeepsSleepSteps(s: Sys, a: Action)
    requires Inv(s) && Enabled(s, a) && (a.Yield? || a.Nap? || a.Fall? || (a.Wake? && PcOf(s, a.c).Resumed?))
    ensures Inv(Apply(s, a))
  {
    hide Inv;
    OnCpu(s, a.c);
    var p := s.cpus[a.c].p;
    KeepsStill(s, p, Apply(s, a).procs[p]);
  }

  lemma KeepsFromOutside(s: Sys, a: Action)
    requires Inv(s) && Enabled(s, a) && (a.Kill? || a.WakeOther?)
    ensures Inv(Apply(s, a))
  {
    hide ForksOk, ParentsOk, ReparentOk, WakeupsOk, ProgressOk, WaitLockOk, PlacesOk;
    var x := s.procs[a.v];
    assert LocalOk(x, a.v, s.init);
    if a.Kill? {
      KeepsOutside(s, a.v, x.(killed := true, state := if x.state.SLEEPING? then RUNNABLE else x.state));
    } else if x.state.SLEEPING? && x.chan == Other(a.id) {
      KeepsOutside(s, a.v, x.(state := RUNNABLE));
    }
  }

  /** Like KeepsStill, for a change that other processes make and that may leave a fork() in place. */
  lemma KeepsOutside(s: Sys, p: nat, x: Process)
    requires Inv(s) && p < |s.procs| && LocalOk(x, p, s.init)
    requires x == s.procs[p].(state := x.state, killed := x.killed)
    requires x.state == s.procs[p].state || (s.procs[p].state.SLEEPING? && x.state.RUNNABLE?)
    ensures Inv(SetProc(s, p, x))
  {
    hide PlacesOk, ForksOk, ParentsOk, ReparentOk, WakeupsOk, ProgressOk, LocalsOk, LocalOk;
    SetLocal(s.procs, s.init, p, x);
    SetPlaces(s.procs, s.cpus, p, x);
    SetWaitLock(s.procs, s.waiter, p, x, s.waiter);
    SetForks(s.procs, p, x);
    SetParents(s.procs, s.init, p, x);
    SetReparent(s.procs, p, x);
    SetWakeups(s.procs, s.waiter, s.init, p, x);
    SetProgress(s.procs, s.waiter, s.init, p, x);
  }

  // ----- fork -----

  lemma StartFork(procs: seq<Process>, p: nat, np: nat)
    requires ForksOk(procs) && p < |procs| && np < |procs| && p != np && !Forks(procs[p].pc)
    requires procs[np].state.USED? && procs[np].parent == -1 && NobodyForks(procs, np)
    ensures ForksOk(procs[p := procs[p].(pc := ForkLink(np))])
  {
    LinkPcs(np);
    hide ForkOf;
  }

  lemma UnusedIsFree(procs: seq<Process>, np: nat)
    requires ForksOk(procs) && np < |procs| && procs[np].state.UNUSED?
    ensures NobodyForks(procs, np)
  {}

  /** The first half of allocproc(): the slot becomes USED. */
  lemma KeepsAllocate(s: Sys, np: nat)
    requires Inv(s) && np < |s.procs| && s.procs[np].state.UNUSED?
    ensures Inv(SetProc(s, np, s.procs[np].(state := USED, pc := Parked(ToRun))))
  {
    assert LocalOk(s.procs[np], np, s.init);
    hide PlacesOk, ForksOk, ParentsOk, ReparentOk, WakeupsOk, ProgressOk, LocalsOk;
    var x := s.procs[np].(state := USED, pc := Parked(ToRun));
    UnusedIsFree(s.procs, np);
    SetLocal(s.procs, s.init, np, x);
    SetPlaces(s.procs, s.cpus, np, x);
    SetWaitLock(s.procs, s.waiter, np, x, s.waiter);
    SetForks(s.procs, np, x);
    SetParents(s.procs, s.init, np, x);
    SetReparent(s.procs, np, x);
    SetWakeups(s.procs, s.waiter, s.init, np, x);
    SetProgress(s.procs, s.waiter, s.init, np, x);
  }

  lemma KeepsStartFork(s: Sys, p: nat, np: nat)
    requires Inv(s) && p < |s.procs| && np < |s.procs| && p != np
    requires s.procs[p].state.RUNNING? && s.procs[p].pc.Run?
    requires s.procs[np].state.USED? && s.procs[np].parent == -1 && NobodyForks(s.procs, np)
    ensures Inv(SetPc(s, p, ForkLink(np)))
  {
    hide PlacesOk, ForksOk, ParentsOk, ReparentOk, WakeupsOk, ProgressOk, NobodyForks;
    assert LocalOk(s.procs[p], p, s.init);
    var x := s.procs[p].(pc := ForkLink(np));
    SetLocal(s.procs, s.init, p, x);
    SetPlaces(s.procs, s.cpus, p, x);
    SetWaitLock(s.procs, s.waiter, p, x, s.waiter);
    StartFork(s.procs, p, np);
    SetParents(s.procs, s.init, p, x);
    SetReparent(s.procs, p, x);
    SetWakeups(s.procs, s.waiter, s.init, p, x);
    SetProgress(s.procs, s.waiter, s.init, p, x);
  }

  lemma KeepsForkAlloc(s: Sys, c: nat, np: nat)
    requires Inv(s) && Enabled(s, ForkAlloc(c, np))
    ensures Inv(Apply(s, ForkAlloc(c, np)))
  {
    hide PlacesOk, ParentsOk, ReparentOk, WakeupsOk, ProgressOk, WaitLockOk;
    OnCpu(s, c);
    KeepsAllocate(s, np);
    var t := SetProc(s, np, s.procs[np].(state := USED, pc := Parked(ToRun)));
    assert LocalOk(s.procs[np], np, s.init);
    UnusedIsFree(s.procs, np);
    assert NobodyForks(t.procs, np);
    hide ForksOk, NobodyForks, LocalsOk, LocalOk;
    KeepsStartFork(t, s.cpus[c].p, np);
  }

  // Giving a child to a process, seen by the parts of the invariant that look at parents.

  lemma AdoptParents(procs: seq<Process>, init: nat, p: nat, c: nat)
    requires ParentsOk(procs, init) && p < |procs| && c < |procs| && p != c && Alive(procs[p].state)
    ensures ParentsOk(procs[c := procs[c].(parent := p)], init)
  {}

  lemma AdoptReparent(procs: seq<Process>, p: nat, c: nat)
    requires ReparentOk(procs) && p < |procs| && c < |procs| && !Abandoned(procs[p].pc, c)
    ensures ReparentOk(procs[c := procs[c].(parent := p)])
  {}

  lemma AdoptNewborn(procs: seq<Process>, waiter: int, init: nat, p: nat, c: nat)
    requires WakeupsOk(procs, waiter, init) && p < |procs| && c < |procs| && procs[c].state.USED?
    ensures WakeupsOk(procs[c := procs[c].(parent := p)], waiter, init)
  {
    var qs := procs[c := procs[c].(parent := p)];
    forall q: nat, d: nat | ZombieChild(qs, q, d) && AwaitsChild(qs[q])
      ensures q == init && WakeupPending(qs, waiter, init)
    {
      assert ZombieChild(procs, q, d) && AwaitsChild(procs[q]);
    }
  }

  lemma ForkLinks(procs: seq<Process>, p: nat, np: nat)
    requires ForksOk(procs) && p < |procs| && procs[p].pc == ForkLink(np)
    ensures np < |procs| && procs[np].state.USED? && np != p ==>
            ForksOk(procs[np := procs[np].(parent := p)][p := procs[p].(pc := ForkStart(np))])
  {
    hide ForkOf, Resuming;
    if np < |procs| && procs[np].state.USED? && np != p {
      var procs' := procs[np := procs[np].(parent := p)][p := procs[p].(pc := ForkStart(np))];
      forall q | 0 <= q < |procs'| && Forks(procs'[q].pc)
        ensures
          && ForkOf(procs'[q].pc).np < |procs'| && procs'[ForkOf(procs'[q].pc).np].state.USED?
          && procs'[ForkOf(procs'[q].pc).np].parent == if ForkOf(procs'[q].pc).Linking? then -1 else q
      {
        LinkedFine(procs, p, np, procs', q);
      }
      forall q, r | 0 <= q < r < |procs'| && Forks(procs'[q].pc)
        ensures !Forking(procs'[r].pc, ForkOf(procs'[q].pc).np)
      {
        LinkedApart(procs, p, np, procs', q, r);
      }
    }
  }

  lemma LinkedFine(procs: seq<Process>, p: nat, np: nat, procs': seq<Process>, q: nat)
    requires ForksOk(procs) && p < |procs| && procs[p].pc == ForkLink(np) && np < |procs| && procs[np].state.USED?
    requires np != p && procs' == procs[np := procs[np].(parent := p)][p := procs[p].(pc := ForkStart(np))]
    requires q < |procs| && Forks(procs'[q].pc)
    ensures ForkOf(procs'[q].pc).np < |procs'| && procs'[ForkOf(procs'[q].pc).np].state.USED?
    ensures procs'[ForkOf(procs'[q].pc).np].parent == if ForkOf(procs'[q].pc).Linking? then -1 else q
  {
    LinkPcs(np);
    hide ForkOf, Resuming;
    if q != p && Forks(procs[q].pc) {
      ForksApart(procs, p, q);
    }
  }

  lemma LinkPcs(np: nat)
    ensures ForkOf(ForkStart(np)) == Starting(np) && ForkOf(ForkLink(np)) == Linking(np)
  {}

  lemma LinkedApart(procs: seq<Process>, p: nat, np: nat, procs': seq<Process>, q: nat, r: nat)
    requires ForksOk(procs) && p < |procs| && procs[p].pc == ForkLink(np) && np < |procs| && np != p
    requires procs' == procs[np := procs[np].(parent := p)][p := procs[p].(pc := ForkStart(np))]
    requires q < r < |procs| && Forks(procs'[q].pc)
    ensures !Forking(procs'[r].pc, ForkOf(procs'[q].pc).np)
  {
    LinkPcs(np);
    hide ForkOf, Resuming;
    if Forks(procs'[r].pc) {
      ForksApart(procs, q, r);
    }
  }

  lemma ForksApart(procs: seq<Process>, p: nat, q: nat)
    requires ForksOk(procs) && p < |procs| && q < |procs| && p != q && Forks(procs[p].pc) && Forks(procs[q].pc)
    ensures ForkOf(procs[p].pc).np != ForkOf(procs[q].pc).np
  {
    hide ForkOf;
    var a, b := if p < q then p else q, if p < q then q else p;
    assert !Forking(procs[b].pc, ForkOf(procs[a].pc).np);
  }

  lemma ForkParentPlaces(s: Sys, p: nat, np: nat, y: Process, x: Process)
    requires Inv(s) && p < |s.procs| && np < |s.procs| && p != np && s.procs[np].state.USED?
    requires s.procs[p].pc == ForkLink(np) && y == s.procs[np].(parent := p) && x == s.procs[p].(pc := ForkStart(np))
    requires LocalOk(y, np, s.init) && LocalOk(x, p, s.init)
    ensures LocalsOk(s.procs[np := y][p := x], s.init) && PlacesOk(s.procs[np := y][p := x], s.cpus)
    ensures WaitLockOk(s.procs[np := y][p := x], s.waiter)
  {
    hide PlacesOk, ForksOk, ParentsOk, ReparentOk, WakeupsOk, ProgressOk, LocalsOk, LocalOk;
    var mid := s.procs[np := y];
    SetLocal(s.procs, s.init, np, y);
    SetLocal(mid, s.init, p, x);
    SetPlaces(s.procs, s.cpus, np, y);
    SetPlaces(mid, s.cpus, p, x);
    SetWaitLock(s.procs, s.waiter, np, y, s.waiter);
    SetWaitLock(mid, s.waiter, p, x, s.waiter);
  }

  lemma ForkParentFacts(s: Sys, c: nat, p: nat, np: nat)
    requires c < |s.cpus| && s.cpus[c] == On(p) && p < |s.procs| && np < |s.procs| && s.procs[p].pc == ForkLink(np)
    requires Inv(s) && Enabled(s, ForkParent(c))
    ensures p != np && s.procs[np].state.USED? && Alive(s.procs[p].state)
    ensures LocalOk(s.procs[np].(parent := p), np, s.init) && LocalOk(s.procs[p].(pc := ForkStart(np)), p, s.init)
  {
    hide PlacesOk, ParentsOk, ReparentOk, WakeupsOk, ProgressOk, WaitLockOk;
    OnCpu(s, c);
    assert s.procs[np].state.USED?;
    assert LocalOk(s.procs[np], np, s.init);
  }

  lemma KeepsForkParent(s: Sys, c: nat)
    requires Inv(s) && Enabled(s, ForkParent(c))
    ensures Inv(Apply(s, ForkParent(c)))
  {
    hide PlacesOk, ForksOk, ParentsOk, ReparentOk, WakeupsOk, LocalsOk, WaitLockOk, LocalOk;
    var p, np := s.cpus[c].p, PcOf(s, c).np;
    ForkParentFacts(s, c, p, np);
    var y := s.procs[np].(parent := p);
    var mid := s.procs[np := y];
    var x := s.procs[p].(pc := ForkStart(np));
    ForkParentPlaces(s, p, np, y, x);
    ForkLinks(s.procs, p, np);
    AdoptParents(s.procs, s.init, p, np);
    SetParents(mid, s.init, p, x);
    AdoptReparent(s.procs, p, np);
    SetReparent(mid, p, x);
    AdoptNewborn(s.procs, s.waiter, s.init, p, np);
    SetWakeups(mid, s.waiter, s.init, p, x);
  }

  /** A child that fork() is done with becomes RUNNABLE. */
  lemma KeepsLaunch(s: Sys, np: nat)
    requires Inv(s) && np < |s.procs| && s.procs[np].state.USED? && s.procs[np].parent >= 0
    requires NobodyForks(s.procs, np)
    ensures Inv(SetProc(s, np, s.procs[np].(state := RUNNABLE)))
  {
    assert LocalOk(s.procs[np], np, s.init);
    hide PlacesOk, ForksOk, ParentsOk, ReparentOk, WakeupsOk, ProgressOk, LocalsOk, NobodyForks;
    var x := s.procs[np].(state := RUNNABLE);
    SetLocal(s.procs, s.init, np, x);
    SetPlaces(s.procs, s.cpus, np, x);
    SetWaitLock(s.procs, s.waiter, np, x, s.waiter);
    SetForks(s.procs, np, x);
    SetParents(s.procs, s.init, np, x);
    SetReparent(s.procs, np, x);
    SetWakeups(s.procs, s.waiter, s.init, np, x);
    SetProgress(s.procs, s.waiter, s.init, np, x);
  }

  lemma ForkEnds(procs: seq<Process>, p: nat, np: nat)
    requires ForksOk(procs) && p < |procs| && procs[p].pc == ForkStart(np)
    ensures np < |procs| && procs[np].state.USED? && procs[np].parent == p
    ensures NobodyForks(procs[p := procs[p].(pc := Run)], np)
  {}

  lemma KeepsForkRun(s: Sys, c: nat)
    requires Inv(s) && Enabled(s, ForkRun(c))
    ensures Inv(Apply(s, ForkRun(c)))
  {
    hide PlacesOk, ParentsOk, ReparentOk, WakeupsOk, ProgressOk, WaitLockOk, ForksOk, NobodyForks;
    OnCpu(s, c);
    var p, np := s.cpus[c].p, PcOf(s, c).np;
    ForkEnds(s.procs, p, np);
    hide LocalsOk;
    KeepsStill(s, p, s.procs[p].(pc := Run));
    var t := SetPc(s, p, Run);
    KeepsLaunch(t, np);
    assert Apply(s, ForkRun(c)).procs == SetProc(t, np, t.procs[np].(state := RUNNABLE)).procs;
  }

  // ----- steps of the holder of wait_lock -----

  /** No sleeping parent has an exited child. */
  ghost predicate NoneLost(procs: seq<Process>) {
    forall p: nat, c: nat | ZombieChild(procs, p, c) :: !AwaitsChild(procs[p])
  }

  lemma NotPending(procs: seq<Process>, waiter: int, init: nat)
    requires WakeupsOk(procs, waiter, init) && !WakeupPending(procs, waiter, init)
    ensures NoneLost(procs)
  {}

  lemma SetNoneLost(procs: seq<Process>, p: nat, x: Process)
    requires NoneLost(procs) && p < |procs| && x.parent == procs[p].parent
    requires x.state.ZOMBIE? == procs[p].state.ZOMBIE?
    requires AwaitsChild(x) ==> AwaitsChild(procs[p]) || forall c: nat :: !ZombieChild(procs, p, c)
    ensures NoneLost(procs[p := x])
  {
    var qs := procs[p := x];
    forall q: nat, c: nat | ZombieChild(qs, q, c) ensures !AwaitsChild(qs[q]) {
      assert ZombieChild(procs, q, c);
    }
  }

  /** A change of the acting process alone that takes, keeps or drops wait_lock. What its new program
      point claims is left to the caller. */
  lemma KeepsHolder(s: Sys, p: nat, x: Process, after: int)
    requires Inv(s) && p < |s.procs| && LocalOk(x, p, s.init)
    requires s.waiter in {-1, p as int} && after == (if HoldsWaitLock(x.pc) then p else -1)
    requires x.parent == s.procs[p].parent && x.cpu == s.procs[p].cpu
    requires x.pc.Parked? == s.procs[p].pc.Parked? && !Forks(x.pc) && x.state == s.procs[p].state
    requires !WakeupPending(s.procs, s.waiter, s.init)
    requires AwaitsChild(x) ==> AwaitsChild(s.procs[p]) || forall c: nat :: !ZombieChild(s.procs, p, c)
    requires ReparentOk(s.procs[p := x]) && ProgressOk(s.procs[p := x], after, s.init)
    ensures Inv(SetProc(s, p, x).(waiter := after))
  {
    hide PlacesOk, ForksOk, ParentsOk, ReparentOk, ProgressOk, LocalsOk, LocalOk, WakeupPending;
    SetLocal(s.procs, s.init, p, x);
    SetPlaces(s.procs, s.cpus, p, x);
    SetWaitLock(s.procs, s.waiter, p, x, after);
    SetForks(s.procs, p, x);
    SetParents(s.procs, s.init, p, x);
    NotPending(s.procs, s.waiter, s.init);
    SetNoneLost(s.procs, p, x);
    assert WakeupsOk(s.procs[p := x], after, s.init);
  }

  lemma KeepsAcquire(s: Sys, c: nat, pc: Pc)
    requires Inv(s) && Running(s, c) && s.waiter == -1 && (PcOf(s, c).Run? || PcOf(s, c).WaitAgain?)
    requires pc == WaitScan(0, false) || (pc == Reparent(0) && s.cpus[c].p != s.init)
    ensures Inv(SetPc(s, s.cpus[c].p, pc).(waiter := s.cpus[c].p))
  {
    hide PlacesOk, ForksOk, ParentsOk, ReparentOk, WakeupsOk, LocalsOk, WaitLockOk;
    OnCpu(s, c);
    var p := s.cpus[c].p;
    var x := s.procs[p].(pc := pc);
    SetReparent(s.procs, p, x);
    KeepsHolder(s, p, x, p);
  }

  /** The acting process at a point that holds wait_lock is the holder. */
  lemma IsHolder(s: Sys, c: nat)
    requires Inv(s) && Running(s, c) && HoldsWaitLock(PcOf(s, c))
    ensures s.waiter == s.cpus[c].p
  {
    hide PlacesOk, ForksOk, ParentsOk, ReparentOk, WakeupsOk, ProgressOk;
  }

  lemma KeepsRelease(s: Sys, c: nat, x: Process)
    requires Inv(s) && Running(s, c) && !PcOf(s, c).ReparentWake? && HoldsWaitLock(PcOf(s, c))
    requires var p := s.cpus[c].p; LocalOk(x, p, s.init) && x == s.procs[p].(pc := x.pc)
    requires x.pc.Run? || (PcOf(s, c).ExitZombie? && x.pc == Sched(Never)) || (PcOf(s, c).WaitLocked? && x.pc.Falling?)
    ensures Inv(SetProc(s, s.cpus[c].p, x).(waiter := -1))
  {
    hide PlacesOk, ForksOk, ParentsOk, ReparentOk, WakeupsOk, LocalsOk, WaitLockOk;
    OnCpu(s, c);
    IsHolder(s, c);
    SetReparent(s.procs, s.cpus[c].p, x);
    KeepsHolder(s, s.cpus[c].p, x, -1);
  }

  // ----- wait -----

  lemma ScanProgress(procs: seq<Process>, init: nat, p: nat, i: nat, kids: bool)
    requires ProgressOk(procs, p, init) && p < |procs| && procs[p].pc.WaitScan? && procs[p].pc.i == i
    requires !ZombieChild(procs, p, i)
    ensures ProgressOk(procs[p := procs[p].(pc := WaitScan(i + 1, kids))], p, init)
  {
    var qs := procs[p := procs[p].(pc := WaitScan(i + 1, kids))];
    forall k: nat | k < i + 1 ensures !ZombieChild(qs, p, k) {
      assert !ZombieChild(procs, p, k);
    }
  }

  lemma KeepsScanOn(s: Sys, c: nat, kids: bool)
    requires Inv(s) && Running(s, c) && PcOf(s, c).WaitScan? && !ZombieChild(s.procs, s.cpus[c].p, PcOf(s, c).i)
    ensures Inv(SetPc(s, s.cpus[c].p, WaitScan(PcOf(s, c).i + 1, kids)))
  {
    hide PlacesOk, ForksOk, ParentsOk, ReparentOk, WakeupsOk, LocalsOk, WaitLockOk, ProgressOk, ZombieChild;
    OnCpu(s, c);
    IsHolder(s, c);
    var p, i := s.cpus[c].p, PcOf(s, c).i;
    var x := s.procs[p].(pc := WaitScan(i + 1, kids));
    ScanProgress(s.procs, s.init, p, i, kids);
    SetReparent(s.procs, p, x);
    KeepsHolder(s, p, x, p);
  }

  lemma ScanDone(procs: seq<Process>, init: nat, p: nat)
    requires ProgressOk(procs, p, init) && p < |procs| && procs[p].pc.WaitScan? && procs[p].pc.i == |procs|
    ensures forall k: nat :: !ZombieChild(procs, p, k)
  {}

  lemma KeepsDoze(s: Sys, c: nat, p: nat)
    requires c < |s.cpus| && s.cpus[c] == On(p) && p < |s.procs| && Inv(s) && Enabled(s, WaitEnd(c))
    ensures Inv(SetProc(s, p, s.procs[p].(locked := true, pc := WaitLocked)))
  {
    hide PlacesOk, ForksOk, ParentsOk, ReparentOk, WakeupsOk, LocalsOk, WaitLockOk, ZombieChild;
    OnCpu(s, c);
    IsHolder(s, c);
    var x := s.procs[p].(locked := true, pc := WaitLocked);
    ScanDone(s.procs, s.init, p);
    SetReparent(s.procs, p, x);
    KeepsHolder(s, p, x, p);
  }

  lemma KeepsWaitEnd(s: Sys, c: nat)
    requires Inv(s) && Enabled(s, WaitEnd(c))
    ensures Inv(Apply(s, WaitEnd(c)))
  {
    hide Inv;
    OnCpu(s, c);
    var p := s.cpus[c].p;
    if !PcOf(s, c).kids || s.procs[p].killed {
      KeepsRelease(s, c, s.procs[p].(pc := Run));
    } else {
      KeepsDoze(s, c, p);
    }
  }

  // Freeing an exited child, seen by each part of the invariant.

  lemma FreeForks(procs: seq<Process>, i: nat)
    requires ForksOk(procs) && i < |procs| && procs[i].state.ZOMBIE?
    ensures ForksOk(procs[i := FREE_SLOT])
  {
    assert !Forks(FREE_SLOT.pc);
    hide ForkOf, Resuming;
  }

  lemma FreeParents(procs: seq<Process>, init: nat, i: nat)
    requires ParentsOk(procs, init) && i < |procs| && procs[i].state.ZOMBIE?
    ensures ParentsOk(procs[i := FREE_SLOT], init)
  {}

  lemma FreeReparent(procs: seq<Process>, i: nat)
    requires ReparentOk(procs) && i < |procs|
    ensures ReparentOk(procs[i := FREE_SLOT])
  {}

  lemma FreeWakeups(procs: seq<Process>, waiter: int, init: nat, i: nat)
    requires WakeupsOk(procs, waiter, init) && i < |procs| && i != waiter
    ensures WakeupsOk(procs[i := FREE_SLOT], waiter, init)
  {
    var qs := procs[i := FREE_SLOT];
    forall q: nat, c: nat | ZombieChild(qs, q, c) && AwaitsChild(qs[q])
      ensures q == init && WakeupPending(qs, waiter, init)
    {
      assert ZombieChild(procs, q, c) && AwaitsChild(procs[q]);
    }
  }

  lemma FreeProgress(procs: seq<Process>, waiter: int, init: nat, i: nat)
    requires ProgressOk(procs, waiter, init) && i < |procs| && i != waiter
    ensures ProgressOk(procs[i := FREE_SLOT], waiter, init)
  {
    var qs := procs[i := FREE_SLOT];
    if 0 <= waiter < |procs| && procs[waiter].pc.WaitScan? {
      forall c: nat | c < procs[waiter].pc.i ensures !ZombieChild(qs, waiter, c) {
        assert !ZombieChild(procs, waiter, c);
      }
    }
  }

  /** freeproc() of an exited child whose lock is free: it is on no CPU. */
  lemma KeepsFree(s: Sys, i: nat)
    requires Inv(s) && Unlocked(s, i) && s.procs[i].state.ZOMBIE? && s.waiter != i
    ensures s.procs[i].cpu == -1
    ensures Inv(SetProc(s, i, FREE_SLOT))
  {
    assert LocalOk(s.procs[i], i, s.init);
    hide PlacesOk, ForksOk, ParentsOk, ReparentOk, WakeupsOk, ProgressOk, LocalsOk;
    SetLocal(s.procs, s.init, i, FREE_SLOT);
    SetPlaces(s.procs, s.cpus, i, FREE_SLOT);
    SetWaitLock(s.procs, s.waiter, i, FREE_SLOT, s.waiter);
    FreeForks(s.procs, i);
    FreeParents(s.procs, s.init, i);
    FreeReparent(s.procs, i);
    FreeWakeups(s.procs, s.waiter, s.init, i);
    FreeProgress(s.procs, s.waiter, s.init, i);
  }

  lemma KeepsWaitLook(s: Sys, c: nat, fault: bool)
    requires Inv(s) && Enabled(s, WaitLook(c, fault))
    ensures Inv(Apply(s, WaitLook(c, fault)))
  {
    hide Inv;
    OnCpu(s, c);
    IsHolder(s, c);
    var p, i := s.cpus[c].p, PcOf(s, c).i;
    if s.procs[i].parent != p {
      KeepsScanOn(s, c, PcOf(s, c).kids);
    } else if !s.procs[i].state.ZOMBIE? {
      KeepsScanOn(s, c, true);
    } else if fault {
      KeepsRelease(s, c, s.procs[p].(pc := Run));
    } else {
      KeepsFree(s, i);
      var t := SetProc(s, i, FREE_SLOT);
      KeepsRelease(t, c, t.procs[p].(pc := Run));
    }
  }

  // ----- exit -----

  lemma ReparentMore(procs: seq<Process>, p: nat, pc: Pc)
    requires ReparentOk(procs) && p < |procs|
    requires match procs[p].pc {
        case Reparent(i) =>
          if i >= |procs| then pc == ExitWake(0) else procs[i].parent != p && pc == Reparent(i + 1)
        case ReparentWake(i, _) => pc == Reparent(i + 1)
        case _ => false
      }
    ensures ReparentOk(procs[p := procs[p].(pc := pc)])
  {
    var qs := procs[p := procs[p].(pc := pc)];
    forall q, c | 0 <= q < |qs| && 0 <= c < |qs| && Abandoned(qs[q].pc, c) ensures qs[c].parent != q {
      assert qs[c].parent == procs[c].parent;
      assert Abandoned(procs[q].pc, c) || (q == p && procs[p].pc.Reparent? && c == procs[p].pc.i);
    }
  }

  lemma KeepsReparentOn(s: Sys, c: nat)
    requires Inv(s) && Running(s, c)
    requires match PcOf(s, c) {
        case Reparent(i) => i < |s.procs| ==> s.procs[i].parent != s.cpus[c].p
        case ReparentWake(_, j) => j >= |s.procs|
        case _ => false
      }
    ensures var pc := PcOf(s, c);
      var n := if pc.Reparent? && pc.i >= |s.procs| then ExitWake(0) else Reparent(pc.i + 1);
            Inv(SetPc(s, s.cpus[c].p, n))
  {
    hide PlacesOk, ForksOk, ParentsOk, ReparentOk, WakeupsOk, LocalsOk, WaitLockOk;
    OnCpu(s, c);
    IsHolder(s, c);
    InitInRange(s);
    var p, pc := s.cpus[c].p, PcOf(s, c);
    var n := if pc.Reparent? && pc.i >= |s.procs| then ExitWake(0) else Reparent(pc.i + 1);
    ReparentMore(s.procs, p, n);
    KeepsHolder(s, p, s.procs[p].(pc := n), p);
  }

  lemma InitInRange(s: Sys)
    requires Inv(s)
    ensures s.init < |s.procs| && LocalOk(s.procs[s.init], s.init, s.init)
  {
    hide PlacesOk, ForksOk, ParentsOk, ReparentOk, WakeupsOk, ProgressOk, WaitLockOk;
  }

  lemma GiveReparent(procs: seq<Process>, p: nat, i: nat, init: nat)
    requires ReparentOk(procs) && p < |procs| && i < |procs| && p != i && init < |procs| && init != p
    requires procs[p].pc == Reparent(i) && !Exiting(procs[init].pc)
    ensures ReparentOk(procs[i := procs[i].(parent := init)][p := procs[p].(pc := ReparentWake(i, 0))])
  {}

  lemma GiveWakeups(procs: seq<Process>, p: nat, i: nat, init: nat)
    requires NoneLost(procs) && p < |procs| && i < |procs| && p != i && init < |procs|
    ensures WakeupsOk(procs[i := procs[i].(parent := init)][p := procs[p].(pc := ReparentWake(i, 0))], p, init)
  {
    var qs := procs[i := procs[i].(parent := init)][p := procs[p].(pc := ReparentWake(i, 0))];
    forall q: nat, c: nat | ZombieChild(qs, q, c) && AwaitsChild(qs[q])
      ensures q == init && WakeupPending(qs, p, init)
    {
      if c != i {
        assert ZombieChild(procs, q, c);
      }
    }
  }

  lemma ChildNotForked(procs: seq<Process>, p: nat, i: nat)
    requires ForksOk(procs) && p < |procs| && i < |procs| && procs[i].parent == p && !Forks(procs[p].pc)
    ensures NobodyForks(procs, i)
  {}

  lemma ChildFacts(s: Sys, p: nat, i: nat)
    requires Inv(s) && p < |s.procs| && i < |s.procs| && s.procs[i].parent == p && Exiting(s.procs[p].pc)
    ensures i != p && i != s.init && p != s.init && s.init < |s.procs|
    ensures LocalOk(s.procs[i], i, s.init) && !s.procs[i].state.UNUSED?
    ensures Alive(s.procs[s.init].state) && !Exiting(s.procs[s.init].pc)
  {
    hide PlacesOk, ForksOk, ReparentOk, WakeupsOk, ProgressOk, WaitLockOk;
    assert LocalOk(s.procs[i], i, s.init) && LocalOk(s.procs[p], p, s.init);
    assert LocalOk(s.procs[s.init], s.init, s.init);
  }

  /** reparent() hands slot i to init. */
  lemma KeepsGive(s: Sys, c: nat, p: nat, i: nat)
    requires Inv(s) && Running(s, c) && p == s.cpus[c].p && PcOf(s, c) == Reparent(i) && i < |s.procs|
    requires s.procs[i].parent == p
    ensures Inv(s.(procs := s.procs[i := s.procs[i].(parent := s.init)][p := s.procs[p].(pc := ReparentWake(i, 0))]))
  {
    hide PlacesOk, ForksOk, ParentsOk, ReparentOk, WakeupsOk, LocalsOk, NobodyForks, WaitLockOk;
    OnCpu(s, c);
    IsHolder(s, c);
    ChildFacts(s, p, i);
    ChildNotForked(s.procs, p, i);
    var y := s.procs[i].(parent := s.init);
    var mid := s.procs[i := y];
    var x := s.procs[p].(pc := ReparentWake(i, 0));
    SetLocal(s.procs, s.init, i, y);
    SetLocal(mid, s.init, p, x);
    SetPlaces(s.procs, s.cpus, i, y);
    SetPlaces(mid, s.cpus, p, x);
    HoldsUnchanged(s.procs, s.waiter, i, p);
    SetWaitLock(s.procs, s.waiter, i, y, s.waiter);
    SetWaitLock(mid, s.waiter, p, x, s.waiter);
    SetForks(s.procs, i, y);
    SetForks(mid, p, x);
    AdoptParents(s.procs, s.init, s.init, i);
    SetParents(mid, s.init, p, x);
    GiveReparent(s.procs, p, i, s.init);
    NotPending(s.procs, s.waiter, s.init);
    GiveWakeups(s.procs, p, i, s.init);
  }

  lemma HoldsUnchanged(procs: seq<Process>, waiter: int, i: nat, p: nat)
    requires WaitLockOk(procs, waiter) && i < |procs| && waiter == p != i
    ensures !HoldsWaitLock(procs[i].pc)
  {}

  /** A slot that wakeup() has been over does not wait for a child. */
  lemma Awake(s: Sys, j: nat)
    requires Inv(s) && Unlocked(s, j)
    ensures !AwaitsChild(WakeSlot(s, j, Slot(j)).procs[j])
  {
    hide PlacesOk, ForksOk, ParentsOk, ReparentOk, WakeupsOk, ProgressOk, WaitLockOk;
    assert LocalOk(s.procs[j], j, s.init);
  }

  lemma KeepsWakeSlot(s: Sys, j: nat, chan: Chan)
    requires Inv(s) && j < |s.procs|
    ensures Inv(WakeSlot(s, j, chan))
  {
    hide PlacesOk, ForksOk, ParentsOk, ReparentOk, WakeupsOk, ProgressOk, WaitLockOk;
    if s.procs[j].state.SLEEPING? && s.procs[j].chan == chan {
      assert LocalOk(s.procs[j], j, s.init);
      KeepsOutside(s, j, s.procs[j].(state := RUNNABLE));
    }
  }

  lemma PassWakeups(procs: seq<Process>, init: nat, p: nat, i: nat, j: nat)
    requires WakeupsOk(procs, p, init) && p < |procs| && init < |procs| && procs[p].pc == ReparentWake(i, j)
    requires j == init ==> !AwaitsChild(procs[init])
    ensures WakeupsOk(procs[p := procs[p].(pc := ReparentWake(i, j + 1))], p, init)
  {
    var qs := procs[p := procs[p].(pc := ReparentWake(i, j + 1))];
    forall q: nat, c: nat | ZombieChild(qs, q, c) && AwaitsChild(qs[q])
      ensures q == init && WakeupPending(qs, p, init)
    {
      assert ZombieChild(procs, q, c) && AwaitsChild(procs[q]);
    }
  }

  /** wakeup(init) in reparent() moves past slot j. */
  lemma KeepsPassInit(s: Sys, c: nat, p: nat, i: nat, j: nat)
    requires Inv(s) && Running(s, c) && p == s.cpus[c].p && PcOf(s, c) == ReparentWake(i, j)
    requires j == s.init ==> s.init < |s.procs| && !AwaitsChild(s.procs[s.init])
    ensures Inv(SetPc(s, p, ReparentWake(i, j + 1)))
  {
    hide PlacesOk, ForksOk, ParentsOk, ReparentOk, WakeupsOk, LocalsOk, WaitLockOk;
    OnCpu(s, c);
    IsHolder(s, c);
    InitInRange(s);
    var x := s.procs[p].(pc := ReparentWake(i, j + 1));
    SetLocal(s.procs, s.init, p, x);
    SetPlaces(s.procs, s.cpus, p, x);
    SetWaitLock(s.procs, s.waiter, p, x, s.waiter);
    SetForks(s.procs, p, x);
    SetParents(s.procs, s.init, p, x);
    SetReparent(s.procs, p, x);
    PassWakeups(s.procs, s.init, p, i, j);
  }

  /** wakeup(p->parent) moves past slot j. */
  lemma KeepsPassParent(s: Sys, c: nat, p: nat, j: nat)
    requires Inv(s) && Running(s, c) && p == s.cpus[c].p && PcOf(s, c) == ExitWake(j)
    requires j == s.procs[p].parent ==> j < |s.procs| && !AwaitsChild(s.procs[j])
    ensures Inv(SetPc(s, p, ExitWake(j + 1)))
  {
    hide PlacesOk, ForksOk, ParentsOk, ReparentOk, WakeupsOk, LocalsOk, WaitLockOk;
    OnCpu(s, c);
    IsHolder(s, c);
    var x := s.procs[p].(pc := ExitWake(j + 1));
    SetReparent(s.procs, p, x);
    KeepsHolder(s, p, x, p);
  }

  lemma OwnParent(s: Sys, p: nat)
    requires Inv(s) && p < |s.procs|
    ensures -1 <= s.procs[p].parent < |s.procs| && s.procs[p].parent != p
  {
    hide PlacesOk, ForksOk, LocalsOk, ReparentOk, WakeupsOk, ProgressOk, WaitLockOk;
  }

  lemma KeepsExitWakeup(s: Sys, c: nat)
    requires Inv(s) && Enabled(s, ExitWakeup(c))
    ensures Inv(Apply(s, ExitWakeup(c)))
  {
    hide Inv;
    OnCpu(s, c);
    var p := s.cpus[c].p;
    OwnParent(s, p);
    InitInRange(s);
    match PcOf(s, c)
    case ReparentWake(i, j) =>
      if j >= |s.procs| {
        KeepsReparentOn(s, c);
      } else if j == p {
        KeepsPassInit(s, c, p, i, j);
      } else {
        KeepsWakeSlot(s, j, Slot(s.init));
        if j == s.init { Awake(s, j); }
        KeepsPassInit(WakeSlot(s, j, Slot(s.init)), c, p, i, j);
      }
    case ExitWake(j) =>
      var par := s.procs[p].parent;
      if j == p || par < 0 {
        KeepsPassParent(s, c, p, j);
      } else {
        KeepsWakeSlot(s, j, Slot(par));
        if j == par { Awake(s, j); }
        KeepsPassParent(WakeSlot(s, j, Slot(par)), c, p, j);
      }
  }

  lemma KeepsExitReparent(s: Sys, c: nat)
    requires Inv(s) && Enabled(s, ExitReparent(c))
    ensures Inv(Apply(s, ExitReparent(c)))
  {
    hide LocalsOk, PlacesOk, WaitLockOk, ForksOk, ParentsOk, ReparentOk, WakeupsOk, ProgressOk;
    var p, i := s.cpus[c].p, PcOf(s, c).i;
    if i < |s.procs| && s.procs[i].parent == p {
      ChildIsOther(s, p, i);
      KeepsGive(s, c, p, i);
    } else {
      KeepsReparentOn(s, c);
    }
  }

  lemma ChildIsOther(s: Sys, p: nat, i: nat)
    requires Inv(s) && p < |s.procs| && i < |s.procs| && s.procs[i].parent == p
    ensures i != p
  {
    hide PlacesOk, ForksOk, LocalsOk, ReparentOk, WakeupsOk, ProgressOk, WaitLockOk;
  }

  lemma KeepsExitLock(s: Sys, c: nat)
    requires Inv(s) && Enabled(s, ExitLock(c))
    ensures Inv(Apply(s, ExitLock(c)))
  {
    hide PlacesOk, ForksOk, ParentsOk, ReparentOk, WakeupsOk, LocalsOk, WaitLockOk;
    OnCpu(s, c);
    IsHolder(s, c);
    var p := s.cpus[c].p;
    OwnParent(s, p);
    var x := s.procs[p].(locked := true, pc := ExitLocked);
    SetReparent(s.procs, p, x);
    KeepsHolder(s, p, x, p);
  }

  // Dying, seen by the parts of the invariant that look at states.

  lemma DieParents(procs: seq<Process>, init: nat, p: nat, x: Process)
    requires ParentsOk(procs, init) && ReparentOk(procs) && p < |procs| && p != init
    requires procs[p].pc.ExitLocked? && x.state.ZOMBIE? && x.parent == procs[p].parent && Alive(procs[p].state)
    ensures ParentsOk(procs[p := x], init)
  {
    var qs := procs[p := x];
    forall c | 0 <= c < |qs| ensures qs[c].parent != p && qs[c].parent == procs[c].parent {
      assert Abandoned(procs[p].pc, c);
    }
  }

  lemma DieWakeups(procs: seq<Process>, init: nat, p: nat, x: Process)
    requires NoneLost(procs) && p < |procs| && x.parent == procs[p].parent && -1 <= x.parent < |procs|
    requires x.parent >= 0 ==> !AwaitsChild(procs[x.parent])
    requires x.state.ZOMBIE? && x.pc.ExitZombie?
    ensures WakeupsOk(procs[p := x], p, init)
  {
    var qs := procs[p := x];
    forall q: nat, c: nat | ZombieChild(qs, q, c) ensures !AwaitsChild(qs[q]) {
      if c != p {
        assert ZombieChild(procs, q, c);
      }
    }
  }

  lemma KeepsExitDie(s: Sys, c: nat)
    requires Inv(s) && Enabled(s, ExitDie(c))
    ensures Inv(Apply(s, ExitDie(c)))
  {
    hide PlacesOk, ForksOk, ParentsOk, ReparentOk, WakeupsOk, LocalsOk, WaitLockOk;
    OnCpu(s, c);
    IsHolder(s, c);
    var p := s.cpus[c].p;
    OwnParent(s, p);
    InitInRange(s);
    var x := s.procs[p].(state := ZOMBIE, pc := ExitZombie);
    SetLocal(s.procs, s.init, p, x);
    SetPlaces(s.procs, s.cpus, p, x);
    SetWaitLock(s.procs, s.waiter, p, x, s.waiter);
    SetForks(s.procs, p, x);
    DieParents(s.procs, s.init, p, x);
    SetReparent(s.procs, p, x);
    NotPending(s.procs, s.waiter, s.init);
    DieWakeups(s.procs, s.init, p, x);
  }

  lemma KeepsLetGo(s: Sys, a: Action)
    requires Inv(s) && Enabled(s, a) && (a.ExitRelease? || a.WaitLet?)
    ensures Inv(Apply(s, a))
  {
    hide Inv;
    OnCpu(s, a.c);
    KeepsRelease(s, a.c, Apply(s, a).procs[s.cpus[a.c].p]);
  }

  lemma KeepsTake(s: Sys, a: Action)
    requires Inv(s) && Enabled(s, a) && (a.ExitBegin? || a.WaitBegin? || (a.Wake? && PcOf(s, a.c).WaitAgain?))
    ensures Inv(Apply(s, a))
  {
    hide Inv;
    KeepsAcquire(s, a.c, if a.ExitBegin? then Reparent(0) else WaitScan(0, false));
  }

  lemma KeepsInv(s: Sys, a: Action)
    requires Inv(s) && Enabled(s, a)
    ensures Inv(Apply(s, a))
  {
    hide Inv, Apply;
    match a
    case Dispatch(c, p) => KeepsDispatch(s, c, p);
    case Retire(c) => KeepsRetire(s, c);
    case Switch(c) => KeepsSwitch(s, c);
    case Wake(c) => if PcOf(s, c).WaitAgain? { KeepsTake(s, a); } else { KeepsSleepSteps(s, a); }
    case Yield(_) | Nap(_, _) | Fall(_) => KeepsSleepSteps(s, a);
    case ForkAlloc(c, np) => KeepsForkAlloc(s, c, np);
    case ForkParent(c) => KeepsForkParent(s, c);
    case ForkRun(c) => KeepsForkRun(s, c);
    case ExitReparent(c) => KeepsExitReparent(s, c);
    case ExitWakeup(c) => KeepsExitWakeup(s, c);
    case ExitLock(c) => KeepsExitLock(s, c);
    case ExitDie(c) => KeepsExitDie(s, c);
    case ExitBegin(_) | WaitBegin(_) => KeepsTake(s, a);
    case ExitRelease(_) | WaitLet(_) => KeepsLetGo(s, a);
    case WaitLook(c, fault) => KeepsWaitLook(s, c, fault);
    case WaitEnd(c) => KeepsWaitEnd(s, c);
    case Kill(_) | WakeOther(_, _) => KeepsFromOutside(s, a);
  }

  // ----- every run -----

  lemma InitInv(s: Sys)
    requires Init(s)
    ensures Inv(s)
  {
    InitFamily(s);
    InitWakeups(s);
    hide ForksOk, ParentsOk, ReparentOk, WakeupsOk, ProgressOk;
  }

  lemma InitFamily(s: Sys)
    requires Init(s)
    ensures ForksOk(s.procs) && ParentsOk(s.procs, s.init) && ReparentOk(s.procs)
  {
    forall p | 0 <= p < |s.procs| ensures !Forks(s.procs[p].pc) && s.procs[p].parent == -1 {}
    hide ForkOf;
  }

  lemma InitWakeups(s: Sys)
    requires Init(s)
    ensures WakeupsOk(s.procs, s.waiter, s.init) && ProgressOk(s.procs, s.waiter, s.init)
  {
    forall p | 0 <= p < |s.procs| ensures s.procs[p].parent == -1 {}
    hide ForkOf;
  }

  lemma {:induction false} RunInv(run: seq<Sys>, i: nat)
    requires IsRun(run) && i < |run|
    ensures Inv(run[i])
  {
    hide Inv, Enabled, Apply, Init;
    if i == 0 {
      InitInv(run[0]);
    } else {
      RunInv(run, i - 1);
      assert Next(run[i - 1], run[i]);
      var a :| Enabled(run[i - 1], a) && Apply(run[i - 1], a) == run[i];
      KeepsInv(run[i - 1], a);
    }
  }

  /** In every interleaving: while wait_lock is free, no process that sleeps in wait() has an exited child. */
  lemma NoLostWakeup(run: seq<Sys>, i: nat, p: nat, c: nat)
    requires IsRun(run) && i < |run| && run[i].waiter == -1
    requires p < |run[i].procs| && run[i].procs[p].state.SLEEPING? && run[i].procs[p].chan == Slot(p)
    requires c < |run[i].procs| && run[i].procs[c].parent == p
    ensures !run[i].procs[c].state.ZOMBIE?
  {
    hide IsRun, PlacesOk, ForksOk, ParentsOk, ReparentOk, ProgressOk;
    RunInv(run, i);
    assert LocalOk(run[i].procs[p], p, run[i].init);
    assert ZombieChild(run[i].procs, p, c) ==> !AwaitsChild(run[i].procs[p]);
  }

  /** In every interleaving and at every moment: a parent pointer names a process that has not exited, and
      a process that has started has one, unless it is init. */
  lemma ParentsAlive(run: seq<Sys>, i: nat, c: nat)
    requires IsRun(run) && i < |run| && c < |run[i].procs|
    ensures var ps := run[i].procs;
      && (ps[c].parent >= 0 ==> ps[c].parent < |ps| && Alive(ps[ps[c].parent].state))
      && (Alive(ps[c].state) || ps[c].state.ZOMBIE? ==> (ps[c].parent >= 0 <==> c != run[i].init))
  {
    hide IsRun, PlacesOk, ForksOk, ReparentOk, ProgressOk, WakeupsOk, WaitLockOk;
    RunInv(run, i);
    assert LocalOk(run[i].procs[c], c, run[i].init);
  }

  /** c->proc == p. */
  predicate CpuHas(s: Sys, c: nat, p: nat) {
    c < |s.cpus| && !s.cpus[c].Idle? && s.cpus[c].p == p
  }

  /** In every interleaving and at every moment: a RUNNING process is on exactly one CPU; no process is on
      two; and a process on a CPU is RUNNING unless its lock is held. */
  lemma RunningOnOneCpu(run: seq<Sys>, i: nat, p: nat)
    requires IsRun(run) && i < |run| && p < |run[i].procs|
    ensures run[i].procs[p].state.RUNNING? ==> exists c :: CpuHas(run[i], c, p)
    ensures forall c, d | CpuHas(run[i], c, p) && CpuHas(run[i], d, p) :: c == d
    ensures (exists c :: CpuHas(run[i], c, p)) && !run[i].procs[p].locked ==> run[i].procs[p].state.RUNNING?
  {
    hide IsRun, ParentsOk, ForksOk, ReparentOk, ProgressOk, WakeupsOk, WaitLockOk;
    RunInv(run, i);
    var x := run[i].procs[p];
    assert LocalOk(x, p, run[i].init);
    if x.cpu >= 0 {
      assert CpuHas(run[i], x.cpu, p);
    }
  }

  /** What sched() checks holds at every call of it: p->lock is held, wait_lock is not, and the state is
      no longer RUNNING. */
  lemma SchedChecksHold(run: seq<Sys>, i: nat, c: nat)
    requires IsRun(run) && i < |run| && Running(run[i], c) && PcOf(run[i], c).Sched?
    ensures var p := run[i].cpus[c].p;
      run[i].procs[p].locked && run[i].waiter != p && !run[i].procs[p].state.RUNNING?
  {
    hide IsRun, ParentsOk, ForksOk, ReparentOk, ProgressOk, WakeupsOk;
    RunInv(run, i);
    var p := run[i].cpus[c].p;
    assert LocalOk(run[i].procs[p], p, run[i].init);
  }

  /** A slot that wait() frees, or that allocproc() takes, is in use by no CPU: its kernel stack is idle. */
  lemma FreedSlotIsIdle(run: seq<Sys>, i: nat, p: nat)
    requires IsRun(run) && i < |run| && Unlocked(run[i], p)
    requires run[i].procs[p].state.ZOMBIE? || run[i].procs[p].state.UNUSED? || run[i].procs[p].state.USED?
    ensures forall c :: !CpuHas(run[i], c, p)
  {
    hide IsRun, ParentsOk, ForksOk, ReparentOk, ProgressOk, WakeupsOk, WaitLockOk;
    RunInv(run, i);
    assert LocalOk(run[i].procs[p], p, run[i].init);
  }
}
