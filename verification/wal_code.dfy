/** kernel/log.c statement by statement: one object holds the `log` record, the cache and the disk.
    Each method is shown to move the object along a run of the log machine, one machine step per block
    write, so that the theorems about runs hold of the code, and says what it does to the service. */
module WalCode {
  import opened Wal
  import opened WalProof
  import opened WalSpec

  class Log {
    const sb: Super
    var disk: Disk
    var cache: map<nat, Block>
    var n: nat
    const block: array<nat>
    var outstanding: nat
    var committing: bool
    ghost var pins: multiset<nat>
    ghost var ops: seq<Op>
    ghost var locked: map<nat, nat>
    ghost var phase: Phase
    /** The states passed through so far, and the service state that the last one implements. */
    ghost var trail: seq<State>
    ghost var spec: Spec

    ghost function Abs(): State
      reads this, block
      requires n <= block.Length
    {
      State(disk, cache, block[..n], pins, ops, outstanding, committing, locked, phase)
    }

    ghost predicate Valid()
      reads this, block
    {
      && block.Length == LOGSIZE && n <= LOGSIZE
      && |trail| > 0 && IsRun(sb, trail) && trail[|trail| - 1] == Abs()
      && Inv(sb, Abs()) && Implements(sb, Abs(), spec)
    }

    /** Records that the object has taken machine step `a`. */
    ghost method Took(a: Action)
      requires block.Length == LOGSIZE && n <= LOGSIZE && |trail| > 0 && IsRun(sb, trail)
      requires var s := trail[|trail| - 1];
        Inv(sb, s) && Implements(sb, s, spec) && Enabled(sb, s, a) && Apply(sb, s, a) == Abs()
      modifies this`trail, this`spec
      ensures Valid() && trail == old(trail) + [Abs()]
      ensures spec == SpecStep(old(trail[|trail| - 1]), a, old(spec))
    {
      hide Enabled, Apply, Init, Inv, Implements;
      var s := trail[|trail| - 1];
      assert Next(sb, s, Abs());
      SimStep(sb, s, a, spec);
      spec := SpecStep(s, a, spec);
      trail := trail + [Abs()];
    }

    /** The object after power-up on disk `d`, before recovery. */
    constructor (super: Super, d: Disk, nproc: nat)
      requires DiskOk(super, d)
      ensures Valid() && sb == super && disk == d && phase.Boot? && |ops| == nproc && fresh(block)
    {
      sb := super;
      disk, cache, n := d, map[], 0;
      block := new nat[LOGSIZE];
      outstanding, committing := 0, false;
      pins, ops, locked, phase := multiset{}, seq(nproc, _ => Idle), map[], Boot;
      new;
      trail := [Abs()];
      spec := FirstSpec(sb, Abs());
    }

    /** bread(): fills the cache on a miss. */
    method Bread(b: nat) returns (data: Block)
      requires Valid() && b in disk
      modifies this`cache, this`trail, this`spec
      ensures Valid() && old(trail) <= trail && spec == old(spec)
      ensures data == old(View(Abs(), b)) == View(Abs(), b)
      ensures b in cache && forall c | c in old(cache) :: c in cache && cache[c] == old(cache[c])
    {
      hide IsRun, Inv, Implements;
      if b !in cache {
        cache := cache[b := disk[b]];
        Took(Fill(b));
      }
      data := cache[b];
    }

    /** bwrite() of a buffer that the caller has filled, as the machine step `a`. */
    method Bwrite(b: nat, data: Block, ghost a: Action, ghost left: multiset<nat>, ghost ph: Phase)
      requires Valid() && Enabled(sb, Abs(), a)
      requires Apply(sb, Abs(), a) == Wal.Bwrite(Abs(), b, data).(pins := left, phase := ph)
      modifies this`disk, this`cache, this`pins, this`phase, this`trail, this`spec
      ensures Valid() && old(trail) <= trail && pins == left && phase == ph
      ensures spec == SpecStep(old(Abs()), a, old(spec))
    {
      hide IsRun, Inv, Implements, Enabled, Apply;
      disk := disk[b := data];
      cache := cache[b := data];
      pins, phase := left, ph;
      Took(a);
    }

    /** The body of begin_op()'s loop: false means that the caller goes back to sleep. */
    method BeginOp(ghost p: nat) returns (ok: bool)
      requires Valid() && phase.Running? && p < |ops| && ops[p].Idle?
      modifies this`outstanding, this`ops, this`trail, this`spec
      ensures Valid() && old(trail) <= trail
      ensures ok <==> !old(committing) && n + (old(outstanding) + 1) * MAXOPBLOCKS <= LOGSIZE
      ensures ok ==> ops == old(ops)[p := Active(0)] && spec == old(spec).(active := old(spec).active + 1)
      ensures !ok ==> Abs() == old(Abs()) && spec == old(spec)
    {
      hide IsRun, Inv, Implements;
      if committing {
        ok := false;
      } else if n + (outstanding + 1) * MAXOPBLOCKS > LOGSIZE {
        ok := false;
      } else {
        outstanding := outstanding + 1;
        ops := ops[p := Active(0)];
        Took(Action.BeginOp(p));
        ok := true;
      }
    }

    /** A caller holding the buffer of block `b` stores `data` in it. */
    method Modify(ghost p: nat, b: nat, data: Block)
      requires Valid() && Enabled(sb, Abs(), Action.Modify(p, b, data))
      modifies this`cache, this`locked, this`trail, this`spec
      ensures Valid() && old(trail) <= trail && spec == old(spec)
      ensures cache == old(cache)[b := data] && locked == old(locked)[b := p]
    {
      hide IsRun, Inv, Implements;
      cache := cache[b := data];
      locked := locked[b := p];
      Took(Action.Modify(p, b, data));
    }

    lemma OneIsOpen(p: nat)
      requires Valid() && IsActive(Abs(), p)
      ensures outstanding >= 1
    {
      NoneActive(ops);
    }

    /** The loop of log_write(): the entry of block b, or the first unused one. */
    method FindEntry(b: nat) returns (i: nat)
      requires n <= block.Length
      ensures i <= n && b !in block[..i] && (i < n ==> block[i] == b) && (i < n <==> b in block[..n])
    {
      i := 0;
      while i < n
        invariant i <= n && b !in block[..i]
      {
        if block[i] == b {
          break;
        }
        i := i + 1;
      }
    }

    /** The entry of log_write(), and the pin if it is a new one. */
    method Record(ghost p: nat, b: nat, i: nat)
      requires block.Length == LOGSIZE && n < LOGSIZE && i <= n && b !in block[..i] && (i < n ==> block[i] == b)
      requires IsActive(Abs(), p)
      modifies this`n, block, this`pins, this`ops, this`locked
      ensures n <= LOGSIZE && Abs() == AfterLogWrite(old(Abs()), p, b)
    {
      ghost var lh := block[..n];
      block[i] := b;
      if i == n {
        pins := pins + multiset{b};
        n := n + 1;
        ops := ops[p := Active(ops[p].used + 1)];
        assert block[..n] == lh + [b];
      } else {
        assert block[..n] == lh && lh[i] == b;
      }
      locked := locked - {b};
    }

    lemma MayLog(p: nat, b: nat)
      requires Valid() && IsActive(Abs(), p) && b in locked && locked[b] == p && phase.Running? && b in cache
      requires (b !in block[..n] ==> ops[p].used < MAXOPBLOCKS) && !LogWritePanics(sb, Abs())
      ensures Enabled(sb, Abs(), Action.LogWrite(p, b))
    {
      hide IsRun, Inv, Implements;
      OneIsOpen(p);
    }

    static lemma LogWriteIs(sb: Super, s: State, x: Spec, p: nat, b: nat)
      requires Enabled(sb, s, Action.LogWrite(p, b)) && b in s.cache
      ensures IsActive(s, p) && Apply(sb, s, Action.LogWrite(p, b)) == AfterLogWrite(s, p, b)
      ensures SpecStep(s, Action.LogWrite(p, b), x) == x.(view := x.view[b := s.cache[b]])
    {}

    /** log_write() and the brelse() that follows it; false is the panic. */
    method LogWrite(ghost p: nat, b: nat) returns (ok: bool)
      requires Valid() && IsActive(Abs(), p) && b in locked && locked[b] == p && phase.Running?
      requires b in cache && (b !in block[..n] ==> ops[p].used < MAXOPBLOCKS)
      modifies this`n, block, this`pins, this`ops, this`locked, this`trail, this`spec
      ensures Valid() && old(trail) <= trail
      ensures ok <==> !LogWritePanics(sb, old(Abs()))
      ensures ok ==> Abs() == AfterLogWrite(old(Abs()), p, b)
      ensures ok ==> spec == old(spec).(view := old(spec).view[b := cache[b]])
      ensures !ok ==> Abs() == old(Abs()) && spec == old(spec)
    {
      hide IsRun, Inv, Implements, Enabled, Apply, SpecStep;
      ghost var s := Abs();
      if n >= LOGSIZE || n >= sb.nlog - 1 {
        return false;
      }
      MayLog(p, b);
      LogWriteIs(sb, s, spec, p, b);
      var i := FindEntry(b);
      Record(p, b, i);
      Took(Action.LogWrite(p, b));
      ok := true;
    }

    /** Every block that the present commit or recovery touches is on the disk. */
    lemma OnDisk(i: nat)
      requires Valid() && i < n
      ensures Slot(sb, i) in disk && block[i] in disk && sb.start in disk && block[..n][i] == block[i]
      ensures Slot(sb, i) != block[i]
    {
      hide HeadOk, BudgetOk, PhaseOk, CacheOk, PinsOk, Implements;
      SlotInLog(sb, block[..n], i);
    }

    /** One turn of the loop of write_log(). */
    method CopyToLog(tail: nat)
      requires Valid() && phase == Phase.WriteLog(tail) && tail < n
      modifies this`disk, this`cache, this`pins, this`phase, this`trail, this`spec
      ensures Valid() && old(trail) <= trail && phase == Phase.WriteLog(tail + 1) && spec == old(spec)
    {
      hide IsRun, Inv, Implements;
      OnDisk(tail);
      var to := Bread(Slot(sb, tail));
      var from := Bread(block[tail]);
      Bwrite(Slot(sb, tail), from, CommitStep, pins, Phase.WriteLog(tail + 1));
    }

    /** write_log(). */
    method WriteLog()
      requires Valid() && phase == Phase.WriteLog(0)
      modifies this`disk, this`cache, this`pins, this`phase, this`trail, this`spec
      ensures Valid() && old(trail) <= trail && phase.WriteHead? && spec == old(spec)
    {
      hide IsRun, Inv, Implements;
      var tail := 0;
      while tail < n
        invariant Valid() && old(trail) <= trail && tail <= n
        invariant phase == Phase.WriteLog(tail) && spec == old(spec)
      {
        CopyToLog(tail);
        tail := tail + 1;
      }
      phase := Phase.WriteHead;
      Took(CommitStep);
    }

    /** The in-memory part of write_head(): the loop that fills the header buffer. */
    method FillHead(hb: Block) returns (buf: Block)
      requires n <= LOGSIZE == block.Length
      ensures buf == PutHead(hb, block[..n])
    {
      buf := hb[0 := n];
      var i := 0;
      while i < n
        invariant i <= n
        invariant buf == [n] + block[..i] + hb[1 + i..]
      {
        buf := buf[1 + i := block[i]];
        i := i + 1;
      }
    }

    /** write_head(), called by commit() with the new list or with the empty one, and by recovery. */
    method WriteHead()
      requires Valid() && sb.start in disk
      requires phase.WriteHead? || ((phase.EraseHead? || phase.EraseReplay?) && n == 0)
      modifies this`disk, this`cache, this`pins, this`phase, this`trail, this`spec
      ensures Valid() && old(trail) <= trail
      ensures phase == match old(phase) { case WriteHead => Install(0) case EraseHead => Committed case _ => Running }
      ensures spec == if old(phase).WriteHead? then old(spec).(durable := old(spec).view) else old(spec)
    {
      hide IsRun, Inv, Implements, PutHead;
      var hb := Bread(sb.start);
      var buf := FillHead(hb);
      assert n == 0 ==> block[..n] == [];
      ghost var a := if phase.EraseReplay? then RecoverStep else CommitStep;
      ghost var next := if phase.WriteHead? then Install(0) else if phase.EraseHead? then Committed else Running;
      Bwrite(sb.start, buf, a, pins, next);
    }

    /** One turn of the loop of install_trans(); with `recovering` it leaves the pins alone. */
    method CopyHome(tail: nat, recovering: bool)
      requires Valid() && tail < n && phase == if recovering then Replay(tail) else Install(tail)
      modifies this`disk, this`cache, this`pins, this`phase, this`trail, this`spec
      ensures Valid() && old(trail) <= trail && spec == old(spec)
      ensures phase == if recovering then Replay(tail + 1) else Install(tail + 1)
    {
      hide IsRun, Inv, Implements, Enabled, Apply, SpecStep;
      OnDisk(tail);
      var lbuf := Bread(Slot(sb, tail));
      var dbuf := Bread(block[tail]);
      assert lbuf == View(Abs(), Slot(sb, tail));
      CopyIs(sb, Abs(), tail, spec);
      if !recovering {
        Bwrite(block[tail], lbuf, CommitStep, pins - multiset{block[tail]}, Install(tail + 1));
      } else {
        Bwrite(block[tail], lbuf, RecoverStep, pins, Replay(tail + 1));
      }
    }

    static lemma CopyIs(sb: Super, s: State, tail: nat, x: Spec)
      requires tail < |s.lh| && s.lh[tail] in s.disk && Slot(sb, tail) in s.disk
      ensures s.phase == Install(tail) ==>
        && Enabled(sb, s, CommitStep) && SpecStep(s, CommitStep, x) == x
        && Apply(sb, s, CommitStep) ==
           Wal.Bwrite(s, s.lh[tail], View(s, Slot(sb, tail)))
           .(pins := s.pins - multiset{s.lh[tail]}, phase := Install(tail + 1))
      ensures s.phase == Replay(tail) ==>
        && Enabled(sb, s, RecoverStep) && SpecStep(s, RecoverStep, x) == x
        && Apply(sb, s, RecoverStep) ==
           Wal.Bwrite(s, s.lh[tail], View(s, Slot(sb, tail))).(pins := s.pins, phase := Replay(tail + 1))
    {}

    /** install_trans(), then the caller's `log.lh.n = 0`. */
    method InstallTrans(recovering: bool)
      requires Valid() && phase == if recovering then Replay(0) else Install(0)
      modifies this`disk, this`cache, this`pins, this`n, this`phase, this`trail, this`spec
      ensures Valid() && old(trail) <= trail && spec == old(spec) && n == 0
      ensures phase == if recovering then EraseReplay else EraseHead
    {
      hide IsRun, Inv, Implements;
      var tail := 0;
      while tail < n
        invariant Valid() && old(trail) <= trail && tail <= n && n == old(n) && spec == old(spec)
        invariant phase == if recovering then Replay(tail) else Install(tail)
      {
        CopyHome(tail, recovering);
        tail := tail + 1;
      }
      n := 0;
      assert block[..0] == [];
      if recovering {
        phase := EraseReplay;
        Took(RecoverStep);
      } else {
        phase := EraseHead;
        Took(CommitStep);
      }
    }

    lemma HeaderOnDisk()
      requires Valid()
      ensures sb.start in disk
    {}

    lemma Settled()
      requires Valid() && phase.Running? && n == 0
      ensures Home(sb, disk) == spec.durable
    {
      hide HeadOk, BudgetOk, CacheOk, PinsOk, ViewOk;
      RecoveryDone(sb, Abs());
    }

    /** The second critical section of end_op(). */
    method FinishCommit()
      requires Valid() && phase.Committed? && n == 0
      modifies this`committing, this`phase, this`trail, this`spec
      ensures Valid() && old(trail) <= trail && phase.Running? && !committing
      ensures spec == old(spec) && Home(sb, disk) == spec.durable
    {
      hide IsRun, Inv, Implements, Home;
      committing := false;
      phase := Running;
      Took(CommitStep);
      Settled();
    }

    /** commit() and what end_op() does after it: what the operations saw becomes durable. */
    method Commit()
      requires Valid() && phase == if n > 0 then Phase.WriteLog(0) else Committed
      modifies this`disk, this`cache, this`pins, this`n, this`committing, this`phase, this`trail, this`spec
      ensures Valid() && old(trail) <= trail && phase.Running? && n == 0 && !committing
      ensures spec == old(spec).(durable := old(spec).view) && Home(sb, disk) == spec.durable
    {
      hide Valid, Home;
      if n > 0 {
        WriteLog();
        HeaderOnDisk();
        WriteHead();
        InstallTrans(false);
        HeaderOnDisk();
        WriteHead();
      } else {
        NothingLogged();
      }
      FinishCommit();
    }

    /** With an empty header the operations have changed nothing since the last commit. */
    lemma NothingLogged()
      requires Valid() && phase.Committed?
      ensures spec.view == spec.durable
    {
      NoLocksLeft(locked, ops);
      IdleHead(sb, disk);
      assert forall b | b in cache :: b !in pins;
    }

    /** end_op(): the last operation commits the group. */
    method EndOp(ghost p: nat)
      requires Valid() && IsActive(Abs(), p) && phase.Running? && !committing
      requires forall b | b in locked :: locked[b] != p
      modifies this`disk, this`cache, this`pins, this`ops, this`n, this`outstanding, this`committing,
               this`phase, this`trail, this`spec
      ensures Valid() && old(trail) <= trail && phase.Running? && !committing
      ensures outstanding == old(outstanding) - 1 && spec.view == old(spec).view
      ensures spec.durable == if outstanding == 0 then old(spec).view else old(spec).durable
    {
      hide IsRun, Inv, Implements;
      OneIsOpen(p);
      var doCommit := false;
      outstanding := outstanding - 1;
      ops := ops[p := Idle];
      if outstanding == 0 {
        doCommit := true;
        committing := true;
        phase := if n > 0 then Phase.WriteLog(0) else Committed;
      }
      Took(Action.EndOp(p));
      if doCommit {
        Commit();
      }
    }

    /** The loop of read_head(), which copies the list out of the header buffer. */
    method CopyList(hb: Block)
      requires block.Length == LOGSIZE && hb[0] <= LOGSIZE
      modifies this`n, block
      ensures n == hb[0] && block[..n] == HeadList(hb)
    {
      n := hb[0];
      var i := 0;
      while i < n
        invariant n == hb[0] && i <= n && block[..i] == hb[1..1 + i]
      {
        block[i] := hb[1 + i];
        i := i + 1;
      }
    }

    method TakeList(hb: Block)
      requires block.Length == LOGSIZE && hb[0] <= LOGSIZE && n <= LOGSIZE
      modifies this`n, block, this`phase
      ensures n <= LOGSIZE && Abs() == old(Abs()).(lh := HeadList(hb), phase := Replay(0))
    {
      hide HeadList;
      CopyList(hb);
      phase := Replay(0);
    }

    /** read_head(). */
    method ReadHead()
      requires Valid() && phase.Boot?
      modifies this`n, block, this`cache, this`phase, this`trail, this`spec
      ensures Valid() && old(trail) <= trail && phase == Replay(0) && spec == old(spec)
    {
      hide IsRun, Inv, Implements, HeadList, Enabled, Apply, SpecStep;
      HeaderReadable();
      var hb := Bread(sb.start);
      BootIs(sb, Abs(), spec);
      TakeList(hb);
      Took(RecoverStep);
    }

    static lemma BootIs(sb: Super, s: State, x: Spec)
      requires s.phase.Boot? && sb.start in s.disk && s.disk[sb.start][0] <= LOGSIZE
      ensures Enabled(sb, s, RecoverStep) && SpecStep(s, RecoverStep, x) == x
      ensures Apply(sb, s, RecoverStep) == s.(lh := Head(sb, s.disk), phase := Replay(0))
    {}

    lemma HeaderReadable()
      requires Valid() && phase.Boot?
      ensures sb.start in disk && View(Abs(), sb.start) == disk[sb.start] && disk[sb.start][0] <= LOGSIZE
      ensures n == 0
    {
      NoLocksLeft(locked, ops);
    }

    /** recover_from_log(): the home blocks become what the crashed disk stood for. */
    method RecoverFromLog()
      requires Valid() && phase.Boot?
      modifies this`disk, this`cache, this`pins, this`n, block, this`phase, this`trail, this`spec
      ensures Valid() && old(trail) <= trail && phase.Running? && n == 0
      ensures spec == old(spec) && spec.view == spec.durable && Home(sb, disk) == spec.durable
    {
      hide Valid, Home, Recovered;
      BootView();
      ReadHead();
      InstallTrans(true);
      HeaderOnDisk();
      WriteHead();
      Settled();
    }

    lemma BootView()
      requires Valid() && phase.Boot?
      ensures spec.view == spec.durable
    {}
  }
}
