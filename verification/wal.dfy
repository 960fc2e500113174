/** The write-ahead log of kernel/log.c as a step machine.

    One state holds the disk, the block cache, the in-memory log header, the operations that are
    between begin_op and end_op, and the point that commit() or recover_from_log() has reached.
    Every single block write is one step and a crash is a step that is enabled everywhere, so a run
    may crash between any two block writes, again and again, also in the middle of recovery. */
module Wal {
  const MAXOPBLOCKS: nat := 10
  const LOGSIZE: nat := 3 * MAXOPBLOCKS
  const BLOCK_WORDS: nat := 256 // BSIZE / sizeof(uint)

  /** A disk block, read as its 32-bit words: the log header is an array of such words. */
  type Block = b: seq<nat> | |b| == BLOCK_WORDS witness seq(BLOCK_WORDS, _ => 0)
  type Disk = map<nat, Block>

  /** The part of the superblock that log.c uses: `start` is the header block, `nlog` is log.size. */
  datatype Super = Super(size: nat, start: nat, nlog: nat)

  predicate SuperOk(sb: Super) {
    1 <= sb.nlog && sb.start + sb.nlog <= sb.size
  }

  predicate InLog(sb: Super, b: nat) {
    sb.start <= b < sb.start + sb.nlog
  }

  predicate IsHome(sb: Super, b: nat) {
    b < sb.size && !InLog(sb, b)
  }

  /** The log block that carries the i-th block of a transaction. */
  function Slot(sb: Super, i: nat): nat {
    sb.start + 1 + i
  }

  // ----- the header block -----

  predicate HeadOk(sb: Super, b: Block) {
    && b[0] <= LOGSIZE && b[0] < sb.nlog
    && (forall i | 1 <= i <= b[0] :: IsHome(sb, b[i]))
    && (forall i, j | 1 <= i < j <= b[0] :: b[i] != b[j])
  }

  /** What read_head() reads. */
  function HeadList(b: Block): seq<nat>
    requires b[0] <= LOGSIZE
  {
    b[1..1 + b[0]]
  }

  /** What write_head() stores: the words past the list keep their old value. */
  function PutHead(b: Block, lh: seq<nat>): (r: Block)
    requires |lh| <= LOGSIZE
    ensures r[0] == |lh| && HeadList(r) == lh
    ensures forall i | |lh| < i < BLOCK_WORDS :: r[i] == b[i]
  {
    [|lh|] + lh + b[1 + |lh|..]
  }

  ghost predicate DiskOk(sb: Super, d: Disk) {
    && SuperOk(sb)
    && (forall b: nat :: b in d <==> b < sb.size)
    && HeadOk(sb, d[sb.start])
  }

  function Head(sb: Super, d: Disk): seq<nat>
    requires sb.start in d && d[sb.start][0] <= LOGSIZE
  {
    HeadList(d[sb.start])
  }

  function IndexIn(lh: seq<nat>, b: nat): (i: nat)
    requires b in lh
    ensures i < |lh| && lh[i] == b
  {
    if lh[0] == b then 0 else 1 + IndexIn(lh[1..], b)
  }

  /** The home blocks as they are on the disk. */
  ghost function Home(sb: Super, d: Disk): map<nat, Block> {
    map b | b in d && !InLog(sb, b) :: d[b]
  }

  /** The home blocks that a recovery started on disk `d` has to produce: each block named by the
      header comes from its log slot, each other block is left alone. */
  ghost function Recovered(sb: Super, d: Disk): map<nat, Block>
    requires DiskOk(sb, d)
  {
    map b | b in d && !InLog(sb, b) ::
      if b in Head(sb, d) then d[Slot(sb, IndexIn(Head(sb, d), b))] else d[b]
  }

  // ----- states -----

  /** Where the commit or the recovery is. `Running` means that neither is at work. */
  datatype Phase =
    | Running
    | WriteLog(tail: nat)
    | WriteHead
    | Install(tail: nat)
    | EraseHead
    | Committed
    | Boot
    | Replay(tail: nat)
    | EraseReplay

  /** What one process has open: `used` counts the blocks its operation has added to the log. */
  datatype Op = Idle | Active(used: nat)

  /** `locked` maps each buffer that has been modified but not yet handed to log_write to the
      process that holds it; `pins` is the extra reference count that bpin/bunpin maintain. */
  datatype State = State(
    disk: Disk, cache: map<nat, Block>, lh: seq<nat>, pins: multiset<nat>,
    ops: seq<Op>, outstanding: nat, committing: bool, locked: map<nat, nat>, phase: Phase)

  /** What bread() returns: the cached copy, or else the disk's. */
  function View(s: State, b: nat): Block
    requires b in s.cache || b in s.disk
  {
    if b in s.cache then s.cache[b] else s.disk[b]
  }

  function CountActive(ops: seq<Op>): nat {
    if ops == [] then 0 else (if ops[0].Active? then 1 else 0) + CountActive(ops[1..])
  }

  function SumUsed(ops: seq<Op>): nat {
    if ops == [] then 0 else (if ops[0].Active? then ops[0].used else 0) + SumUsed(ops[1..])
  }

  // ----- steps -----

  datatype Action =
    | Fill(b: nat)
    | Evict(b: nat)
    | BeginOp(p: nat)
    | Modify(p: nat, b: nat, data: Block)
    | LogWrite(p: nat, b: nat)
    | EndOp(p: nat)
    | CommitStep
    | Crash
    | RecoverStep

  /** The guard of the first panic of log_write(). */
  predicate LogWritePanics(sb: Super, s: State) {
    |s.lh| >= LOGSIZE || |s.lh| >= sb.nlog - 1
  }

  predicate IsActive(s: State, p: nat) {
    p < |s.ops| && s.ops[p].Active?
  }

  predicate Enabled(sb: Super, s: State, a: Action) {
    match a
    case Fill(b) => b in s.disk && b !in s.cache
    case Evict(b) => b in s.cache && s.pins[b] == 0 && b !in s.locked
    case BeginOp(p) =>
      // begin_op() sleeps while either test fails
      && s.phase.Running? && p < |s.ops| && s.ops[p].Idle?
      && !s.committing && |s.lh| + (s.outstanding + 1) * MAXOPBLOCKS <= LOGSIZE
    case Modify(p, b, data) =>
      && IsActive(s, p) && IsHome(sb, b) && b in s.cache && s.phase.Running?
      && (b in s.locked ==> s.locked[b] == p)
    case LogWrite(p, b) =>
      && IsActive(s, p) && b in s.locked && s.locked[b] == p && s.phase.Running?
      && (b !in s.lh ==> s.ops[p].used < MAXOPBLOCKS)
      && !LogWritePanics(sb, s) && s.outstanding >= 1
    case EndOp(p) =>
      && IsActive(s, p) && s.phase.Running? && !s.committing && s.outstanding >= 1
      && (forall b | b in s.locked :: s.locked[b] != p)
    case CommitStep =>
      match s.phase {
        case WriteLog(tail) =>
          tail < |s.lh| ==>
            && (s.lh[tail] in s.cache || s.lh[tail] in s.disk)
            && Slot(sb, tail) in s.disk
        case WriteHead => sb.start in s.disk && |s.lh| <= LOGSIZE
        case Install(tail) =>
          tail < |s.lh| ==>
            && s.lh[tail] in s.disk
            && Slot(sb, tail) in s.disk
        case EraseHead => sb.start in s.disk
        case Committed => true
        case _ => false
      }
    case Crash => true
    case RecoverStep =>
      match s.phase {
        case Boot => sb.start in s.disk && s.disk[sb.start][0] <= LOGSIZE
        case Replay(tail) =>
          tail < |s.lh| ==>
            && s.lh[tail] in s.disk
            && Slot(sb, tail) in s.disk
        case EraseReplay => sb.start in s.disk
        case _ => false
      }
  }

  /** bwrite(): the block reaches the disk and stays cached. */
  function Bwrite(s: State, b: nat, data: Block): State {
    s.(disk := s.disk[b := data], cache := s.cache[b := data])
  }

  function AfterLogWrite(s: State, p: nat, b: nat): State
    requires IsActive(s, p)
  {
    var t := s.(locked := s.locked - {b});
    if b in s.lh then t
    else t.(lh := s.lh + [b], pins := s.pins + multiset{b}, ops := s.ops[p := Active(s.ops[p].used + 1)])
  }

  function AfterEndOp(s: State, p: nat): State
    requires p < |s.ops| && s.outstanding >= 1
  {
    var t := s.(ops := s.ops[p := Idle], outstanding := s.outstanding - 1);
    if t.outstanding == 0
    then t.(committing := true, phase := if |s.lh| > 0 then WriteLog(0) else Committed)
    else t
  }

  function AfterCommitStep(sb: Super, s: State): State
    requires Enabled(sb, s, CommitStep)
  {
    match s.phase
    case WriteLog(tail) =>
      if tail < |s.lh|
      then Bwrite(s, Slot(sb, tail), View(s, s.lh[tail])).(phase := WriteLog(tail + 1))
      else s.(phase := WriteHead)
    case WriteHead =>
      Bwrite(s, sb.start, PutHead(View(s, sb.start), s.lh)).(phase := Install(0))
    case Install(tail) =>
      if tail < |s.lh|
      then
        Bwrite(s, s.lh[tail], View(s, Slot(sb, tail)))
        .(pins := s.pins - multiset{s.lh[tail]}, phase := Install(tail + 1))
      else s.(lh := [], phase := EraseHead)
    case EraseHead =>
      Bwrite(s, sb.start, PutHead(View(s, sb.start), [])).(phase := Committed)
    case Committed => s.(committing := false, phase := Running)
  }

  function AfterRecoverStep(sb: Super, s: State): State
    requires Enabled(sb, s, RecoverStep)
  {
    match s.phase
    case Boot => s.(lh := Head(sb, s.disk), phase := Replay(0))
    case Replay(tail) =>
      if tail < |s.lh|
      then Bwrite(s, s.lh[tail], View(s, Slot(sb, tail))).(phase := Replay(tail + 1))
      else s.(lh := [], phase := EraseReplay)
    case EraseReplay =>
      Bwrite(s, sb.start, PutHead(View(s, sb.start), [])).(phase := Running)
  }

  /** Power fails: only the disk survives. */
  function AfterCrash(s: State): State {
    State(s.disk, map[], [], multiset{}, seq(|s.ops|, _ => Idle), 0, false, map[], Boot)
  }

  function Apply(sb: Super, s: State, a: Action): State
    requires Enabled(sb, s, a)
  {
    match a
    case Fill(b) => s.(cache := s.cache[b := s.disk[b]])
    case Evict(b) => s.(cache := s.cache - {b})
    case BeginOp(p) => s.(outstanding := s.outstanding + 1, ops := s.ops[p := Active(0)])
    case Modify(p, b, data) => s.(cache := s.cache[b := data], locked := s.locked[b := p])
    case LogWrite(p, b) => AfterLogWrite(s, p, b)
    case EndOp(p) => AfterEndOp(s, p)
    case CommitStep => AfterCommitStep(sb, s)
    case Crash => AfterCrash(s)
    case RecoverStep => AfterRecoverStep(sb, s)
  }

  ghost predicate Init(sb: Super, s: State) {
    DiskOk(sb, s.disk) && s == AfterCrash(s)
  }

  ghost predicate Next(sb: Super, s: State, t: State) {
    exists a :: Enabled(sb, s, a) && Apply(sb, s, a) == t
  }

  ghost predicate IsRun(sb: Super, run: seq<State>) {
    && |run| > 0
    && Init(sb, run[0])
    && forall i | 0 <= i < |run| - 1 :: Next(sb, run[i], run[i + 1])
  }
}
