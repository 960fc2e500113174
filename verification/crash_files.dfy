/** The log under the file layer: what whole operations keep true of the blocks, crashes and recoveries keep true. */
module CrashFiles {
  import opened Wal
  import opened WalProof
  import opened WalSpec
  import L = FsLayout
  import M = FsMap
  import F = Fs

  // ----- over every run -----

  /** No operation is open and no recovery is under way. */
  predicate Quiet(s: State) {
    s.outstanding == 0 && !Recovering(s.phase)
  }

  /** A part of a run, quiet at both ends, without a crash: whole operations. */
  ghost predicate Stretch(run: seq<State>, a: nat, b: nat) {
    a <= b < |run| && Quiet(run[a]) && Quiet(run[b]) && forall j | a <= j <= b :: !Recovering(run[j].phase)
  }

  /** Up to moment n, whole operations lead from home blocks with property p to home blocks with property p. */
  ghost predicate OperationsKeep(sb: Super, run: seq<State>, n: nat, p: map<nat, Block> -> bool) {
    forall a: nat, b: nat | Stretch(run, a, b) && b <= n && p(Seen(sb, run[a])) :: p(Seen(sb, run[b]))
  }

  /** The last moment before n at which a recovery was under way; every run starts with one. */
  function LastBoot(run: seq<State>, n: nat): (r: nat)
    requires 0 < n < |run| && run[0].phase.Boot?
    ensures r < n && Recovering(run[r].phase)
    ensures forall j | r < j < n :: !Recovering(run[j].phase)
  {
    if n == 1 || Recovering(run[n - 1].phase) then n - 1 else LastBoot(run, n - 1)
  }

  /** When recovery is done, bread() shows what it had to produce. */
  lemma RecoveryShows(sb: Super, s: State, t: State)
    requires Inv(sb, s) && Recovering(s.phase) && Next(sb, s, t) && !Recovering(t.phase)
    ensures Quiet(t) && Seen(sb, t) == Recovered(sb, s.disk)
  {
    hide Inv, Next, Recovered, DiskOk;
    NextInv(sb, s, t);
    RecoveryKeeps(sb, s, t);
    LastRecoverStep(sb, s, t);
    RecoveryDone(sb, t);
    RecoveredAgain(sb, t);
  }

  /** Recovery ends with the erased header, and no operation is open. */
  lemma LastRecoverStep(sb: Super, s: State, t: State)
    requires Inv(sb, s) && Recovering(s.phase) && Next(sb, s, t) && !Recovering(t.phase)
    ensures t.phase.Running? && t.lh == [] && t.outstanding == 0 && t.locked == map[]
  {
    hide PinsOk, HeadOk, CacheOk, Copied, Saved, ListOk;
    var a :| Enabled(sb, s, a) && Apply(sb, s, a) == t;
    NoneActive(s.ops);
    NoLocksLeft(s.locked, s.ops);
    assert a.RecoverStep?;
  }

  lemma RecoveredAgain(sb: Super, t: State)
    requires Inv(sb, t) && Recovered(sb, t.disk) == Home(sb, t.disk)
    requires forall b | IsHome(sb, b) :: View(t, b) == t.disk[b]
    ensures Seen(sb, t) == Recovered(sb, t.disk)
  {
    hide PinsOk, HeadOk, CacheOk, PhaseOk, ListOk, LocksOk, BudgetOk, Recovered;
  }

  /** A property that holds of the first disk and that whole operations keep holds whenever no operation is open, and
      the disk stands for it at every moment, in the middle of operations, commits and recoveries too. */
  lemma {:induction false} HoldsThroughout(sb: Super, run: seq<State>, n: nat, p: map<nat, Block> -> bool)
    requires IsRun(sb, run) && n < |run| && p(Recovered(sb, run[0].disk)) && OperationsKeep(sb, run, n, p)
    ensures DiskOk(sb, run[n].disk) && p(Recovered(sb, run[n].disk))
    ensures Quiet(run[n]) ==> p(Seen(sb, run[n]))
  {
    hide Inv, DiskOk, Recovered, Seen, Next;
    LastCommitStands(sb, run, n);
    var j := LastCommit(run, n);
    if j >= 0 {
      HoldsThroughout(sb, run, j, p);
    }
    if Quiet(run[n]) {
      var r := LastBoot(run, n);
      HoldsThroughout(sb, run, r, p);
      RunInv(sb, run, r);
      assert Next(sb, run[r], run[r + 1]);
      RecoveryShows(sb, run[r], run[r + 1]);
      assert Stretch(run, r + 1, n);
    }
  }

  /** A crash anywhere, then a recovery interrupted by any number of crashes: when operations can run again, the home
      blocks have the property. */
  lemma CrashKeeps(sb: Super, run: seq<State>, i: nat, k: nat, p: map<nat, Block> -> bool)
    requires IsRun(sb, run) && RecoverySegment(run, i, k) && run[k].phase.Running?
    requires p(Recovered(sb, run[0].disk)) && OperationsKeep(sb, run, i, p)
    ensures p(Home(sb, run[k].disk))
  {
    hide Inv, DiskOk, Recovered, Seen, Next, OperationsKeep;
    HoldsThroughout(sb, run, i, p);
    CrashSafety(sb, run, i, k);
  }

  // ----- the blocks as the file layer reads them -----

  /** Byte k of a little-endian word. */
  function ByteOf(w: nat, k: nat): L.byte
    requires k < 4
  {
    if k == 0 then w % 256 else ByteOf(w / 256, k - 1)
  }

  function Bytes(b: Block): L.Block {
    seq(L.BSIZE, i requires 0 <= i < L.BSIZE => ByteOf(b[i / 4], i % 4))
  }

  /** The entries of an indirect block are its words. */
  lemma BytesAddr(b: Block, j: nat)
    requires j < L.NINDIRECT && b[j] < L.UINT
    ensures L.AddrAt(Bytes(b), j) == b[j]
  {
    var w, bytes := b[j], Bytes(b);
    assert bytes[4 * j] == ByteOf(w, 0) && bytes[4 * j + 1] == ByteOf(w, 1);
    assert bytes[4 * j + 2] == ByteOf(w, 2) && bytes[4 * j + 3] == ByteOf(w, 3);
    ByteSum(w);
  }

  lemma ByteSum(w: nat)
    requires w < L.UINT
    ensures ByteOf(w, 0) + 256 * ByteOf(w, 1) + 65536 * ByteOf(w, 2) + 16777216 * ByteOf(w, 3) == w
  {
    var w1 := w / 256;
    var w2 := w1 / 256;
    assert ByteOf(w, 2) == ByteOf(w1, 1) == w2 % 256;
    assert ByteOf(w, 3) == ByteOf(w1, 2) == ByteOf(w2, 1) == w2 / 256;
  }

  /** A short, from the low half of a word. */
  function Short(w: nat): int {
    var x := w % 65536;
    if x < 32768 then x else x - 65536
  }

  /** The j-th struct dinode of a block: four shorts, the size, the addresses. */
  function InodeOf(b: Block, j: nat): M.Inode
    requires j < L.IPB
  {
    M.RawInode.Inode(Short(b[16 * j]), Short(b[16 * j] / 65536), Short(b[16 * j + 1]), Short(b[16 * j + 1] / 65536),
                     b[16 * j + 2], b[16 * j + 3..16 * j + 16])
  }

  function BlockIn(m: map<nat, Block>, b: nat): Block {
    if b in m then m[b] else seq(BLOCK_WORDS, _ => 0)
  }

  ghost function BlocksOf(fsb: M.Super, m: map<nat, Block>): seq<L.Block> {
    seq(fsb.size, b requires 0 <= b < fsb.size => Bytes(BlockIn(m, b)))
  }

  ghost function InodesOf(fsb: M.Super, m: map<nat, Block>): seq<M.Inode> {
    seq(fsb.ninodes, i requires 0 <= i < fsb.ninodes => InodeOf(BlockIn(m, M.IBlock(fsb, i)), i % L.IPB))
  }

  /** The free map agrees with the inodes, on these home blocks. */
  ghost predicate FreeMapOk(fsb: M.Super, m: map<nat, Block>) {
    exists owner: M.Owner :: M.Conserved(fsb, BlocksOf(fsb, m), InodesOf(fsb, m), owner, {})
  }

  /** The home blocks are those of a file layer with these inodes on disk and these blocks from the free map on. */
  ghost predicate Shows(fsb: M.Super, m: map<nat, Block>, blocks: seq<L.Block>, dinodes: seq<M.Inode>) {
    && InodesOf(fsb, m) == dinodes && |blocks| == fsb.size
    && forall b | fsb.bmapstart <= b < fsb.size :: BlocksOf(fsb, m)[b] == blocks[b]
  }

  /** What is conserved depends on nothing before the free map. */
  lemma SameFromMap(fsb: M.Super, bs: seq<L.Block>, cs: seq<L.Block>, inodes: seq<M.Inode>, owner: M.Owner)
    requires M.Conserved(fsb, bs, inodes, owner, {}) && |cs| == fsb.size
    requires forall b | fsb.bmapstart <= b < fsb.size :: bs[b] == cs[b]
    ensures M.Conserved(fsb, cs, inodes, owner, {})
  {
    forall b: nat | b < fsb.size ensures M.Used(fsb, cs, b) == M.Used(fsb, bs, b) {
      M.BBlockOk(fsb, b);
    }
    forall i, s | 0 <= i < |inodes| && 0 <= s < M.NSLOTS
      ensures M.SlotAddr(cs, inodes[i], s) == M.SlotAddr(bs, inodes[i], s)
    {
      SameSlot(fsb, bs, cs, inodes, owner, i, s);
    }
    hide M.Used, M.SlotAddr;
  }

  lemma SameSlot(fsb: M.Super, bs: seq<L.Block>, cs: seq<L.Block>, inodes: seq<M.Inode>, owner: M.Owner, i: nat, s: nat)
    requires M.Conserved(fsb, bs, inodes, owner, {}) && |cs| == fsb.size && i < |inodes| && s < M.NSLOTS
    requires forall b | fsb.bmapstart <= b < fsb.size :: bs[b] == cs[b]
    ensures M.SlotAddr(cs, inodes[i], s) == M.SlotAddr(bs, inodes[i], s)
  {
    hide M.Used, M.BitsOk, L.AddrAt;
    var ind := inodes[i].addrs[L.NDIRECT];
    if ind != 0 {
      assert M.SlotAddr(bs, inodes[i], L.NDIRECT) == ind;
      assert ind in owner;
    }
  }

  /** At the end of an operation of the file layer, when all inodes are written back, the home blocks are in order. */
  lemma OperationShows(fs: F.FileSystem, m: map<nat, Block>)
    requires fs.Valid() && fs.dinodes == fs.mem && fs.loose == {} && Shows(fs.sb, m, fs.blocks, fs.dinodes)
    ensures FreeMapOk(fs.sb, m)
  {
    hide M.Conserved, BlocksOf, InodesOf;
    fs.OnDisk();
    SizeOf(fs.sb, m);
    SameFromMap(fs.sb, fs.blocks, BlocksOf(fs.sb, m), fs.dinodes, fs.owner);
  }

  lemma SizeOf(fsb: M.Super, m: map<nat, Block>)
    ensures |BlocksOf(fsb, m)| == fsb.size
  {}

  /** If whole operations keep the free map in agreement with the inodes, so does every crash with its recovery: no
      block is in two files or twice in one, every block of a file is marked, and every marked block is in a file. */
  lemma FilesSurvive(sb: Super, fsb: M.Super, run: seq<State>, i: nat, k: nat)
    requires IsRun(sb, run) && RecoverySegment(run, i, k) && run[k].phase.Running?
    requires FreeMapOk(fsb, Recovered(sb, run[0].disk)) && OperationsKeep(sb, run, i, m => FreeMapOk(fsb, m))
    ensures FreeMapOk(fsb, Home(sb, run[k].disk))
  {
    hide DiskOk, Recovered, Next, OperationsKeep, FreeMapOk, Home;
    CrashKeeps(sb, run, i, k, m => FreeMapOk(fsb, m));
  }
}
