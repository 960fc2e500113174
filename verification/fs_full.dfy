/** A disk on which one chunk of filewrite() needs all of MAXOPBLOCKS: 32768 blocks, of which four are free, each the
    last of its block of the free map. All other data blocks belong to files without holes. */
module FullDisk {
  import opened FsLayout
  import opened FsMap
  import opened Fs
  import opened FileLayer

  const SB := Super(32768, 128, 32, 41)
  const FREE: seq<nat> := [8191, 16383, 24575, 32767]
  const RANKS: nat := 32718

  predicate IsFree(b: nat) {
    b % BPB == 8191
  }

  /** The j-th data block that is in use. */
  function BlockAt(j: nat): nat {
    46 + j + (if j >= 8145 then 1 else 0) + (if j >= 16336 then 1 else 0) + (if j >= 24527 then 1 else 0)
  }

  function Rank(b: nat): int {
    b - 46 - (if b > 8191 then 1 else 0) - (if b > 16383 then 1 else 0) - (if b > 24575 then 1 else 0)
  }

  lemma RankOfBlock(j: nat)
    requires j < RANKS
    ensures var b := BlockAt(j); 46 <= b < 32768 && !IsFree(b) && Rank(b) == j
  {}

  lemma BlockOfRank(b: nat)
    requires 46 <= b < 32768 && !IsFree(b)
    ensures 0 <= Rank(b) < RANKS && BlockAt(Rank(b)) == b
  {}

  /** How many slots file i fills: the file to be written its direct blocks, the others all, the last one what is
      left. */
  function Slots(i: nat): nat {
    if i == 1 then 12 else if 2 <= i < 123 then 269 else if i == 123 then 157 else 0
  }

  function First(i: nat): nat
    requires i >= 1
  {
    if i == 1 then 0 else 12 + 269 * (i - 2)
  }

  /** The address in slot s of file i. */
  function Addr(i: nat, s: nat): (a: Word)
    ensures a < 32768
  {
    if s < Slots(i) then RankOfBlock(First(i) + s); BlockAt(First(i) + s) else 0
  }

  function FileOf(j: nat): (nat, nat) {
    if j < 12 then (1, j) else (2 + (j - 12) / 269, (j - 12) % 269)
  }

  lemma Split(q: nat, s: nat)
    requires s < 269
    ensures (269 * q + s) / 269 == q && (269 * q + s) % 269 == s
  {}

  lemma FileOfSlot(i: nat, s: nat)
    requires s < Slots(i)
    ensures First(i) + s < RANKS && FileOf(First(i) + s) == (i, s)
  {
    if i >= 2 { Split(i - 2, s); }
  }

  lemma SlotOfFile(j: nat)
    requires j < RANKS
    ensures var (i, s) := FileOf(j); 1 <= i <= 123 && s < Slots(i) && First(i) + s == j
  {}

  function ByteOf(v: Word, k: nat): byte
    requires k < 4
  {
    if k == 0 then v % 256 else if k == 1 then v / 256 % 256 else if k == 2 then v / 65536 % 256 else v / 16777216
  }

  function Indirect(i: nat): Block {
    seq(BSIZE, k requires 0 <= k < BSIZE => ByteOf(Addr(i, NDIRECT + 1 + k / 4), k % 4))
  }

  lemma IndirectAt(i: nat, e: nat)
    requires e < NINDIRECT
    ensures AddrAt(Indirect(i), e) == Addr(i, NDIRECT + 1 + e)
  {
    hide Addr, ByteOf;
    var v := Addr(i, NDIRECT + 1 + e);
    IndirectByte(i, e, 0);
    IndirectByte(i, e, 1);
    IndirectByte(i, e, 2);
    IndirectByte(i, e, 3);
    hide Indirect;
    WordBytes(v);
  }

  lemma IndirectByte(i: nat, e: nat, k: nat)
    requires e < NINDIRECT && k < 4
    ensures Indirect(i)[4 * e + k] == ByteOf(Addr(i, NDIRECT + 1 + e), k)
  {
    hide Addr, ByteOf;
    assert (4 * e + k) / 4 == e && (4 * e + k) % 4 == k;
  }

  lemma WordBytes(v: Word)
    ensures (ByteOf(v, 0) as int) + 256 * (ByteOf(v, 1) as int) + 65536 * (ByteOf(v, 2) as int)
              + 16777216 * (ByteOf(v, 3) as int) == v
  {
    assert v == v / 256 * 256 + v % 256;
    Digits(v / 256);
    assert v / 65536 == v / 256 / 256 && v / 16777216 == v / 256 / 65536;
  }

  lemma Digits(w: nat)
    ensures w == w % 256 + 256 * (w / 256 % 256) + 65536 * (w / 65536)
  {
    assert w / 65536 == w / 256 / 256;
  }

  /** A block of the free map with every bit set but the last. */
  function AlmostFull(): Block {
    seq(BSIZE, k => if k == BSIZE - 1 then 127 else 255)
  }

  lemma {:induction false} Ones(x: nat, w: nat, k: nat)
    requires x == Mask(w) - 1 && k <= w
    ensures Bit(x, k) <==> k < w
  {
    if w > 0 {
      assert x == 2 * (Mask(w - 1) - 1) + 1;
    }
    if k > 0 {
      Ones(Mask(w - 1) - 1, w - 1, k - 1);
    }
  }

  lemma AlmostFullBits(bi: nat)
    requires bi < BPB
    ensures BitOf(AlmostFull(), bi) <==> bi != 8191
  {
    assert Mask(3) == 8 && Mask(6) == 64 && Mask(7) == 128 && Mask(8) == 256;
    Ones(127, 7, if bi % 8 < 7 then bi % 8 else 7);
    Ones(255, 8, bi % 8);
  }

  function Contents(b: nat): Block {
    if 41 <= b < 46 then AlmostFull()
    else if b >= 46 && !IsFree(b) && Rank(b) >= 12 && (Rank(b) - 12) % 269 == NDIRECT
    then Indirect(2 + (Rank(b) - 12) / 269)
    else Zeros()
  }

  function Blocks(): seq<Block> {
    seq(32768, b requires 0 <= b < 32768 => Contents(b))
  }

  function FileSize(i: nat): nat {
    if Slots(i) <= NDIRECT then Slots(i) * BSIZE else (Slots(i) - 1) * BSIZE
  }

  function InodeOf(i: nat): (x: Inode)
    ensures x.size == FileSize(i) && forall s | 0 <= s <= NDIRECT :: x.addrs[s] == Addr(i, s)
  {
    var used := if Slots(i) > 0 then 1 else 0;
    RawInode.Inode(2 * used, 0, 0, used, FileSize(i), seq(NDIRECT + 1, s requires 0 <= s <= NDIRECT => Addr(i, s)))
  }

  function Inodes(): (ms: seq<Inode>)
    ensures |ms| == 128
    ensures forall i | 0 <= i < 128 :: ms[i].size == FileSize(i) && forall s | 0 <= s <= NDIRECT ::
      ms[i].addrs[s] == Addr(i, s)
  {
    seq(128, i requires 0 <= i < 128 => InodeOf(i))
  }

  ghost function Owners(): Owner {
    map b: nat | 46 <= b < 32768 && !IsFree(b) :: if Rank(b) >= 0 then FileOf(Rank(b)) else (0, 0)
  }

  lemma IndirectBlock(i: nat)
    requires Slots(i) > NDIRECT + 1
    ensures 0 < Addr(i, NDIRECT) < 32768 && Blocks()[Addr(i, NDIRECT)] == Indirect(i)
  {
    RankOfBlock(First(i) + NDIRECT);
    FileOfSlot(i, NDIRECT);
    hide Indirect, Zeros, AlmostFull, BlockAt, Rank, IsFree;
  }

  lemma SlotIs(i: nat, s: nat)
    requires i < 128 && s < NSLOTS
    ensures SlotAddr(Blocks(), Inodes()[i], s) == Addr(i, s)
  {
    hide Indirect, Blocks;
    var bs := Blocks();
    BlocksSize();
    if s > NDIRECT {
      if Slots(i) > NDIRECT + 1 {
        IndirectBlock(i);
        IndirectAt(i, s - NDIRECT - 1);
      } else {
        assert Addr(i, NDIRECT) == 0;
      }
    }
  }

  lemma BlocksSize()
    ensures |Blocks()| == 32768
  {
    hide Indirect, Zeros, AlmostFull;
  }

  lemma UsedIs(b: nat)
    requires b < 32768 && |Blocks()| == 32768
    ensures SuperOk(SB) && DataStart(SB) == 46 && (Used(SB, Blocks(), b) <==> !IsFree(b))
  {
    hide Indirect, Zeros, Rank, BitOf, AlmostFull;
    AlmostFullBits(b % BPB);
    assert Blocks()[BBlock(SB, b)] == AlmostFull();
  }

  /** On this disk every block is accounted for, and no file has a hole. */
  lemma FullDiskConserved()
    ensures |Blocks()| == 32768 && Conserved(SB, Blocks(), Inodes(), Owners(), {})
    ensures forall i | 0 <= i < 128 :: NoHoles(Blocks(), Inodes()[i])
  {
    hide Blocks, Used, SlotAddr, BlockAt, Rank, FileOf, IsFree;
    BlocksSize();
    var bs, ms, own := Blocks(), Inodes(), Owners();
    forall i, s | 0 <= i < 128 && 0 <= s < NSLOTS ensures SlotAddr(bs, ms[i], s) == Addr(i, s) {
      SlotIs(i, s);
    }
    forall b: nat | b < 32768 ensures SuperOk(SB) && DataStart(SB) == 46 && (Used(SB, bs, b) <==> !IsFree(b)) {
      UsedIs(b);
    }
    forall b: nat | b < 46 ensures !IsFree(b) {
      LowUsed(b);
    }
    forall b | b in own
      ensures 46 <= b < 32768 && own[b].0 < 128 && own[b].1 < NSLOTS && Addr(own[b].0, own[b].1) == b
    {
      Held1(b);
    }
    forall i, s | 0 <= i < 128 && 0 <= s < NSLOTS && Addr(i, s) != 0
      ensures Addr(i, s) in own && own[Addr(i, s)] == (i, s)
    {
      Held2(i, s);
    }
    forall i, bn: nat | 0 <= i < 128 && bn < MAXFILE && bn * BSIZE < FileSize(i) ensures Addr(i, SlotOf(bn)) != 0 {
      Filled(i, bn);
    }
  }

  lemma LowUsed(b: nat)
    requires b < 46
    ensures !IsFree(b)
  {}

  lemma Held1(b: nat)
    requires b in Owners()
    ensures 46 <= b < 32768 && var x := Owners()[b]; x.0 < 128 && x.1 < NSLOTS && Addr(x.0, x.1) == b
  {
    hide BlockAt, Rank, IsFree;
    BlockOfRank(b);
    SlotOfFile(Rank(b));
  }

  lemma Held2(i: nat, s: nat)
    requires i < 128 && s < NSLOTS && Addr(i, s) != 0
    ensures Addr(i, s) in Owners() && Owners()[Addr(i, s)] == (i, s)
  {
    hide BlockAt, Rank, IsFree, FileOf;
    FileOfSlot(i, s);
    RankOfBlock(First(i) + s);
  }

  lemma Filled(i: nat, bn: nat)
    requires i < 128 && bn < MAXFILE && bn * BSIZE < FileSize(i)
    ensures Addr(i, SlotOf(bn)) != 0
  {}

  /** The condition under which a transaction logs MAXOPBLOCKS blocks is met. */
  lemma FullDiskWorstCase()
    ensures |Blocks()| == SB.size && SuperOk(SB) && WorstCase(SB, Blocks(), Inodes()[1], 11 * BSIZE + 1, CHUNK)
  {
    hide Blocks, Used;
    BlocksSize();
    UsedIs(0);
    forall b: nat | b < 32768 ensures b in FreeBlocks(SB, Blocks()) <==> b in FREE {
      UsedIs(b);
      FreeIs(b);
    }
    assert FourMaps(SB, FREE);
    assert LowestFree(SB, Blocks(), FREE);
  }

  lemma FreeIs(b: nat)
    requires b < 32768
    ensures IsFree(b) <==> b in FREE
  {}

  /** One chunk on this disk: it succeeds and logs exactly MAXOPBLOCKS blocks. */
  method FullChunk(src: seq<byte>) returns (r: int, ok: bool, ghost logged: set<nat>)
    requires |src| == CHUNK
    ensures ok && r == CHUNK && |logged| == MAXOPBLOCKS
  {
    hide Conserved, NoHoles, WorstCase, Blocks, Inodes, Content, OthersSame, FreeBlocks, Needs;
    FullDiskConserved();
    FullDiskWorstCase();
    var fs := new FileSystem(SB, Blocks(), Inodes(), Owners());
    assert Inodes()[1].size == FileSize(1);
    var f := new File(fs, 1, 11 * BSIZE + 1);
    r, ok, logged := f.Transaction(src, |src|);
  }
}
