/** The on-disk layout that kernel/fs.c works on: bitmap bits, block addresses inside an indirect block,
    and the block map of an inode. */
module FsLayout {
  const BSIZE: nat := 1024
  const NDIRECT: nat := 12
  const NINDIRECT: nat := 256       // BSIZE / sizeof(uint)
  const MAXFILE: nat := NDIRECT + NINDIRECT
  const BPB: nat := 8192            // bitmap bits per block
  const IPB: nat := 16              // inodes per block
  const UINT: nat := 0x1_0000_0000  // one past the largest uint

  type byte = x: int | 0 <= x < 256
  type Block = b: seq<byte> | |b| == BSIZE witness seq(BSIZE, _ => 0)
  type Word = x: int | 0 <= x < 0x1_0000_0000

  /** memset(data, 0, BSIZE) */
  function Zeros(): (z: Block)
    ensures forall i | 0 <= i < BSIZE :: z[i] == 0
  {
    seq(BSIZE, _ => 0)
  }

  // ----- bits -----

  /** 1 << k */
  function Mask(k: nat): (m: nat)
    ensures m >= 1
  {
    if k == 0 then 1 else 2 * Mask(k - 1)
  }

  /** (x & (1 << k)) != 0 */
  predicate Bit(x: nat, k: nat) {
    if k == 0 then x % 2 == 1 else Bit(x / 2, k - 1)
  }

  lemma HalfBits(h: nat, low: nat)
    requires low < 2
    ensures var x := 2 * h + low; forall j: nat :: Bit(x, j) == if j == 0 then low == 1 else Bit(h, j - 1)
  {
    assert (2 * h + low) / 2 == h;
  }

  /** x | (1 << k), for a clear bit of a number of `w` bits. */
  function SetBit(x: nat, k: nat, w: nat): (y: nat)
    requires !Bit(x, k) && k < w && x < Mask(w)
    ensures y == x + Mask(k) && y < Mask(w)
    ensures forall j: nat :: Bit(y, j) == (j == k || Bit(x, j))
    decreases k
  {
    if k == 0 then x + 1 else
    var h := SetBit(x / 2, k - 1, w - 1);
    HalfBits(h, x % 2);
    HalfBits(x / 2, x % 2);
    2 * h + x % 2
  }

  /** x & ~(1 << k), for a set bit. */
  function ClearBit(x: nat, k: nat): (y: nat)
    requires Bit(x, k)
    ensures y + Mask(k) == x
    ensures forall j: nat :: Bit(y, j) == (j != k && Bit(x, j))
    decreases k
  {
    if k == 0 then x - 1 else
    var h := ClearBit(x / 2, k - 1);
    HalfBits(h, x % 2);
    HalfBits(x / 2, x % 2);
    2 * h + x % 2
  }

  /** Bit number `bi` of a bitmap block. */
  predicate BitOf(blk: Block, bi: nat)
    requires bi < BPB
  {
    Bit(blk[bi / 8], bi % 8)
  }

  function SetBitOf(blk: Block, bi: nat): (r: Block)
    requires bi < BPB && !BitOf(blk, bi)
    ensures forall j: nat | j < BPB :: BitOf(r, j) == (j == bi || BitOf(blk, j))
  {
    blk[bi / 8 := SetBit(blk[bi / 8], bi % 8, 8)]
  }

  function ClearBitOf(blk: Block, bi: nat): (r: Block)
    requires bi < BPB && BitOf(blk, bi)
    ensures forall j: nat | j < BPB :: BitOf(r, j) == (j != bi && BitOf(blk, j))
  {
    blk[bi / 8 := ClearBit(blk[bi / 8], bi % 8)]
  }

  // ----- addresses -----

  /** Entry `j` of an indirect block, a little-endian uint. */
  function AddrAt(blk: Block, j: nat): Word
    requires j < NINDIRECT
  {
    (blk[4 * j] as int) + 256 * (blk[4 * j + 1] as int) + 65536 * (blk[4 * j + 2] as int)
    + 16777216 * (blk[4 * j + 3] as int)
  }

  function PutAddr(blk: Block, j: nat, v: Word): (r: Block)
    requires j < NINDIRECT
    ensures AddrAt(r, j) == v
    ensures forall k: nat | k < NINDIRECT && k != j :: AddrAt(r, k) == AddrAt(blk, k)
  {
    WordBytes(v);
    blk[4 * j := v % 256][4 * j + 1 := v / 256 % 256][4 * j + 2 := v / 65536 % 256][4 * j + 3 := v / 16777216]
  }

  lemma WordBytes(v: Word)
    ensures v / 16777216 < 256
    ensures v % 256 + 256 * (v / 256 % 256) + 65536 * (v / 65536 % 256) + 16777216 * (v / 16777216) == v
  {
    assert v / 256 / 256 == v / 65536 && v / 65536 / 256 == v / 16777216;
  }

  lemma ZeroAddrs(j: nat)
    requires j < NINDIRECT
    ensures AddrAt(Zeros(), j) == 0
  {}
}
