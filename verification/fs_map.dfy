/** Which inode holds which block: the free map, the direct addresses and the indirect blocks together.

    `owner` inverts the block maps: it names, for each block that some inode holds, the inode and the slot
    that hold it. `loose` holds the blocks that balloc() has handed out and nobody has recorded yet. */
module FsMap {
  import opened FsLayout

  datatype Super = Super(size: nat, ninodes: nat, inodestart: nat, bmapstart: nat)

  /** The first block after the free map. */
  function DataStart(sb: Super): nat {
    sb.bmapstart + sb.size / BPB + 1
  }

  predicate SuperOk(sb: Super) {
    && 0 < DataStart(sb) <= sb.size < UINT
    && sb.inodestart + sb.ninodes / IPB + 1 <= sb.bmapstart
  }

  /** The block of the free map that holds the bit of block b. */
  function BBlock(sb: Super, b: nat): nat {
    b / BPB + sb.bmapstart
  }

  /** The block that holds inode i. */
  function IBlock(sb: Super, i: nat): nat {
    i / IPB + sb.inodestart
  }

  datatype RawInode = Inode(typ: int, major: int, minor: int, nlink: int, size: nat, addrs: seq<nat>)

  type Inode = i: RawInode | |i.addrs| == NDIRECT + 1 witness RawInode.Inode(0, 0, 0, 0, 0, seq(NDIRECT + 1, _ => 0))

  /** Slot 0..11: a direct block. Slot 12: the indirect block. Slot 13 on: the entries of the indirect block. */
  const NSLOTS: nat := NDIRECT + 1 + NINDIRECT

  function SlotAddr(blocks: seq<Block>, ino: Inode, s: nat): nat
    requires s < NSLOTS
  {
    if s <= NDIRECT then ino.addrs[s]
    else if 0 < ino.addrs[NDIRECT] < |blocks| then AddrAt(blocks[ino.addrs[NDIRECT]], s - NDIRECT - 1)
    else 0
  }

  /** The slot of the bn-th block of a file. */
  function SlotOf(bn: nat): nat {
    if bn < NDIRECT then bn else bn + 1
  }

  predicate Used(sb: Super, blocks: seq<Block>, b: nat)
    requires SuperOk(sb) && |blocks| == sb.size && b < sb.size
  {
    BitOf(blocks[BBlock(sb, b)], b % BPB)
  }

  type Owner = map<nat, (nat, nat)>

  ghost predicate OwnerOk(sb: Super, blocks: seq<Block>, mem: seq<Inode>, owner: Owner) {
    forall b | b in owner ::
      && DataStart(sb) <= b < sb.size && owner[b].0 < |mem| && owner[b].1 < NSLOTS
      && SlotAddr(blocks, mem[owner[b].0], owner[b].1) == b
  }

  ghost predicate SlotsOk(blocks: seq<Block>, mem: seq<Inode>, owner: Owner) {
    forall i, s | 0 <= i < |mem| && 0 <= s < NSLOTS && SlotAddr(blocks, mem[i], s) != 0 ::
      SlotAddr(blocks, mem[i], s) in owner && owner[SlotAddr(blocks, mem[i], s)] == (i, s)
  }

  ghost predicate BitsOk(sb: Super, blocks: seq<Block>, owner: Owner, loose: set<nat>)
    requires SuperOk(sb) && |blocks| == sb.size
  {
    && (forall b: nat | b < sb.size :: Used(sb, blocks, b) <==> b < DataStart(sb) || b in owner || b in loose)
    && (forall b | b in loose :: DataStart(sb) <= b < sb.size && b !in owner)
  }

  /** The set bits of the free map are exactly the metadata blocks, the blocks that inodes hold and the
      loose blocks, and no block is held twice. */
  ghost predicate Conserved(sb: Super, blocks: seq<Block>, mem: seq<Inode>, owner: Owner, loose: set<nat>) {
    && SuperOk(sb) && |blocks| == sb.size
    && OwnerOk(sb, blocks, mem, owner)
    && SlotsOk(blocks, mem, owner)
    && BitsOk(sb, blocks, owner, loose)
  }

  /** What the property means without the inverse: no two slots hold the same block, every held block is a
      data block whose bit is set, and a data block whose bit is set is held or loose. */
  lemma ConservedMeans(sb: Super, blocks: seq<Block>, mem: seq<Inode>, owner: Owner)
    requires Conserved(sb, blocks, mem, owner, {})
    ensures forall i, s, j, t | 0 <= i < |mem| && 0 <= s < NSLOTS && 0 <= j < |mem| && 0 <= t < NSLOTS
      && SlotAddr(blocks, mem[i], s) == SlotAddr(blocks, mem[j], t) != 0 :: i == j && s == t
    ensures forall i, s | 0 <= i < |mem| && 0 <= s < NSLOTS && SlotAddr(blocks, mem[i], s) != 0 ::
      DataStart(sb) <= SlotAddr(blocks, mem[i], s) < sb.size && Used(sb, blocks, SlotAddr(blocks, mem[i], s))
    ensures forall b: nat | DataStart(sb) <= b < sb.size && Used(sb, blocks, b) ::
      exists i, s :: 0 <= i < |mem| && 0 <= s < NSLOTS && SlotAddr(blocks, mem[i], s) == b
  {
    forall b: nat | DataStart(sb) <= b < sb.size && Used(sb, blocks, b)
      ensures exists i, s :: 0 <= i < |mem| && 0 <= s < NSLOTS && SlotAddr(blocks, mem[i], s) == b
    {
      assert SlotAddr(blocks, mem[owner[b].0], owner[b].1) == b;
    }
  }

  // ----- bits -----

  lemma BBlockOk(sb: Super, b: nat)
    requires SuperOk(sb) && b < sb.size
    ensures sb.bmapstart <= BBlock(sb, b) < DataStart(sb) && b % BPB < BPB
  {}

  lemma SameBBlock(sb: Super, b: nat, c: nat)
    requires BBlock(sb, b) == BBlock(sb, c) && b % BPB == c % BPB
    ensures b == c
  {}

  function SetUsed(sb: Super, blocks: seq<Block>, b: nat): (r: seq<Block>)
    requires SuperOk(sb) && |blocks| == sb.size && b < sb.size && !Used(sb, blocks, b)
    ensures |r| == |blocks|
  {
    blocks[BBlock(sb, b) := SetBitOf(blocks[BBlock(sb, b)], b % BPB)]
  }

  lemma SetUsedBits(sb: Super, blocks: seq<Block>, b: nat)
    requires SuperOk(sb) && |blocks| == sb.size && b < sb.size && !Used(sb, blocks, b)
    ensures forall c: nat | c < sb.size :: Used(sb, SetUsed(sb, blocks, b), c) == (c == b || Used(sb, blocks, c))
  {
    var r := SetUsed(sb, blocks, b);
    forall c: nat | c < sb.size ensures Used(sb, r, c) == (c == b || Used(sb, blocks, c)) {
      BBlockOk(sb, c);
      if BBlock(sb, c) == BBlock(sb, b) && c % BPB == b % BPB { SameBBlock(sb, b, c); }
    }
  }

  function ClearUsed(sb: Super, blocks: seq<Block>, b: nat): (r: seq<Block>)
    requires SuperOk(sb) && |blocks| == sb.size && b < sb.size && Used(sb, blocks, b)
    ensures |r| == |blocks|
  {
    blocks[BBlock(sb, b) := ClearBitOf(blocks[BBlock(sb, b)], b % BPB)]
  }

  lemma ClearUsedBits(sb: Super, blocks: seq<Block>, b: nat)
    requires SuperOk(sb) && |blocks| == sb.size && b < sb.size && Used(sb, blocks, b)
    ensures forall c: nat | c < sb.size :: Used(sb, ClearUsed(sb, blocks, b), c) == (c != b && Used(sb, blocks, c))
  {
    var r := ClearUsed(sb, blocks, b);
    forall c: nat | c < sb.size ensures Used(sb, r, c) == (c != b && Used(sb, blocks, c)) {
      BBlockOk(sb, c);
      if BBlock(sb, c) == BBlock(sb, b) && c % BPB == b % BPB { SameBBlock(sb, b, c); }
    }
  }

  // ----- which writes leave the block maps alone -----

  ghost predicate SlotsSame(blocks: seq<Block>, after: seq<Block>, mem: seq<Inode>) {
    forall i, s | 0 <= i < |mem| && 0 <= s < NSLOTS :: SlotAddr(after, mem[i], s) == SlotAddr(blocks, mem[i], s)
  }

  /** A block is nobody's indirect block. */
  ghost predicate NotIndirect(mem: seq<Inode>, b: nat) {
    forall i | 0 <= i < |mem| :: mem[i].addrs[NDIRECT] != b
  }

  lemma WriteKeepsSlots(blocks: seq<Block>, mem: seq<Inode>, b: nat, data: Block)
    requires b < |blocks| && NotIndirect(mem, b)
    ensures SlotsSame(blocks, blocks[b := data], mem)
  {}

  lemma SlotsSameKeeps(sb: Super, blocks: seq<Block>, after: seq<Block>, mem: seq<Inode>, owner: Owner)
    requires OwnerOk(sb, blocks, mem, owner) && SlotsOk(blocks, mem, owner) && SlotsSame(blocks, after, mem)
    ensures OwnerOk(sb, after, mem, owner) && SlotsOk(after, mem, owner)
  {}

  lemma MetaNotIndirect(sb: Super, blocks: seq<Block>, mem: seq<Inode>, owner: Owner, b: nat)
    requires OwnerOk(sb, blocks, mem, owner) && SlotsOk(blocks, mem, owner) && 0 < b
    requires b !in owner || owner[b].1 != NDIRECT
    ensures NotIndirect(mem, b)
  {
    forall i | 0 <= i < |mem| ensures mem[i].addrs[NDIRECT] != b {
      assert SlotAddr(blocks, mem[i], NDIRECT) == mem[i].addrs[NDIRECT];
    }
  }

  lemma DataKeepsBits(sb: Super, blocks: seq<Block>, b: nat, data: Block)
    requires SuperOk(sb) && |blocks| == sb.size && DataStart(sb) <= b < sb.size
    ensures forall c: nat | c < sb.size :: Used(sb, blocks[b := data], c) == Used(sb, blocks, c)
  {
    forall c: nat | c < sb.size ensures Used(sb, blocks[b := data], c) == Used(sb, blocks, c) {
      BBlockOk(sb, c);
    }
  }

  // ----- balloc -----

  /** The disk after balloc() has returned block b. */
  function Allocated(sb: Super, blocks: seq<Block>, b: nat): (r: seq<Block>)
    requires SuperOk(sb) && |blocks| == sb.size && b < sb.size && !Used(sb, blocks, b)
    ensures |r| == |blocks|
  {
    SetUsed(sb, blocks, b)[b := Zeros()]
  }

  lemma AllocKeeps(sb: Super, blocks: seq<Block>, mem: seq<Inode>, owner: Owner, loose: set<nat>, b: nat)
    requires Conserved(sb, blocks, mem, owner, loose) && b < sb.size && !Used(sb, blocks, b)
    ensures DataStart(sb) <= b && b !in owner && b !in loose
    ensures SlotsSame(blocks, Allocated(sb, blocks, b), mem)
    ensures Conserved(sb, Allocated(sb, blocks, b), mem, owner, loose + {b})
  {
    var mid := SetUsed(sb, blocks, b);
    var r := Allocated(sb, blocks, b);
    SetUsedBits(sb, blocks, b);
    BBlockOk(sb, b);
    MetaNotIndirect(sb, blocks, mem, owner, b);
    MetaNotIndirect(sb, blocks, mem, owner, BBlock(sb, b));
    WriteKeepsSlots(blocks, mem, BBlock(sb, b), mid[BBlock(sb, b)]);
    WriteKeepsSlots(mid, mem, b, Zeros());
    SlotsSameKeeps(sb, blocks, r, mem, owner);
    AllocBits(sb, blocks, owner, loose, b);
  }

  lemma AllocBits(sb: Super, blocks: seq<Block>, owner: Owner, loose: set<nat>, b: nat)
    requires SuperOk(sb) && |blocks| == sb.size && BitsOk(sb, blocks, owner, loose)
    requires b < sb.size && !Used(sb, blocks, b)
    ensures BitsOk(sb, Allocated(sb, blocks, b), owner, loose + {b})
  {
    hide Used, SetUsed;
    SetUsedBits(sb, blocks, b);
    DataKeepsBits(sb, SetUsed(sb, blocks, b), b, Zeros());
    var r := Allocated(sb, blocks, b);
    assert forall c: nat | c < sb.size :: Used(sb, r, c) == Used(sb, SetUsed(sb, blocks, b), c);
  }

  // ----- recording a loose block in a slot -----

  function WithAddr(ino: Inode, s: nat, b: nat): Inode
    requires s <= NDIRECT
  {
    ino.(addrs := ino.addrs[s := b])
  }

  lemma RecordedSlot(blocks: seq<Block>, ino: Inode, s: nat, b: nat, t: nat)
    requires s <= NDIRECT && t < NSLOTS && SlotAddr(blocks, ino, s) == 0
    requires b < |blocks| && blocks[b] == Zeros()
    ensures SlotAddr(blocks, WithAddr(ino, s, b), t) == if t == s then b else SlotAddr(blocks, ino, t)
  {
    if s == NDIRECT && t > NDIRECT { ZeroAddrs(t - NDIRECT - 1); }
  }

  /** The block maps after one empty slot has been filled with block b. */
  ghost predicate SlotFilled(blocks: seq<Block>, mem: seq<Inode>, after: seq<Block>, mem': seq<Inode>, i: nat, s: nat,
                             b: nat)
  {
    && |mem'| == |mem|
    && forall j, t | 0 <= j < |mem| && 0 <= t < NSLOTS ::
         SlotAddr(after, mem'[j], t) == if j == i && t == s then b else SlotAddr(blocks, mem[j], t)
  }

  lemma FilledKeeps(sb: Super, blocks: seq<Block>, mem: seq<Inode>, after: seq<Block>, mem': seq<Inode>,
                    owner: Owner, i: nat, s: nat, b: nat)
    requires OwnerOk(sb, blocks, mem, owner) && SlotsOk(blocks, mem, owner)
    requires SlotFilled(blocks, mem, after, mem', i, s, b) && i < |mem| && s < NSLOTS
    requires SlotAddr(blocks, mem[i], s) == 0 && b !in owner && DataStart(sb) <= b < sb.size && 0 < b
    ensures OwnerOk(sb, after, mem', owner[b := (i, s)]) && SlotsOk(after, mem', owner[b := (i, s)])
  {
    hide SlotAddr;
  }

  lemma RecordKeeps(sb: Super, blocks: seq<Block>, mem: seq<Inode>, owner: Owner, loose: set<nat>, i: nat, s: nat,
                    b: nat)
    requires Conserved(sb, blocks, mem, owner, loose) && b in loose && b < |blocks| && blocks[b] == Zeros()
    requires i < |mem| && s <= NDIRECT && mem[i].addrs[s] == 0
    ensures Conserved(sb, blocks, mem[i := WithAddr(mem[i], s, b)], owner[b := (i, s)], loose - {b})
    ensures SlotFilled(blocks, mem, blocks, mem[i := WithAddr(mem[i], s, b)], i, s, b)
  {
    var mem' := mem[i := WithAddr(mem[i], s, b)];
    forall j, t | 0 <= j < |mem| && 0 <= t < NSLOTS
      ensures SlotAddr(blocks, mem'[j], t) == if j == i && t == s then b else SlotAddr(blocks, mem[j], t)
    {
      RecordedSlot(blocks, mem[i], s, b, t);
    }
    FilledKeeps(sb, blocks, mem, blocks, mem', owner, i, s, b);
  }

  lemma EntrySlot(blocks: seq<Block>, ino: Inode, e: nat, b: Word, t: nat)
    requires e < NINDIRECT && t < NSLOTS && 0 < ino.addrs[NDIRECT] < |blocks|
    ensures var ind := ino.addrs[NDIRECT]; var after := blocks[ind := PutAddr(blocks[ind], e, b)];
            SlotAddr(after, ino, t) == if t == NDIRECT + 1 + e then b else SlotAddr(blocks, ino, t)
  {}

  lemma EntryFills(blocks: seq<Block>, mem: seq<Inode>, owner: Owner, i: nat, e: nat, b: Word)
    requires SlotsOk(blocks, mem, owner) && i < |mem| && e < NINDIRECT && 0 < mem[i].addrs[NDIRECT] < |blocks|
    ensures var ind := mem[i].addrs[NDIRECT];
            SlotFilled(blocks, mem, blocks[ind := PutAddr(blocks[ind], e, b)], mem, i, NDIRECT + 1 + e, b)
  {
    hide PutAddr, AddrAt;
    var ind := mem[i].addrs[NDIRECT];
    var after := blocks[ind := PutAddr(blocks[ind], e, b)];
    assert owner[SlotAddr(blocks, mem[i], NDIRECT)] == (i, NDIRECT);
    forall j, t | 0 <= j < |mem| && 0 <= t < NSLOTS
      ensures SlotAddr(after, mem[j], t) == if j == i && t == NDIRECT + 1 + e then b else SlotAddr(blocks, mem[j], t)
    {
      if j == i {
        EntrySlot(blocks, mem[i], e, b, t);
      } else {
        assert SlotAddr(blocks, mem[j], NDIRECT) != ind;
      }
    }
  }

  lemma EntryKeeps(sb: Super, blocks: seq<Block>, mem: seq<Inode>, owner: Owner, loose: set<nat>, i: nat, e: nat,
                   b: Word)
    requires Conserved(sb, blocks, mem, owner, loose) && b in loose && i < |mem| && e < NINDIRECT
    requires 0 < mem[i].addrs[NDIRECT] < |blocks| && SlotAddr(blocks, mem[i], NDIRECT + 1 + e) == 0
    ensures var ind := mem[i].addrs[NDIRECT]; var after := blocks[ind := PutAddr(blocks[ind], e, b)];
            Conserved(sb, after, mem, owner[b := (i, NDIRECT + 1 + e)], loose - {b})
  {
    hide PutAddr, SlotFilled, Used;
    var ind := mem[i].addrs[NDIRECT];
    assert SlotAddr(blocks, mem[i], NDIRECT) in owner;
    EntryFills(blocks, mem, owner, i, e, b);
    var after := blocks[ind := PutAddr(blocks[ind], e, b)];
    FilledKeeps(sb, blocks, mem, after, mem, owner, i, NDIRECT + 1 + e, b);
    DataKeepsBits(sb, blocks, ind, PutAddr(blocks[ind], e, b));
    assert forall c: nat | c < sb.size :: Used(sb, after, c) == Used(sb, blocks, c);
  }

  // ----- file bytes -----

  const MAXBYTES: nat := MAXFILE * BSIZE

  /** Byte k of a file, for every k that a file can reach; a hole reads as zero. */
  function ByteAt(blocks: seq<Block>, ino: Inode, k: nat): byte
    requires k < MAXBYTES
  {
    var a := SlotAddr(blocks, ino, SlotOf(k / BSIZE));
    if 0 < a < |blocks| then blocks[a][k % BSIZE] else 0
  }

  ghost predicate BytesSame(blocks: seq<Block>, mem: seq<Inode>, after: seq<Block>, mem': seq<Inode>) {
    && |mem'| == |mem|
    && forall j, k | 0 <= j < |mem| && 0 <= k < MAXBYTES :: ByteAt(after, mem'[j], k) == ByteAt(blocks, mem[j], k)
  }

  lemma SameBytes(blocks: seq<Block>, x: Inode, after: seq<Block>, y: Inode, k: nat)
    requires k < MAXBYTES && |after| == |blocks|
    requires var s := SlotOf(k / BSIZE); var a := SlotAddr(blocks, x, s); var b := SlotAddr(after, y, s);
      || (a == b && (0 < a < |blocks| ==> after[a] == blocks[a]))
      || (a == 0 && 0 < b < |blocks| && after[b] == Zeros())
    ensures ByteAt(after, y, k) == ByteAt(blocks, x, k)
  {}

  lemma AllocBytes(sb: Super, blocks: seq<Block>, mem: seq<Inode>, owner: Owner, loose: set<nat>, b: nat)
    requires Conserved(sb, blocks, mem, owner, loose) && b < sb.size && !Used(sb, blocks, b)
    ensures BytesSame(blocks, mem, Allocated(sb, blocks, b), mem)
  {
    var r := Allocated(sb, blocks, b);
    AllocKeeps(sb, blocks, mem, owner, loose, b);
    BBlockOk(sb, b);
    forall j, k | 0 <= j < |mem| && 0 <= k < MAXBYTES ensures ByteAt(r, mem[j], k) == ByteAt(blocks, mem[j], k) {
      var s := SlotOf(k / BSIZE);
      assert SlotAddr(r, mem[j], s) == SlotAddr(blocks, mem[j], s);
      SameBytes(blocks, mem[j], r, mem[j], k);
    }
  }

  lemma FilledBytes(sb: Super, blocks: seq<Block>, mem: seq<Inode>, after: seq<Block>, mem': seq<Inode>,
                    owner: Owner, i: nat, s: nat, b: nat, wrote: nat)
    requires OwnerOk(sb, blocks, mem, owner) && SlotsOk(blocks, mem, owner) && |after| == |blocks|
    requires SlotFilled(blocks, mem, after, mem', i, s, b) && i < |mem| && s < NSLOTS
    requires SlotAddr(blocks, mem[i], s) == 0 && 0 < b < |blocks| && after[b] == Zeros()
    requires forall c | 0 <= c < |blocks| && c != wrote :: after[c] == blocks[c]
    requires wrote == 0 || (wrote in owner && owner[wrote].1 == NDIRECT)
    ensures BytesSame(blocks, mem, after, mem')
  {
    forall j, k | 0 <= j < |mem| && 0 <= k < MAXBYTES ensures ByteAt(after, mem'[j], k) == ByteAt(blocks, mem[j], k) {
      var t := SlotOf(k / BSIZE);
      assert t != NDIRECT && t < NSLOTS;
      var a := SlotAddr(blocks, mem[j], t);
      assert SlotAddr(after, mem'[j], t) == if j == i && t == s then b else a;
      assert a != 0 ==> a != wrote;
      SameBytes(blocks, mem[j], after, mem'[j], k);
    }
  }

  // ----- writing into a data block -----

  /** The disk after block data of slot s of inode i has been replaced. */
  lemma DataKeeps(sb: Super, blocks: seq<Block>, mem: seq<Inode>, owner: Owner, loose: set<nat>, i: nat, s: nat,
                  data: Block)
    requires Conserved(sb, blocks, mem, owner, loose) && i < |mem| && s < NSLOTS && s != NDIRECT
    requires SlotAddr(blocks, mem[i], s) != 0
    ensures var a := SlotAddr(blocks, mem[i], s);
      && a < |blocks| && SlotsSame(blocks, blocks[a := data], mem)
      && Conserved(sb, blocks[a := data], mem, owner, loose)
  {
    var a := SlotAddr(blocks, mem[i], s);
    var after := blocks[a := data];
    assert a in owner && owner[a] == (i, s);
    hide SlotAddr, Used;
    MetaNotIndirect(sb, blocks, mem, owner, a);
    WriteKeepsSlots(blocks, mem, a, data);
    SlotsSameKeeps(sb, blocks, after, mem, owner);
    hide OwnerOk, SlotsOk, SlotsSame;
    DataKeepsBits(sb, blocks, a, data);
    assert BitsOk(sb, after, owner, loose) by {
      forall c: nat | c < sb.size ensures Used(sb, after, c) <==> c < DataStart(sb) || c in owner || c in loose {
        assert Used(sb, after, c) == Used(sb, blocks, c);
      }
    }
  }

  lemma DataBytes(sb: Super, blocks: seq<Block>, mem: seq<Inode>, owner: Owner, loose: set<nat>, i: nat, s: nat,
                  data: Block, j: nat, k: nat)
    requires Conserved(sb, blocks, mem, owner, loose) && i < |mem| && s < NSLOTS && s != NDIRECT
    requires SlotAddr(blocks, mem[i], s) != 0 && j < |mem| && k < MAXBYTES
    ensures var a := SlotAddr(blocks, mem[i], s);
      && a < |blocks|
      && ByteAt(blocks[a := data], mem[j], k)
         == if j == i && SlotOf(k / BSIZE) == s then data[k % BSIZE] else ByteAt(blocks, mem[j], k)
  {
    hide SlotAddr;
    DataKeeps(sb, blocks, mem, owner, loose, i, s, data);
    var a := SlotAddr(blocks, mem[i], s);
    var t := SlotOf(k / BSIZE);
    assert SlotAddr(blocks[a := data], mem[j], t) == SlotAddr(blocks, mem[j], t);
    assert owner[a] == (i, s);
  }

  // ----- bfree and itrunc -----

  /** `after` is `blocks` with the bits of the blocks in `freed` cleared. */
  ghost predicate FreedBits(sb: Super, blocks: seq<Block>, after: seq<Block>, freed: set<nat>)
    requires SuperOk(sb) && |blocks| == sb.size
  {
    && |after| == |blocks|
    && (forall c | DataStart(sb) <= c < sb.size :: after[c] == blocks[c])
    && (forall c: nat | c < sb.size :: Used(sb, after, c) == (Used(sb, blocks, c) && c !in freed))
  }

  lemma FreeOneMore(sb: Super, blocks: seq<Block>, after: seq<Block>, freed: set<nat>, b: nat)
    requires SuperOk(sb) && |blocks| == sb.size && FreedBits(sb, blocks, after, freed)
    requires b < sb.size && Used(sb, after, b)
    ensures FreedBits(sb, blocks, ClearUsed(sb, after, b), freed + {b})
  {
    hide Used;
    ClearUsedBits(sb, after, b);
    BBlockOk(sb, b);
  }

  /** The blocks that the slots in `ss` of an inode hold. */
  ghost function Held(blocks: seq<Block>, ino: Inode, ss: set<nat>): set<nat> {
    set s | s in ss && s < NSLOTS && SlotAddr(blocks, ino, s) != 0 :: SlotAddr(blocks, ino, s)
  }

  lemma HeldMore(blocks: seq<Block>, ino: Inode, ss: set<nat>, s: nat)
    requires s < NSLOTS
    ensures Held(blocks, ino, ss + {s})
         == Held(blocks, ino, ss) + if SlotAddr(blocks, ino, s) == 0 then {} else {SlotAddr(blocks, ino, s)}
  {
    hide SlotAddr;
  }

  const ALLSLOTS: set<nat> := set s: nat | s < NSLOTS
  const DIRECTSLOTS: set<nat> := set s: nat | s < NDIRECT

  /** An inode that holds nothing. */
  function Emptied(ino: Inode): Inode {
    ino.(size := 0, addrs := [0, 0, 0, 0, 0, 0, 0, 0, 0, 0, 0, 0, 0])
  }

  ghost function Disowned(owner: Owner, i: nat): Owner {
    map b | b in owner && owner[b].0 != i :: owner[b]
  }

  lemma SlotFrame(sb: Super, blocks: seq<Block>, after: seq<Block>, mem: seq<Inode>, owner: Owner, j: nat, s: nat)
    requires OwnerOk(sb, blocks, mem, owner) && SlotsOk(blocks, mem, owner) && |blocks| == |after| == sb.size
    requires forall c | DataStart(sb) <= c < sb.size :: after[c] == blocks[c]
    requires j < |mem| && s < NSLOTS
    ensures SlotAddr(after, mem[j], s) == SlotAddr(blocks, mem[j], s)
  {
    assert SlotAddr(blocks, mem[j], NDIRECT) == mem[j].addrs[NDIRECT];
  }

  lemma HeldIsOwned(sb: Super, blocks: seq<Block>, mem: seq<Inode>, owner: Owner, i: nat, b: nat)
    requires OwnerOk(sb, blocks, mem, owner) && SlotsOk(blocks, mem, owner) && i < |mem|
    ensures b in Held(blocks, mem[i], ALLSLOTS) <==> b in owner && owner[b].0 == i && b != 0
  {
    hide SlotAddr;
    if b in owner && owner[b].0 == i && b != 0 {
      assert owner[b].1 in ALLSLOTS;
    }
  }

  lemma EmptiedSlots(blocks: seq<Block>, ino: Inode, s: nat)
    requires s < NSLOTS
    ensures SlotAddr(blocks, Emptied(ino), s) == 0
  {}

  lemma TruncSlots(sb: Super, blocks: seq<Block>, mem: seq<Inode>, after: seq<Block>, owner: Owner, i: nat)
    requires OwnerOk(sb, blocks, mem, owner) && SlotsOk(blocks, mem, owner) && |blocks| == |after| == sb.size
    requires forall c | DataStart(sb) <= c < sb.size :: after[c] == blocks[c]
    requires i < |mem|
    ensures OwnerOk(sb, after, mem[i := Emptied(mem[i])], Disowned(owner, i))
    ensures SlotsOk(after, mem[i := Emptied(mem[i])], Disowned(owner, i))
  {
    hide SlotAddr;
    var mem' := mem[i := Emptied(mem[i])];
    forall j, s | 0 <= j < |mem| && 0 <= s < NSLOTS
      ensures SlotAddr(after, mem'[j], s) == if j == i then 0 else SlotAddr(blocks, mem[j], s)
    {
      if j == i { EmptiedSlots(after, mem[i], s); } else { SlotFrame(sb, blocks, after, mem, owner, j, s); }
    }
  }

  /** itrunc() returns exactly the blocks of its inode to the free map. */
  lemma TruncKeeps(sb: Super, blocks: seq<Block>, mem: seq<Inode>, owner: Owner, loose: set<nat>, after: seq<Block>,
                   i: nat)
    requires Conserved(sb, blocks, mem, owner, loose) && i < |mem|
    requires FreedBits(sb, blocks, after, Held(blocks, mem[i], ALLSLOTS))
    ensures Conserved(sb, after, mem[i := Emptied(mem[i])], Disowned(owner, i), loose)
  {
    hide Used, SlotAddr, Held, OwnerOk, SlotsOk;
    TruncSlots(sb, blocks, mem, after, owner, i);
    assert 0 !in owner by { ZeroNotOwned(sb, blocks, mem, owner); }
    forall c: nat | c < sb.size
      ensures Used(sb, after, c) <==> c < DataStart(sb) || c in Disowned(owner, i) || c in loose
    {
      HeldIsOwned(sb, blocks, mem, owner, i, c);
      OwnedIsData(sb, blocks, mem, owner, c);
    }
  }

  lemma ZeroNotOwned(sb: Super, blocks: seq<Block>, mem: seq<Inode>, owner: Owner)
    requires OwnerOk(sb, blocks, mem, owner) && SuperOk(sb)
    ensures 0 !in owner
  {}

  lemma OwnedIsData(sb: Super, blocks: seq<Block>, mem: seq<Inode>, owner: Owner, b: nat)
    requires OwnerOk(sb, blocks, mem, owner) && SuperOk(sb)
    ensures b in owner ==> DataStart(sb) <= b < sb.size
  {}

  /** Only the file of the truncated inode changes. */
  lemma TruncBytes(sb: Super, blocks: seq<Block>, mem: seq<Inode>, owner: Owner, after: seq<Block>, j: nat, k: nat)
    requires OwnerOk(sb, blocks, mem, owner) && SlotsOk(blocks, mem, owner) && |blocks| == |after| == sb.size
    requires forall c | DataStart(sb) <= c < sb.size :: after[c] == blocks[c]
    requires j < |mem| && k < MAXBYTES
    ensures ByteAt(after, mem[j], k) == ByteAt(blocks, mem[j], k)
  {
    var s := SlotOf(k / BSIZE);
    SlotFrame(sb, blocks, after, mem, owner, j, s);
    SameBytes(blocks, mem[j], after, mem[j], k);
  }

  // ----- growing the block map of one file -----

  /** Block maps after slots of inode i that were empty may have been filled: no file has changed. */
  ghost predicate Grown(blocks: seq<Block>, mem: seq<Inode>, after: seq<Block>, mem': seq<Inode>, i: nat) {
    && |mem'| == |mem| && i < |mem|
    && (forall j | 0 <= j < |mem| && j != i :: mem'[j] == mem[j])
    && mem'[i] == mem[i].(addrs := mem'[i].addrs)
    && (forall t: nat | t < NSLOTS && SlotAddr(blocks, mem[i], t) != 0 ::
          SlotAddr(after, mem'[i], t) == SlotAddr(blocks, mem[i], t))
    && BytesSame(blocks, mem, after, mem')
  }

  lemma GrownTwice(b0: seq<Block>, m0: seq<Inode>, b1: seq<Block>, m1: seq<Inode>, b2: seq<Block>, m2: seq<Inode>,
                   i: nat)
    requires Grown(b0, m0, b1, m1, i) && Grown(b1, m1, b2, m2, i)
    ensures Grown(b0, m0, b2, m2, i)
  {
    hide SlotAddr, ByteAt;
  }

  /** balloc() and recording its block in direct or indirect slot s. */
  lemma AllocSlotGrows(sb: Super, blocks: seq<Block>, mem: seq<Inode>, owner: Owner, loose: set<nat>, b: nat, i: nat,
                       s: nat)
    requires Conserved(sb, blocks, mem, owner, loose) && b < sb.size && !Used(sb, blocks, b)
    requires i < |mem| && s <= NDIRECT && mem[i].addrs[s] == 0
    ensures var after := Allocated(sb, blocks, b); var mem' := mem[i := WithAddr(mem[i], s, b)];
      && Conserved(sb, after, mem', owner[b := (i, s)], loose + {b} - {b})
      && Grown(blocks, mem, after, mem', i) && SlotFilled(blocks, mem, after, mem', i, s, b) && b > 0
  {
    hide SlotAddr, ByteAt, Used;
    var after := Allocated(sb, blocks, b);
    AllocKeeps(sb, blocks, mem, owner, loose, b);
    AllocBytes(sb, blocks, mem, owner, loose, b);
    AllocZero(sb, blocks, b);
    RecordKeeps(sb, after, mem, owner, loose + {b}, i, s, b);
    DirectSlot(after, mem[i], s);
    FilledBytes(sb, after, mem, after, mem[i := WithAddr(mem[i], s, b)], owner, i, s, b, 0);
    DirectSlot(blocks, mem[i], s);
  }

  lemma AllocZero(sb: Super, blocks: seq<Block>, b: nat)
    requires SuperOk(sb) && |blocks| == sb.size && b < sb.size && !Used(sb, blocks, b)
    ensures Allocated(sb, blocks, b)[b] == Zeros()
  {}

  lemma DirectSlot(blocks: seq<Block>, ino: Inode, s: nat)
    requires s <= NDIRECT
    ensures SlotAddr(blocks, ino, s) == ino.addrs[s]
  {}

  /** balloc() and recording its block in entry e of the indirect block. */
  lemma AllocEntryGrows(sb: Super, blocks: seq<Block>, mem: seq<Inode>, owner: Owner, loose: set<nat>, b: nat, i: nat,
                        e: nat)
    requires Conserved(sb, blocks, mem, owner, loose) && b < sb.size && !Used(sb, blocks, b)
    requires i < |mem| && e < NINDIRECT && mem[i].addrs[NDIRECT] != 0
    requires SlotAddr(blocks, mem[i], NDIRECT + 1 + e) == 0
    ensures var mid := Allocated(sb, blocks, b); var ind := mem[i].addrs[NDIRECT];
      && ind < |mid| && b < UINT && b > 0 && ind != b
      && var after := mid[ind := PutAddr(mid[ind], e, b)];
      && Conserved(sb, after, mem, owner[b := (i, NDIRECT + 1 + e)], loose + {b} - {b})
      && Grown(blocks, mem, after, mem, i) && SlotFilled(blocks, mem, after, mem, i, NDIRECT + 1 + e, b)
  {
    hide SlotAddr, ByteAt, Used, PutAddr;
    var mid := Allocated(sb, blocks, b);
    var ind := mem[i].addrs[NDIRECT];
    DirectSlot(blocks, mem[i], NDIRECT);
    assert owner[ind] == (i, NDIRECT);
    AllocKeeps(sb, blocks, mem, owner, loose, b);
    AllocBytes(sb, blocks, mem, owner, loose, b);
    AllocZero(sb, blocks, b);
    EntryKeeps(sb, mid, mem, owner, loose + {b}, i, e, b);
    EntryFills(mid, mem, owner, i, e, b);
    var after := mid[ind := PutAddr(mid[ind], e, b)];
    FilledBytes(sb, mid, mem, after, mem, owner, i, NDIRECT + 1 + e, b, ind);
  }

  // ----- contents -----

  /** The bytes of a file. */
  ghost function Content(blocks: seq<Block>, ino: Inode): (c: seq<byte>)
    requires ino.size <= MAXBYTES
    ensures |c| == ino.size && forall k | 0 <= k < ino.size :: c[k] == ByteAt(blocks, ino, k)
  {
    seq(ino.size, k requires 0 <= k < ino.size => ByteAt(blocks, ino, k))
  }

  /** Every block below the size of the file is there. */
  ghost predicate NoHoles(blocks: seq<Block>, ino: Inode) {
    forall bn: nat | bn < MAXFILE && bn * BSIZE < ino.size :: SlotAddr(blocks, ino, SlotOf(bn)) != 0
  }

  // ----- counting the blocks that a write logs -----

  /** The slots that a write to file blocks lo..hi can touch. */
  ghost function Touched(lo: nat, hi: nat): (ss: set<nat>)
    ensures lo <= hi ==> |ss| <= 1 + hi - lo
    decreases hi
  {
    if hi <= lo then {NDIRECT} else Touched(lo, hi - 1) + {SlotOf(hi - 1)}
  }

  lemma {:induction false} HeldSize(blocks: seq<Block>, ino: Inode, ss: set<nat>)
    ensures |Held(blocks, ino, ss)| <= |ss|
    decreases ss
  {
    if ss == {} {
      assert Held(blocks, ino, ss) == {};
    } else {
      var s :| s in ss;
      var tt := ss - {s};
      assert ss == tt + {s};
      HeldSize(blocks, ino, tt);
      if s < NSLOTS {
        HeldMore(blocks, ino, tt, s);
      } else {
        assert Held(blocks, ino, ss) == Held(blocks, ino, tt);
      }
    }
  }

  lemma HeldGrows(blocks: seq<Block>, x: Inode, after: seq<Block>, y: Inode, ss: set<nat>)
    requires forall t: nat | t < NSLOTS && SlotAddr(blocks, x, t) != 0 ::
      SlotAddr(after, y, t) == SlotAddr(blocks, x, t)
    ensures Held(blocks, x, ss) <= Held(after, y, ss)
  {
    hide SlotAddr;
  }

  lemma HeldMonotone(blocks: seq<Block>, ino: Inode, ss: set<nat>, tt: set<nat>)
    requires ss <= tt
    ensures Held(blocks, ino, ss) <= Held(blocks, ino, tt)
  {}

  lemma SubsetSize<T>(a: set<T>, b: set<T>)
    requires a <= b
    ensures |a| <= |b|
    decreases b
  {
    if b != {} {
      var x :| x in b;
      SubsetSize(a - {x}, b - {x});
    }
  }
}
