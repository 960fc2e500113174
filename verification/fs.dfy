/** kernel/fs.c on the logical disk that the cache and the log provide: allocating and freeing blocks,
    mapping file blocks, truncating, reading and writing. A panic is a false `ok`. */
module Fs {
  import opened FsLayout
  import opened FsMap

  function Min(a: nat, b: nat): (m: nat) {
    if a < b then a else b
  }

  /** `old` with `data` in place from `off` on; longer than `old` if need be. */
  function Spliced(before: seq<byte>, off: nat, data: seq<byte>): (r: seq<byte>)
    requires off <= |before|
    ensures |r| == if off + |data| > |before| then off + |data| else |before|
  {
    before[..off] + data + (if off + |data| < |before| then before[off + |data|..] else [])
  }

  /** The bytes of all files, with `data` in place from position `off` of file i on. */
  ghost predicate BytesPut(was: seq<Block>, inodes: seq<Inode>, now: seq<Block>, inodes': seq<Inode>, i: nat, off: nat,
                           data: seq<byte>)
  {
    && |inodes'| == |inodes|
    && forall j, k | 0 <= j < |inodes| && 0 <= k < MAXBYTES ::
         ByteAt(now, inodes'[j], k) ==
           if j == i && off <= k < off + |data| then data[k - off] else ByteAt(was, inodes[j], k)
  }

  /** Slots of file i that were filled keep their block, nothing else of any inode changes. */
  ghost predicate SlotsStable(was: seq<Block>, inodes: seq<Inode>, now: seq<Block>, inodes': seq<Inode>, i: nat)
  {
    && |inodes'| == |inodes| && i < |inodes|
    && (forall j | 0 <= j < |inodes| && j != i :: inodes'[j] == inodes[j])
    && inodes'[i] == inodes[i].(addrs := inodes'[i].addrs)
    && (forall t: nat | t < NSLOTS && SlotAddr(was, inodes[i], t) != 0 ::
          SlotAddr(now, inodes'[i], t) == SlotAddr(was, inodes[i], t))
  }

  /** How many of the blocks lo..h of a file are missing. */
  ghost function Missing(was: seq<Block>, ino: Inode, lo: nat, h: nat): nat
    requires lo <= h
    decreases h
  {
    if h == lo then 0
    else Missing(was, ino, lo, h - 1) + (if h <= MAXFILE && SlotAddr(was, ino, SlotOf(h - 1)) == 0 then 1 else 0)
  }

  /** How many blocks a write to the blocks lo..h of a file has to allocate. */
  ghost function Needs(was: seq<Block>, ino: Inode, lo: nat, h: nat): nat
    requires lo <= h
  {
    Missing(was, ino, lo, h) + (if ino.addrs[NDIRECT] == 0 && h > lo && h > NDIRECT then 1 else 0)
  }

  /** The blocks lo..h of a file have been filled in, and no other of its blocks. */
  ghost predicate Filled(was: seq<Block>, ino: Inode, now: seq<Block>, ino': Inode, lo: nat, h: nat) {
    && lo <= h <= MAXFILE
    && (ino'.addrs[NDIRECT] == 0 <==> ino.addrs[NDIRECT] == 0 && !(h > lo && h > NDIRECT))
    && (forall bn: nat | h <= bn < MAXFILE :: SlotAddr(now, ino', SlotOf(bn)) == SlotAddr(was, ino, SlotOf(bn)))
    && (forall bn: nat | lo <= bn < h :: SlotAddr(now, ino', SlotOf(bn)) != 0)
    && (forall bn: nat | bn < lo && bn < MAXFILE && SlotAddr(was, ino, SlotOf(bn)) != 0 ::
          SlotAddr(now, ino', SlotOf(bn)) != 0)
  }

  /** What block h adds to the need. */
  lemma NeedsNext(was: seq<Block>, ino: Inode, now: seq<Block>, ino': Inode, lo: nat, h: nat)
    requires Filled(was, ino, now, ino', lo, h) && h < MAXFILE
    ensures Needs(was, ino, lo, h + 1) == Needs(was, ino, lo, h)
              + (if SlotAddr(now, ino', SlotOf(h)) == 0 then 1 else 0)
              + (if h >= NDIRECT && ino'.addrs[NDIRECT] == 0 then 1 else 0)
  {
    hide SlotAddr;
  }

  lemma {:induction false} NeedsMore(was: seq<Block>, ino: Inode, lo: nat, h: nat, h': nat)
    requires lo <= h <= h'
    ensures Needs(was, ino, lo, h) <= Needs(was, ino, lo, h')
    decreases h'
  {
    hide SlotAddr;
    if h < h' { NeedsMore(was, ino, lo, h, h' - 1); }
  }

  /** The first block, if it is there, need not be allocated. */
  lemma {:induction false} MissingBound(was: seq<Block>, ino: Inode, lo: nat, h: nat)
    requires lo < h
    ensures Missing(was, ino, lo, h) <= h - lo - (if lo < MAXFILE && SlotAddr(was, ino, SlotOf(lo)) != 0 then 1 else 0)
    decreases h
  {
    hide SlotAddr;
    if lo < h - 1 { MissingBound(was, ino, lo, h - 1); } else { assert Missing(was, ino, lo, lo) == 0; }
  }

  /** A write from block lo to block h and one that goes on to h' need together what one write needs. */
  lemma NeedsJoin(was: seq<Block>, ino: Inode, mid: seq<Block>, ino': Inode, lo: nat, lo': nat, h: nat, h': nat)
    requires Filled(was, ino, mid, ino', lo, h) && lo <= lo' <= h < h'
    ensures Needs(was, ino, lo, h') == Needs(was, ino, lo, h) + Needs(mid, ino', lo', h')
  {
    MissingJoin(was, ino, mid, ino', lo, lo', h, h');
    hide SlotAddr;
  }

  lemma {:induction false} MissingJoin(was: seq<Block>, ino: Inode, mid: seq<Block>, ino': Inode, lo: nat, lo': nat,
                                       h: nat, h': nat)
    requires Filled(was, ino, mid, ino', lo, h) && lo <= lo' <= h <= h'
    ensures Missing(was, ino, lo, h') == Missing(was, ino, lo, h) + Missing(mid, ino', lo', h')
    decreases h'
  {
    hide SlotAddr;
    if h < h' {
      MissingJoin(was, ino, mid, ino', lo, lo', h, h' - 1);
    } else {
      NoneMissing(was, ino, mid, ino', lo, lo', h, h);
    }
  }

  lemma {:induction false} NoneMissing(was: seq<Block>, ino: Inode, mid: seq<Block>, ino': Inode, lo: nat, lo': nat,
                                       g: nat, h: nat)
    requires Filled(was, ino, mid, ino', lo, h) && lo <= lo' <= g <= h
    ensures Missing(mid, ino', lo', g) == 0
    decreases g
  {
    hide SlotAddr;
    if lo' < g { NoneMissing(was, ino, mid, ino', lo, lo', g - 1, h); }
  }

  lemma FilledTwice(was: seq<Block>, ino: Inode, mid: seq<Block>, ino': Inode, now: seq<Block>, ino'': Inode,
                    lo: nat, lo': nat, h: nat, h': nat)
    requires Filled(was, ino, mid, ino', lo, h) && Filled(mid, ino', now, ino'', lo', h') && lo <= lo' <= h < h'
    ensures Filled(was, ino, now, ino'', lo, h')
  {
    hide SlotAddr;
    forall bn: nat | lo <= bn < h' ensures SlotAddr(now, ino'', SlotOf(bn)) != 0 {
      if bn < lo' {
        assert SlotAddr(mid, ino', SlotOf(bn)) != 0;
      }
    }
  }

  lemma FilledRange(was: seq<Block>, ino: Inode, now: seq<Block>, ino': Inode, lo: nat, h: nat)
    requires Filled(was, ino, now, ino', lo, h)
    ensures lo <= h <= MAXFILE
  {
    hide SlotAddr;
  }

  lemma NothingMissing(bs: seq<Block>, ino: Inode, lo: nat)
    ensures Missing(bs, ino, lo, lo) == 0
  {}

  lemma FilledNone(bs: seq<Block>, ino: Inode, lo: nat)
    requires lo <= MAXFILE
    ensures Filled(bs, ino, bs, ino, lo, lo) && Needs(bs, ino, lo, lo) == 0
  {
    hide SlotAddr;
  }

  /** One past the last block of a file that the bytes below `end` lie in. */
  function BlocksBelow(end: nat): (n: nat)
    ensures end / BSIZE <= n && end <= n * BSIZE < end + BSIZE
  {
    (end + BSIZE - 1) / BSIZE
  }

  /** One past the last block of a file that a write of n bytes at `off` touches. */
  function EndBlock(off: nat, n: nat): (h: nat)
    ensures off / BSIZE <= h
  {
    if n == 0 then off / BSIZE else BlocksBelow(off + n)
  }

  /** What a write from block lo on has logged and allocated when it has dealt with the blocks below h. */
  ghost predicate Counted(was: seq<Block>, ino: Inode, now: seq<Block>, ino': Inode, rest0: set<nat>, rest1: set<nat>,
                          allocs0: nat, allocs1: nat, lo: nat, h: nat)
  {
    && Filled(was, ino, now, ino', lo, h)
    && rest1 <= rest0 + Held(now, ino', Touched(lo, h))
    && allocs1 == allocs0 + Needs(was, ino, lo, h)
  }

  /** The blocks lo..h of a file are among the logged ones. */
  ghost predicate Written(now: seq<Block>, ino: Inode, rest: set<nat>, lo: nat, h: nat) {
    forall bn: nat | lo <= bn < h && bn < MAXFILE :: SlotAddr(now, ino, SlotOf(bn)) in rest
  }

  /** Nothing has been freed since the free blocks were `free0`, and the blocks taken are the lowest of them. */
  ghost predicate Order(sb: Super, owner: Owner, loose: set<nat>, free0: set<nat>, taken: set<nat>, allocs: nat) {
    && |taken| == allocs && taken <= free0 && (forall b | b in free0 :: DataStart(sb) <= b < sb.size)
    && (forall b: nat | DataStart(sb) <= b < sb.size :: (b in free0 && b !in taken) <==> (b !in owner && b !in loose))
    && (forall t, c | t in taken && c in free0 && c !in taken :: t < c)
  }

  ghost predicate TakenIn(sb: Super, owner: Owner, before: Owner, taken: set<nat>, rest: set<nat>, maps: set<nat>) {
    && (forall b | b in owner :: b in taken || (b in before && before[b] == owner[b]))
    && (forall b | b in taken :: b in rest && BBlock(sb, b) in maps)
  }

  lemma TakenMore(sb: Super, owner: Owner, before: Owner, taken: set<nat>, rest: set<nat>, maps: set<nat>, b: nat)
    requires TakenIn(sb, owner, before, taken, rest, maps)
    ensures TakenIn(sb, owner, before, taken + {b}, rest + {b}, maps + {BBlock(sb, b)})
  {
    hide BBlock;
  }

  lemma OrderOwned(sb: Super, owner: Owner, loose: set<nat>, free0: set<nat>, taken: set<nat>, allocs: nat, b: nat,
                   at: (nat, nat))
    requires b in loose
    ensures Order(sb, owner, loose, free0, taken, allocs) ==>
      Order(sb, owner[b := at], loose - {b}, free0, taken, allocs)
  {}

  /** A free inode on disk holds nothing, and the memory and the disk agree on it. */
  ghost predicate FreeInodes(mem: seq<Inode>, dinodes: seq<Inode>) {
    |mem| == |dinodes| &&
    forall i | 0 <= i < |dinodes| && dinodes[i].typ == 0 ::
      mem[i] == dinodes[i] && forall k | 0 <= k <= NDIRECT :: dinodes[i].addrs[k] == 0
  }

  lemma FreeWritten(mem: seq<Inode>, dinodes: seq<Inode>, i: nat, ino: Inode)
    requires i < |mem| == |dinodes| && ino.typ != 0
    ensures FreeInodes(mem, dinodes) ==> FreeInodes(mem[i := ino], dinodes[i := ino])
  {}

  lemma FreeEmptied(mem: seq<Inode>, dinodes: seq<Inode>, i: nat)
    requires i < |mem| == |dinodes|
    ensures FreeInodes(mem, dinodes) ==> FreeInodes(mem[i := Emptied(mem[i])], dinodes[i := Emptied(mem[i])])
  {}

  class FileSystem {
    const sb: Super
    /** Contents of every block; the inode blocks are kept as `dinodes`. */
    var blocks: seq<Block>
    var dinodes: seq<Inode>
    /** The in-memory inodes; for an inode that is not locked, a copy of the one on disk. */
    var mem: seq<Inode>
    ghost var owner: Owner
    ghost var loose: set<nat>
    /** Distinct blocks passed to log_write() since the transaction began, free map blocks apart, and the
        number of calls of balloc() and bfree() since then. */
    ghost var maps: set<nat>
    ghost var rest: set<nat>
    ghost var allocs: nat
    /** Who held which block when the transaction began, and the blocks allocated since. */
    ghost var before: Owner
    ghost var taken: set<nat>
    /** The blocks that were free when the transaction began. */
    ghost var free0: set<nat>

    /** A disk as mkfs and earlier operations left it. */
    constructor (super: Super, disk: seq<Block>, inodes: seq<Inode>, ghost own: Owner)
      requires |inodes| == super.ninodes && Conserved(super, disk, inodes, own, {})
      ensures Valid() && sb == super && blocks == disk && dinodes == mem == inodes && owner == own && loose == {}
    {
      sb, blocks, dinodes, mem, owner, loose := super, disk, inodes, inodes, own, {};
      maps, rest, allocs, before, taken, free0 := {}, {}, 0, own, {}, {};
    }

    ghost predicate Valid()
      reads this
    {
      && |mem| == |dinodes| == sb.ninodes
      && Conserved(sb, blocks, mem, owner, loose)
      && |maps| <= allocs && TakenOk()
    }

    /** A block that a file did not hold before has been allocated, zeroed and logged in this transaction, and so
        has its block of the free map. */
    ghost predicate TakenOk()
      reads this
    {
      TakenIn(sb, owner, before, taken, rest, maps)
    }

    ghost predicate InOrder()
      reads this`owner, this`loose, this`free0, this`taken, this`allocs
    {
      Order(sb, owner, loose, free0, taken, allocs)
    }

    lemma TakeLowest(b: nat)
      requires Valid() && InOrder() && b < sb.size && !Used(sb, blocks, b)
      requires forall c: nat | c < b :: Used(sb, blocks, c)
      ensures Order(sb, owner, loose + {b}, free0, taken + {b}, allocs + 1)
    {
      hide Used, OwnerOk, SlotsOk;
      forall c | c in free0 && c !in taken && c != b ensures b < c {
        assert c in owner || c in loose || !Used(sb, blocks, c);
      }
    }

    lemma Sized()
      requires Valid()
      ensures SuperOk(sb) && |blocks| == sb.size
    {
      hide OwnerOk, SlotsOk, BitsOk;
    }

    /** The free blocks are those at the start of the transaction but for the ones taken. */
    lemma FreeNow()
      requires Valid() && InOrder()
      ensures SuperOk(sb) && |blocks| == sb.size && FreeBlocks(sb, blocks) == free0 - taken
      ensures |FreeBlocks(sb, blocks)| == |free0| - allocs
    {
      hide Used, OwnerOk, SlotsOk;
      forall b: nat ensures b in FreeBlocks(sb, blocks) <==> b in free0 - taken {
        if b < sb.size { assert Used(sb, blocks, b) <==> b < DataStart(sb) || b in owner || b in loose; }
      }
    }

    lemma NoneLeft()
      requires Valid() && InOrder() && forall c: nat | c < sb.size :: Used(sb, blocks, c)
      ensures free0 == taken
    {
      hide Used, OwnerOk, SlotsOk;
      forall c | c in free0 ensures c in taken {
        assert DataStart(sb) <= c < sb.size && Used(sb, blocks, c);
      }
    }

    static lemma MapSize(sb: Super, blocks: seq<Block>, mem: seq<Inode>, owner: Owner, loose: set<nat>)
      requires Conserved(sb, blocks, mem, owner, loose)
      ensures SuperOk(sb) && |blocks| == sb.size
    {
      hide OwnerOk, SlotsOk, BitsOk;
    }

    static lemma UsedBit(sb: Super, blocks: seq<Block>, b: nat)
      requires SuperOk(sb) && |blocks| == sb.size && b < sb.size
      ensures BBlock(sb, b) < sb.size && (Used(sb, blocks, b) <==> BitOf(blocks[BBlock(sb, b)], b % BPB))
    {
      hide BitOf;
      BBlockOk(sb, b);
    }

    /** balloc() once it has found a free block: mark it, and bzero(). */
    method Claim(b: nat, bp: nat, bi: nat)
      requires Valid() && b < sb.size && !Used(sb, blocks, b) && bp == BBlock(sb, b) && bi == b % BPB
      requires forall c: nat | c < b :: Used(sb, blocks, c)
      modifies this`blocks, this`loose, this`maps, this`rest, this`allocs, this`taken
      ensures Valid() && DataStart(sb) <= b && blocks == Allocated(sb, old(blocks), b)
      ensures loose == old(loose) + {b} && rest == old(rest) + {b} && allocs == old(allocs) + 1 && b in taken
      ensures old(InOrder()) ==> InOrder()
    {
      hide Conserved, BitOf, SetBitOf, Order, BBlock, Used, TakenIn;
      TakenMore(sb, owner, before, taken, rest, maps, b);
      if InOrder() {
        TakeLowest(b);
      }
      MapSize(sb, blocks, mem, owner, loose);
      AllocKeeps(sb, blocks, mem, owner, loose, b);
      BBlockOk(sb, b);
      UsedBit(sb, blocks, b);
      ghost var was := blocks;
      blocks := blocks[bp := SetBitOf(blocks[bp], bi)];
      maps := maps + {bp};
      blocks := blocks[b := Zeros()];
      rest := rest + {b};
      allocs, loose, taken := allocs + 1, loose + {b}, taken + {b};
      assert blocks == Allocated(sb, was, b);
    }

    lemma InOrderCount()
      requires InOrder()
      ensures |taken| == allocs <= |free0|
    {
      SubsetSize(taken, free0);
    }

    /** Where balloc() finds the bit of the bi-th block from base on. */
    static lemma BitPlace(sb: Super, base: nat, bi: nat)
      requires base % BPB == 0 && bi < BPB
      ensures BBlock(sb, base + bi) == BBlock(sb, base) && (base + bi) % BPB == bi
    {}

    lemma FoundBit(base: nat, bi: nat)
      requires SuperOk(sb) && |blocks| == sb.size && base % BPB == 0 && bi < BPB && base + bi < sb.size
      ensures BBlock(sb, base + bi) == BBlock(sb, base) < sb.size && (base + bi) % BPB == bi
      ensures Used(sb, blocks, base + bi) <==> BitOf(blocks[BBlock(sb, base)], bi)
    {
      hide BBlock, BitOf;
      BitPlace(sb, base, bi);
      BBlockOk(sb, base + bi);
    }

    /** The loops of balloc(): the lowest free block, or sb.size. */
    method FindFree() returns (b: nat)
      requires SuperOk(sb) && |blocks| == sb.size
      ensures b <= sb.size && (forall c: nat | c < b :: Used(sb, blocks, c)) && (b < sb.size ==> !Used(sb, blocks, b))
    {
      hide BitOf, Used, BBlock;
      var base := 0;
      while base < sb.size
        invariant base % BPB == 0
        invariant forall c: nat | c < base && c < sb.size :: Used(sb, blocks, c)
      {
        var bp := BBlock(sb, base);
        var bi := 0;
        while bi < BPB && base + bi < sb.size
          invariant bi <= BPB
          invariant forall c: nat | c < base + bi && c < sb.size :: Used(sb, blocks, c)
        {
          FoundBit(base, bi);
          if !BitOf(blocks[bp], bi) {
            return base + bi;
          }
          bi := bi + 1;
        }
        base := base + BPB;
      }
      return sb.size;
    }

    /** balloc(): the lowest free block, marked used and zeroed. */
    method Balloc() returns (b: nat, ok: bool)
      requires Valid()
      modifies this`blocks, this`loose, this`maps, this`rest, this`allocs, this`taken
      ensures Valid()
      ensures ok <==> exists c: nat :: c < sb.size && !Used(sb, old(blocks), c)
      ensures !ok ==> blocks == old(blocks) && loose == old(loose) && rest == old(rest) && allocs == old(allocs)
      ensures ok ==>
        && DataStart(sb) <= b < sb.size && !Used(sb, old(blocks), b)
        && (forall c: nat | c < b :: Used(sb, old(blocks), c))
        && blocks == Allocated(sb, old(blocks), b)
        && loose == old(loose) + {b} && rest == old(rest) + {b} && allocs == old(allocs) + 1 && b in taken
      ensures old(InOrder()) ==> InOrder() && (!ok ==> |free0| == allocs)
    {
      hide OwnerOk, SlotsOk, BitsOk, InOrder, Used, BBlock, Allocated, TakenOk;
      b := FindFree();
      ok := b < sb.size;
      if ok {
        Claim(b, BBlock(sb, b), b % BPB);
      } else if InOrder() {
        NoneLeft();
        InOrderCount();
      }
    }

    /** bfree(); false is the panic "freeing free block". */
    method Bfree(b: nat) returns (ok: bool)
      requires SuperOk(sb) && |blocks| == sb.size && b < sb.size && |maps| <= allocs
      modifies this`blocks, this`maps, this`allocs
      ensures ok <==> Used(sb, old(blocks), b)
      ensures !ok ==> blocks == old(blocks)
      ensures ok ==> blocks == ClearUsed(sb, old(blocks), b)
      ensures |maps| <= allocs && maps >= old(maps)
    {
      var bp, bi := BBlock(sb, b), b % BPB;
      BBlockOk(sb, b);
      if !BitOf(blocks[bp], bi) {
        return false;
      }
      blocks := blocks[bp := ClearBitOf(blocks[bp], bi)];
      maps, allocs := maps + {bp}, allocs + 1;
      ok := true;
    }

    /** With every inode written back, what is conserved is on the disk. */
    lemma OnDisk()
      requires Valid() && dinodes == mem
      ensures Conserved(sb, blocks, dinodes, owner, loose)
    {
      hide Used, SlotAddr;
    }

    /** iupdate(). */
    method Iupdate(i: nat)
      requires i < |mem| == |dinodes|
      modifies this`dinodes, this`rest
      ensures dinodes == old(dinodes)[i := mem[i]] && rest == old(rest) + {IBlock(sb, i)}
    {
      dinodes := dinodes[i := mem[i]];
      rest := rest + {IBlock(sb, i)};
    }

    /** bmap()'s `addrs[s] = balloc()`, for a direct block or the indirect block. */
    method AllocSlot(i: nat, s: nat) returns (b: nat, ok: bool)
      requires Valid() && i < |mem| && s <= NDIRECT && mem[i].addrs[s] == 0
      modifies this`blocks, this`mem, this`owner, this`loose, this`maps, this`rest, this`allocs, this`taken
      ensures Valid() && loose == old(loose)
      ensures ok ==>
        && b != 0 && mem == old(mem)[i := WithAddr(old(mem)[i], s, b)] && Grown(old(blocks), old(mem), blocks, mem, i)
        && SlotFilled(old(blocks), old(mem), blocks, mem, i, s, b)
        && rest == old(rest) + {b} && allocs == old(allocs) + 1
      ensures old(InOrder()) ==> InOrder() && (!ok ==> |free0| == old(allocs))
    {
      hide OwnerOk, SlotsOk, BitsOk, Used, SlotFilled, Grown, Allocated, Order;
      ghost var was := blocks;
      b, ok := Balloc();
      if !ok {
        return;
      }
      AllocSlotGrows(sb, was, mem, owner, old(loose), b, i, s);
      assert old(loose) + {b} - {b} == old(loose) by { AllocKeeps(sb, was, mem, owner, old(loose), b); }
      OrderOwned(sb, owner, loose, free0, taken, allocs, b, (i, s));
      mem := mem[i := WithAddr(mem[i], s, b)];
      owner, loose := owner[b := (i, s)], loose - {b};
    }

    /** bmap()'s `a[e] = balloc()` in the indirect block, and its log_write(). */
    method AllocEntry(i: nat, e: nat) returns (b: nat, ok: bool)
      requires Valid() && i < |mem| && e < NINDIRECT && mem[i].addrs[NDIRECT] != 0
      requires SlotAddr(blocks, mem[i], NDIRECT + 1 + e) == 0
      modifies this`blocks, this`owner, this`loose, this`maps, this`rest, this`allocs, this`taken
      ensures Valid() && loose == old(loose)
      ensures ok ==>
        && b != 0 && Grown(old(blocks), mem, blocks, mem, i)
        && SlotFilled(old(blocks), mem, blocks, mem, i, NDIRECT + 1 + e, b)
        && rest == old(rest) + {b, mem[i].addrs[NDIRECT]} && allocs == old(allocs) + 1
      ensures old(InOrder()) ==> InOrder() && (!ok ==> |free0| == old(allocs))
    {
      hide OwnerOk, SlotsOk, BitsOk, Used, SlotFilled, Grown, Allocated, PutAddr, Order, SlotAddr;
      ghost var was := blocks;
      b, ok := Balloc();
      if !ok {
        return;
      }
      AllocEntryGrows(sb, was, mem, owner, old(loose), b, i, e);
      assert old(loose) + {b} - {b} == old(loose) by { AllocKeeps(sb, was, mem, owner, old(loose), b); }
      var ind := mem[i].addrs[NDIRECT];
      blocks := blocks[ind := PutAddr(blocks[ind], e, b)];
      rest := rest + {ind};
      OrderOwned(sb, owner, loose, free0, taken, allocs, b, (i, NDIRECT + 1 + e));
      owner, loose := owner[b := (i, NDIRECT + 1 + e)], loose - {b};
    }

    /** How much of the free map and of the other blocks a call of bmap(i, bn) may log. */
    ghost function AllocsFor(i: nat, bn: nat): nat
      reads this
      requires i < |mem| && bn < MAXFILE
    {
      (if SlotAddr(blocks, mem[i], SlotOf(bn)) == 0 then 1 else 0)
      + (if bn >= NDIRECT && mem[i].addrs[NDIRECT] == 0 then 1 else 0)
    }

    /** bmap(): the disk address of block bn of file i, allocating it, and the indirect block, if need be. */
    method Bmap(i: nat, bn: nat) returns (addr: nat, ok: bool)
      requires Valid() && i < |mem|
      modifies this`blocks, this`mem, this`owner, this`loose, this`maps, this`rest, this`allocs, this`taken
      ensures Valid() && loose == old(loose)
      ensures bn >= MAXFILE ==> !ok
      ensures bn < MAXFILE && SlotAddr(old(blocks), old(mem)[i], SlotOf(bn)) != 0 ==>
        ok && blocks == old(blocks) && mem == old(mem) && rest == old(rest) && allocs == old(allocs)
      ensures ok ==>
        && 0 < addr < sb.size && addr == SlotAddr(blocks, mem[i], SlotOf(bn))
        && Grown(old(blocks), old(mem), blocks, mem, i)
        && allocs == old(allocs) + old(AllocsFor(i, bn)) && rest >= old(rest)
        && rest <= old(rest) + Held(blocks, mem[i], {NDIRECT, SlotOf(bn)})
        && (bn < NDIRECT ==> mem[i].addrs[NDIRECT] == old(mem)[i].addrs[NDIRECT])
        && (bn >= NDIRECT ==> mem[i].addrs[NDIRECT] != 0)
        && (forall t: nat | t < NSLOTS && t != NDIRECT && t != SlotOf(bn) ::
              SlotAddr(blocks, mem[i], t) == SlotAddr(old(blocks), old(mem)[i], t))
      ensures old(InOrder()) ==> InOrder()
      ensures !ok && bn < MAXFILE && old(InOrder()) ==> |free0| < old(allocs) + old(AllocsFor(i, bn))
    {
      hide OwnerOk, SlotsOk, BitsOk, Used, Grown, ByteAt, InOrder;
      GrownSelf(blocks, mem, i);
      if bn < NDIRECT {
        addr := mem[i].addrs[bn];
        ok := true;
        if addr == 0 {
          addr, ok := AllocSlot(i, bn);
        }
        if ok { InRange(i, bn); }
        return;
      }
      if bn - NDIRECT >= NINDIRECT {
        return 0, false;
      }
      ok := true;
      if mem[i].addrs[NDIRECT] == 0 {
        var ind;
        ind, ok := AllocSlot(i, NDIRECT);
        if !ok {
          return 0, false;
        }
      }
      ghost var midBlocks, midMem := blocks, mem;
      InRange(i, NDIRECT);
      addr := AddrAt(blocks[mem[i].addrs[NDIRECT]], bn - NDIRECT);
      if addr == 0 {
        addr, ok := AllocEntry(i, bn - NDIRECT);
        if !ok {
          return 0, false;
        }
        GrownTwice(old(blocks), old(mem), midBlocks, midMem, blocks, mem, i);
      }
      InRange(i, SlotOf(bn));
    }

    lemma InRange(i: nat, s: nat)
      requires Valid() && i < |mem| && s < NSLOTS
      ensures SlotAddr(blocks, mem[i], s) < sb.size
    {
      hide SlotAddr, BitsOk;
    }

    lemma GrownSelf(bs: seq<Block>, ms: seq<Inode>, i: nat)
      requires i < |ms|
      ensures Grown(bs, ms, bs, ms, i)
    {
      hide SlotAddr, ByteAt;
    }

    /** A block of a slot not yet visited still has its bit set: bfree() cannot panic. */
    lemma StillUsed(was: seq<Block>, inodes: seq<Inode>, own: Owner, free: set<nat>, now: seq<Block>, i: nat,
                    ss: set<nat>, s: nat)
      requires Conserved(sb, was, inodes, own, free) && i < |inodes| && s < NSLOTS && s !in ss
      requires FreedBits(sb, was, now, Held(was, inodes[i], ss)) && SlotAddr(was, inodes[i], s) != 0
      ensures SlotAddr(was, inodes[i], s) < sb.size && Used(sb, now, SlotAddr(was, inodes[i], s))
    {
      hide SlotAddr, Used;
      var b := SlotAddr(was, inodes[i], s);
      assert own[b] == (i, s);
      assert b !in Held(was, inodes[i], ss);
    }

    /** bfree() of the block in slot s, in the course of a truncation that started from `was`. */
    method FreeSlot(i: nat, s: nat, b: nat, ghost was: seq<Block>, ghost inodes: seq<Inode>, ghost ss: set<nat>)
      requires Conserved(sb, was, inodes, owner, loose) && i < |inodes| && s < NSLOTS && s !in ss
      requires FreedBits(sb, was, blocks, Held(was, inodes[i], ss)) && SlotAddr(was, inodes[i], s) == b
      requires |maps| <= allocs
      modifies this`blocks, this`maps, this`allocs
      ensures FreedBits(sb, was, blocks, Held(was, inodes[i], ss + {s})) && |maps| <= allocs && maps >= old(maps)
    {
      hide SlotAddr, Used, FreedBits, OwnerOk, SlotsOk, BitsOk;
      HeldMore(was, inodes[i], ss, s);
      assert Held(was, inodes[i], ss) + {} == Held(was, inodes[i], ss);
      if b != 0 {
        StillUsed(was, inodes, owner, loose, blocks, i, ss, s);
        FreedSize(was, blocks, Held(was, inodes[i], ss));
        FreeOneMore(sb, was, blocks, Held(was, inodes[i], ss), b);
        var ok := Bfree(b);
        assert ok;
      }
    }

    lemma FreedSize(was: seq<Block>, now: seq<Block>, freed: set<nat>)
      requires SuperOk(sb) && |was| == sb.size && FreedBits(sb, was, now, freed)
      ensures |now| == sb.size
    {}

    /** The first loop of itrunc(). */
    method TruncDirect(i: nat)
      requires Valid() && i < |mem|
      modifies this`blocks, this`mem, this`maps, this`allocs
      ensures |maps| <= allocs && maps >= old(maps)
      ensures FreedBits(sb, old(blocks), blocks, Held(old(blocks), old(mem)[i], DIRECTSLOTS))
      ensures |mem| == |old(mem)| && forall j | 0 <= j < |mem| && j != i :: mem[j] == old(mem)[j]
      ensures mem[i] == old(mem)[i].(addrs := mem[i].addrs) && mem[i].addrs[NDIRECT] == old(mem)[i].addrs[NDIRECT]
      ensures forall k | 0 <= k < NDIRECT :: mem[i].addrs[k] == 0
    {
      hide Used, FreedBits, OwnerOk, SlotsOk, BitsOk, Held;
      ghost var was, inodes := blocks, mem;
      ghost var ss: set<nat> := {};
      NoneFreed(was, inodes[i]);
      var k := 0;
      while k < NDIRECT
        invariant k <= NDIRECT && |maps| <= allocs && maps >= old(maps)
        invariant forall s: nat :: s in ss <==> s < k
        invariant FreedBits(sb, was, blocks, Held(was, inodes[i], ss))
        invariant |mem| == |inodes| && forall j | 0 <= j < |mem| && j != i :: mem[j] == inodes[j]
        invariant mem[i] == inodes[i].(addrs := mem[i].addrs)
        invariant forall t | 0 <= t <= NDIRECT :: mem[i].addrs[t] == if t < k then 0 else inodes[i].addrs[t]
      {
        FreeSlot(i, k, mem[i].addrs[k], was, inodes, ss);
        if mem[i].addrs[k] != 0 {
          mem := mem[i := WithAddr(mem[i], k, 0)];
        }
        ss := ss + {k};
        k := k + 1;
      }
      assert ss == DIRECTSLOTS;
    }

    lemma NoneFreed(was: seq<Block>, ino: Inode)
      requires SuperOk(sb) && |was| == sb.size
      ensures FreedBits(sb, was, was, Held(was, ino, {}))
    {
      hide Used;
    }

    /** The second half of itrunc(): the entries of the indirect block, then the indirect block. */
    method TruncIndirect(i: nat, ghost was: seq<Block>, ghost inodes: seq<Inode>)
      requires Conserved(sb, was, inodes, owner, loose) && |maps| <= allocs && i < |mem| == |inodes|
      requires FreedBits(sb, was, blocks, Held(was, inodes[i], DIRECTSLOTS))
      requires mem[i].addrs[NDIRECT] == inodes[i].addrs[NDIRECT] != 0
      modifies this`blocks, this`mem, this`maps, this`allocs
      ensures |maps| <= allocs && maps >= old(maps) && FreedBits(sb, was, blocks, Held(was, inodes[i], ALLSLOTS))
      ensures mem == old(mem)[i := WithAddr(old(mem)[i], NDIRECT, 0)]
    {
      hide Used, OwnerOk, SlotsOk, BitsOk, Held;
      ghost var ss: set<nat> := DIRECTSLOTS;
      var ind := mem[i].addrs[NDIRECT];
      IndirectOnDisk(was, inodes, i);
      var a := blocks[ind];
      var j := 0;
      while j < NINDIRECT
        invariant j <= NINDIRECT && |maps| <= allocs && maps >= old(maps) && mem == old(mem)
        invariant forall s: nat :: s in ss <==> s < NDIRECT || NDIRECT < s < NDIRECT + 1 + j
        invariant FreedBits(sb, was, blocks, Held(was, inodes[i], ss))
      {
        FreeSlot(i, NDIRECT + 1 + j, AddrAt(a, j), was, inodes, ss);
        ss := ss + {NDIRECT + 1 + j};
        j := j + 1;
      }
      FreeSlot(i, NDIRECT, ind, was, inodes, ss);
      assert ss + {NDIRECT} == ALLSLOTS;
      mem := mem[i := WithAddr(mem[i], NDIRECT, 0)];
    }

    lemma IndirectOnDisk(was: seq<Block>, inodes: seq<Inode>, i: nat)
      requires Conserved(sb, was, inodes, owner, loose) && i < |inodes| && inodes[i].addrs[NDIRECT] != 0
      ensures DataStart(sb) <= inodes[i].addrs[NDIRECT] < sb.size
    {
      hide SlotAddr, Used, BitsOk;
      DirectSlot(was, inodes[i], NDIRECT);
    }

    /** A free inode on disk holds nothing, and the memory and the disk agree on it. */
    ghost predicate FreeOk()
      reads this`mem, this`dinodes
    {
      FreeInodes(mem, dinodes)
    }

    /** itrunc(): every block of the file goes back to the free map, even one beyond its size, and nothing
        else changes. */
    method Itrunc(i: nat)
      requires Valid() && i < |mem|
      modifies this`blocks, this`mem, this`dinodes, this`owner, this`maps, this`rest, this`allocs
      ensures Valid() && mem == old(mem)[i := Emptied(old(mem)[i])] && dinodes == old(dinodes)[i := mem[i]]
      ensures old(dinodes == mem) ==> dinodes == mem
      ensures old(FreeOk()) ==> FreeOk()
      ensures owner == Disowned(old(owner), i)
      ensures forall b: nat | b < sb.size ::
        Used(sb, blocks, b) <==> Used(sb, old(blocks), b) && b !in Held(old(blocks), old(mem)[i], ALLSLOTS)
      ensures forall j, k | 0 <= j < |mem| && j != i && 0 <= k < MAXBYTES ::
        ByteAt(blocks, mem[j], k) == ByteAt(old(blocks), old(mem)[j], k)
    {
      hide Used, OwnerOk, SlotsOk, BitsOk, Held, ByteAt, FreeInodes;
      ghost var was, inodes := blocks, mem;
      FreeEmptied(mem, dinodes, i);
      TruncDirect(i);
      if mem[i].addrs[NDIRECT] != 0 {
        TruncIndirect(i, was, inodes);
      } else {
        NoIndirect(was, inodes[i]);
      }
      mem := mem[i := mem[i].(size := 0)];
      assert mem[i].addrs == Emptied(inodes[i]).addrs;
      assert mem == inodes[i := Emptied(inodes[i])];
      Iupdate(i);
      TruncKeeps(sb, was, inodes, owner, loose, blocks, i);
      forall j, k | 0 <= j < |mem| && j != i && 0 <= k < MAXBYTES
        ensures ByteAt(blocks, mem[j], k) == ByteAt(was, inodes[j], k)
      {
        TruncBytes(sb, was, inodes, owner, blocks, j, k);
      }
      owner := Disowned(owner, i);
    }

    lemma NoIndirect(was: seq<Block>, ino: Inode)
      requires ino.addrs[NDIRECT] == 0
      ensures Held(was, ino, DIRECTSLOTS) == Held(was, ino, ALLSLOTS)
    {
      assert forall s: nat | NDIRECT <= s < NSLOTS :: SlotAddr(was, ino, s) == 0;
      hide SlotAddr;
    }

    /** Replaces `data` bytes from position `at` of the block in slot SlotOf(bn) of file i. */
    method PutBytes(i: nat, bn: nat, addr: nat, at: nat, data: seq<byte>)
      requires Valid() && i < |mem| && bn < MAXFILE && at + |data| <= BSIZE
      requires addr == SlotAddr(blocks, mem[i], SlotOf(bn)) != 0
      modifies this`blocks
      ensures Valid() && SlotsSame(old(blocks), blocks, mem)
      ensures forall j, k | 0 <= j < |mem| && 0 <= k < MAXBYTES ::
        ByteAt(blocks, mem[j], k) ==
          if j == i && bn * BSIZE + at <= k < bn * BSIZE + at + |data| then data[k - (bn * BSIZE + at)]
          else ByteAt(old(blocks), mem[j], k)
    {
      hide OwnerOk, SlotsOk, BitsOk, Used, SlotAddr;
      ghost var was := blocks;
      InRange(i, SlotOf(bn));
      var blk := blocks[addr][..at] + data + blocks[addr][at + |data|..];
      DataKeeps(sb, was, mem, owner, loose, i, SlotOf(bn), blk);
      blocks := blocks[addr := blk];
      forall j, k | 0 <= j < |mem| && 0 <= k < MAXBYTES
        ensures ByteAt(blocks, mem[j], k) ==
          if j == i && bn * BSIZE + at <= k < bn * BSIZE + at + |data| then data[k - (bn * BSIZE + at)]
          else ByteAt(was, mem[j], k)
      {
        DataBytes(sb, was, mem, owner, loose, i, SlotOf(bn), blk, j, k);
        if j == i && SlotOf(k / BSIZE) == SlotOf(bn) {
          assert k / BSIZE == bn;
        }
      }
    }

    /** One turn of the loop of readi(), of which copyout() is left to the caller. */
    method ReadChunk(i: nat, o: nat, m: nat, ghost was: seq<Block>, ghost inodes: seq<Inode>)
      returns (chunk: seq<byte>, ok: bool)
      requires Valid() && i < |mem| && Grown(was, inodes, blocks, mem, i) && inodes[i].size <= MAXBYTES
      requires o < inodes[i].size && o + m <= inodes[i].size && o % BSIZE + m <= BSIZE
      modifies this`blocks, this`mem, this`owner, this`loose, this`maps, this`rest, this`allocs, this`taken
      ensures Valid() && loose == old(loose)
      ensures NoHoles(was, inodes[i]) && old(blocks) == was && old(mem) == inodes ==>
        ok && blocks == was && mem == inodes && rest == old(rest)
      ensures ok ==>
        i < |mem| && Grown(was, inodes, blocks, mem, i) && chunk == Content(was, inodes[i])[o..o + m]
    {
      hide Conserved, SlotAddr, ByteAt, Grown, Order;
      ghost var midBlocks, midMem := blocks, mem;
      GrownLength(was, inodes, blocks, mem, i);
      assert NoHoles(was, inodes[i]) ==> SlotAddr(was, inodes[i], SlotOf(o / BSIZE)) != 0;
      var addr;
      addr, ok := Bmap(i, o / BSIZE);
      if !ok {
        return [], false;
      }
      GrownTwice(was, inodes, midBlocks, midMem, blocks, mem, i);
      GrownLength(midBlocks, midMem, blocks, mem, i);
      DiskSize();
      ChunkBytes(was, inodes, blocks, mem, i, addr, o, m);
      chunk := blocks[addr][o % BSIZE..o % BSIZE + m];
    }

    lemma GrownLength(b0: seq<Block>, m0: seq<Inode>, b1: seq<Block>, m1: seq<Inode>, i: nat)
      requires Grown(b0, m0, b1, m1, i)
      ensures |m1| == |m0| && i < |m0|
    {}

    lemma DiskSize()
      requires Valid()
      ensures SuperOk(sb) && |blocks| == sb.size
    {
      hide OwnerOk, SlotsOk, BitsOk;
    }

    /** readi(): copies the bytes of file i from `off` on, at most n of them, to a destination that can take
        `room` bytes before copyout() fails. */
    method Readi(i: nat, off: nat, n: nat, room: nat) returns (r: int, dst: seq<byte>, ok: bool)
      requires Valid() && i < |mem| && mem[i].size <= MAXBYTES && off < UINT && n < UINT
      modifies this`blocks, this`mem, this`owner, this`loose, this`maps, this`rest, this`allocs, this`taken
      ensures Valid() && loose == old(loose)
      ensures NoHoles(old(blocks), old(mem)[i]) ==> ok && blocks == old(blocks) && mem == old(mem) && rest == old(rest)
      ensures ok ==> Grown(old(blocks), old(mem), blocks, mem, i)
      ensures ok ==>
        var size := old(mem)[i].size;
        var want := if off > size || off + n >= UINT then 0 else Min(n, size - off);
        && (r == -1 <==> room < want)
        && (r != -1 ==> r == want && (want > 0 ==> dst == Content(old(blocks), old(mem)[i])[off..off + want]))
    {
      hide Conserved, SlotAddr, ByteAt, Grown, NoHoles, Order;
      GrownSelf(blocks, mem, i);
      ghost var was, inodes := blocks, mem;
      dst, ok := [], true;
      if off > mem[i].size || off + n >= UINT {
        return 0, [], true;
      }
      var want := n;
      if off + n > mem[i].size {
        want := mem[i].size - off;
      }
      ghost var full := Content(was, inodes[i]);
      var tot, o := 0, off;
      while tot < want
        invariant Valid() && loose == old(loose) && tot <= want && o == off + tot && tot <= room && i < |mem|
        invariant Grown(was, inodes, blocks, mem, i) && ok
        invariant NoHoles(was, inodes[i]) ==> blocks == was && mem == inodes && rest == old(rest)
        invariant dst == full[off..o]
      {
        var m := Min(want - tot, BSIZE - o % BSIZE);
        var chunk;
        chunk, ok := ReadChunk(i, o, m, was, inodes);
        if !ok {
          return 0, dst, false;
        }
        if tot + m > room {
          return -1, dst, true;
        }
        dst := dst + chunk;
        assert full[off..o + m] == full[off..o] + full[o..o + m];
        tot, o := tot + m, o + m;
      }
      r := tot;
    }

    /** A chunk of a block is a chunk of the file. */
    lemma ChunkBytes(was: seq<Block>, inodes: seq<Inode>, now: seq<Block>, inodes': seq<Inode>, i: nat, addr: nat,
                     o: nat, m: nat)
      requires Grown(was, inodes, now, inodes', i) && inodes[i].size <= MAXBYTES
      requires o + m <= inodes[i].size && o % BSIZE + m <= BSIZE && o < inodes[i].size
      requires 0 < addr < |now| && addr == SlotAddr(now, inodes'[i], SlotOf(o / BSIZE))
      ensures now[addr][o % BSIZE..o % BSIZE + m] == Content(was, inodes[i])[o..o + m]
    {
      hide SlotAddr;
      var x, y := now[addr][o % BSIZE..o % BSIZE + m], Content(was, inodes[i])[o..o + m];
      forall k | 0 <= k < m ensures x[k] == y[k] {
        assert (o + k) / BSIZE == o / BSIZE && (o + k) % BSIZE == o % BSIZE + k;
        assert ByteAt(now, inodes'[i], o + k) == ByteAt(was, inodes[i], o + k);
      }
    }

    /** One turn of the loop of writei(): `logit` is false when copyin() failed part of the way through. */
    method WriteChunk(i: nat, o: nat, chunk: seq<byte>, logit: bool) returns (ok: bool)
      requires Valid() && i < |mem| && o < MAXBYTES && o % BSIZE + |chunk| <= BSIZE
      modifies this`blocks, this`mem, this`owner, this`loose, this`maps, this`rest, this`allocs, this`taken
      ensures Valid() && loose == old(loose)
      ensures SlotAddr(old(blocks), old(mem)[i], SlotOf(o / BSIZE)) != 0 ==> ok
      ensures ok ==>
        && SlotsStable(old(blocks), old(mem), blocks, mem, i)
        && BytesPut(old(blocks), old(mem), blocks, mem, i, o, chunk)
        && SlotAddr(blocks, mem[i], SlotOf(o / BSIZE)) != 0
        && (forall t: nat | t < NSLOTS && t != NDIRECT && t != SlotOf(o / BSIZE) ::
              SlotAddr(blocks, mem[i], t) == SlotAddr(old(blocks), old(mem)[i], t))
        && allocs == old(allocs) + old(AllocsFor(i, o / BSIZE)) && rest >= old(rest)
        && (logit ==> SlotAddr(blocks, mem[i], SlotOf(o / BSIZE)) in rest)
        && rest <= old(rest) + Held(blocks, mem[i], {NDIRECT, SlotOf(o / BSIZE)})
        && (o / BSIZE < NDIRECT ==> mem[i].addrs[NDIRECT] == old(mem)[i].addrs[NDIRECT])
        && (o / BSIZE >= NDIRECT ==> mem[i].addrs[NDIRECT] != 0)
      ensures old(InOrder()) ==> InOrder() && (!ok ==> |free0| < old(allocs) + old(AllocsFor(i, o / BSIZE)))
    {
      hide OwnerOk, SlotsOk, BitsOk, Used, SlotAddr, ByteAt, Held;
      var bn := o / BSIZE;
      var addr;
      addr, ok := Bmap(i, bn);
      if !ok {
        return;
      }
      ghost var midBlocks := blocks;
      ghost var ss := {NDIRECT, SlotOf(bn)};
      PutBytes(i, bn, addr, o % BSIZE, chunk);
      HeldSame(midBlocks, blocks, mem[i], ss);
      assert addr in Held(blocks, mem[i], ss) by { InHeld(blocks, mem[i], ss, SlotOf(bn)); }
      if logit {
        rest := rest + {addr};
      }
    }

    lemma HeldSame(was: seq<Block>, now: seq<Block>, ino: Inode, ss: set<nat>)
      requires forall t: nat | t < NSLOTS :: SlotAddr(now, ino, t) == SlotAddr(was, ino, t)
      ensures Held(now, ino, ss) == Held(was, ino, ss)
    {
      hide SlotAddr;
    }

    lemma InHeld(bs: seq<Block>, ino: Inode, ss: set<nat>, s: nat)
      requires s in ss && s < NSLOTS && SlotAddr(bs, ino, s) != 0
      ensures SlotAddr(bs, ino, s) in Held(bs, ino, ss)
    {}

    lemma PutMore(b0: seq<Block>, m0: seq<Inode>, b1: seq<Block>, m1: seq<Inode>, b2: seq<Block>, m2: seq<Inode>,
                  i: nat, off: nat, src: seq<byte>, x: nat, y: nat)
      requires x <= y <= |src| && BytesPut(b0, m0, b1, m1, i, off, src[..x])
      requires BytesPut(b1, m1, b2, m2, i, off + x, src[x..y])
      ensures BytesPut(b0, m0, b2, m2, i, off, src[..y])
    {
      hide ByteAt;
    }

    lemma StableTwice(b0: seq<Block>, m0: seq<Inode>, b1: seq<Block>, m1: seq<Inode>, b2: seq<Block>, m2: seq<Inode>,
                      i: nat)
      requires SlotsStable(b0, m0, b1, m1, i) && SlotsStable(b1, m1, b2, m2, i)
      ensures SlotsStable(b0, m0, b2, m2, i)
    {
      hide SlotAddr;
    }

    lemma PutNothing(bs: seq<Block>, ms: seq<Inode>, i: nat, off: nat)
      requires i < |ms|
      ensures BytesPut(bs, ms, bs, ms, i, off, []) && SlotsStable(bs, ms, bs, ms, i)
    {
      hide SlotAddr, ByteAt;
    }

    lemma CountedMore(rest0: set<nat>, ino: Inode, ino': Inode, b0: seq<Block>, b1: seq<Block>,
                      r0: set<nat>, r1: set<nat>, lo: nat, h: nat)
      requires lo <= h && r0 <= rest0 + Held(b0, ino, Touched(lo, h))
      requires r1 <= r0 + Held(b1, ino', {NDIRECT, SlotOf(h)})
      requires forall t: nat | t < NSLOTS && SlotAddr(b0, ino, t) != 0 :: SlotAddr(b1, ino', t) == SlotAddr(b0, ino, t)
      ensures r1 <= rest0 + Held(b1, ino', Touched(lo, h + 1))
    {
      hide SlotAddr, Held;
      TouchedBase(lo, h);
      HeldGrows(b0, ino, b1, ino', Touched(lo, h));
      HeldMonotone(b1, ino', Touched(lo, h), Touched(lo, h + 1));
      HeldMonotone(b1, ino', {NDIRECT, SlotOf(h)}, Touched(lo, h + 1));
    }

    lemma WrittenMore(b0: seq<Block>, ino: Inode, b1: seq<Block>, ino': Inode, r0: set<nat>, r1: set<nat>, lo: nat,
                      h: nat)
      requires h < MAXFILE && Written(b0, ino, r0, lo, h) && r0 <= r1 && SlotAddr(b1, ino', SlotOf(h)) in r1
      requires forall bn: nat | lo <= bn < h :: SlotAddr(b0, ino, SlotOf(bn)) != 0
      requires forall t: nat | t < NSLOTS && SlotAddr(b0, ino, t) != 0 :: SlotAddr(b1, ino', t) == SlotAddr(b0, ino, t)
      ensures Written(b1, ino', r1, lo, h + 1)
    {
      hide SlotAddr;
    }

    lemma {:induction false} TouchedBase(lo: nat, h: nat)
      requires lo <= h
      ensures NDIRECT in Touched(lo, h)
      decreases h
    {
      if h > lo { TouchedBase(lo, h - 1); }
    }

    /** A chunk of writei() and its share of the count. */
    method CountedChunk(i: nat, o: nat, chunk: seq<byte>, logit: bool, ghost was: seq<Block>, ghost ino: Inode,
                        ghost rest0: set<nat>, ghost allocs0: nat, ghost lo: nat) returns (ok: bool)
      requires Valid() && i < |mem| && o < MAXBYTES && o % BSIZE + |chunk| <= BSIZE
      requires Counted(was, ino, blocks, mem[i], rest0, rest, allocs0, allocs, lo, o / BSIZE)
      modifies this`blocks, this`mem, this`owner, this`loose, this`maps, this`rest, this`allocs, this`taken
      ensures Valid() && loose == old(loose)
      ensures ok ==>
        && SlotsStable(old(blocks), old(mem), blocks, mem, i)
        && BytesPut(old(blocks), old(mem), blocks, mem, i, o, chunk)
        && Counted(was, ino, blocks, mem[i], rest0, rest, allocs0, allocs, lo, o / BSIZE + 1)
        && (logit && Written(old(blocks), old(mem)[i], old(rest), lo, o / BSIZE) ==>
              Written(blocks, mem[i], rest, lo, o / BSIZE + 1))
      ensures old(InOrder()) ==> InOrder() && (!ok ==> |free0| < allocs0 + Needs(was, ino, lo, o / BSIZE + 1))
    {
      hide OwnerOk, SlotsOk, BitsOk, Used, SlotAddr, ByteAt, Held, BytesPut, Touched, InOrder, Needs, Filled;
      ghost var b0, m0, r0 := blocks, mem, rest;
      FilledBounds(was, ino, blocks, mem[i], lo, o / BSIZE);
      NeedsNext(was, ino, blocks, mem[i], lo, o / BSIZE);
      ok := WriteChunk(i, o, chunk, logit);
      if !ok {
        return;
      }
      CountedMore(rest0, m0[i], mem[i], b0, blocks, r0, rest, lo, o / BSIZE);
      if logit && Written(b0, m0[i], r0, lo, o / BSIZE) {
        WrittenMore(b0, m0[i], blocks, mem[i], r0, rest, lo, o / BSIZE);
      }
      FilledMore(was, ino, b0, m0, blocks, mem, i, lo, o / BSIZE);
    }

    lemma FilledBounds(was: seq<Block>, ino: Inode, now: seq<Block>, ino': Inode, lo: nat, h: nat)
      requires Filled(was, ino, now, ino', lo, h)
      ensures lo <= h <= MAXFILE && forall bn: nat | lo <= bn < h :: SlotAddr(now, ino', SlotOf(bn)) != 0
    {
      hide SlotAddr;
    }

    lemma FilledMore(was: seq<Block>, ino: Inode, b0: seq<Block>, m0: seq<Inode>, b1: seq<Block>, m1: seq<Inode>,
                     i: nat, lo: nat, h: nat)
      requires SlotsStable(b0, m0, b1, m1, i) && Filled(was, ino, b0, m0[i], lo, h) && h < MAXFILE
      requires SlotAddr(b1, m1[i], SlotOf(h)) != 0
      requires forall t: nat | t < NSLOTS && t != NDIRECT && t != SlotOf(h) ::
        SlotAddr(b1, m1[i], t) == SlotAddr(b0, m0[i], t)
      requires h < NDIRECT ==> m1[i].addrs[NDIRECT] == m0[i].addrs[NDIRECT]
      requires h >= NDIRECT ==> m1[i].addrs[NDIRECT] != 0
      ensures Filled(was, ino, b1, m1[i], lo, h + 1)
    {
      IndirectStable(b0, m0, b1, m1, i);
      hide SlotAddr;
    }

    lemma IndirectStable(b0: seq<Block>, m0: seq<Inode>, b1: seq<Block>, m1: seq<Inode>, i: nat)
      requires SlotsStable(b0, m0, b1, m1, i)
      ensures m0[i].addrs[NDIRECT] != 0 ==> m1[i].addrs[NDIRECT] == m0[i].addrs[NDIRECT]
    {
      DirectSlot(b0, m0[i], NDIRECT);
      DirectSlot(b1, m1[i], NDIRECT);
    }

    /** The loop of writei(): copies `src` into file i from `off` on; copyin() can read `avail` bytes of it. */
    method WriteLoop(i: nat, off: nat, src: seq<byte>, avail: nat) returns (tot: nat, ok: bool, ghost h: nat)
      requires Valid() && i < |mem| && off + |src| <= MAXBYTES
      modifies this`blocks, this`mem, this`owner, this`loose, this`maps, this`rest, this`allocs, this`taken
      ensures Valid() && loose == old(loose)
      ensures ok ==>
        && tot <= |src| && SlotsStable(old(blocks), old(mem), blocks, mem, i)
        && BytesPut(old(blocks), old(mem), blocks, mem, i, off, src[..Min(|src|, avail)])
        && (tot < |src| <==> avail < |src|)
        && (tot < |src| ==> tot <= avail < tot + BSIZE && (tot == 0 || (off + tot) % BSIZE == 0))
        && Counted(old(blocks), old(mem)[i], blocks, mem[i], old(rest), rest, old(allocs), allocs, off / BSIZE, h)
        && (tot == |src| ==> Written(blocks, mem[i], rest, off / BSIZE, h) && h == EndBlock(off, |src|))
        && (off + tot <= h * BSIZE || tot == 0) && (h > off / BSIZE ==> (h - 1) * BSIZE < off + |src|)
      ensures old(InOrder()) ==> InOrder()
      ensures !ok && old(InOrder()) ==>
        |free0| < old(allocs) + Needs(old(blocks), old(mem)[i], off / BSIZE, EndBlock(off, |src|))
    {
      hide OwnerOk, SlotsOk, BitsOk, Used, SlotAddr, ByteAt, Held, BytesPut, Touched, SlotsStable, Counted, Written,
           InOrder, Needs;
      ghost var was, inodes, rest0, allocs0, lo := blocks, mem, rest, allocs, off / BSIZE;
      h := lo;
      var n := |src|;
      CountedNothing(i, lo);
      WrittenNothing(blocks, mem[i], rest, lo);
      PutNothing(blocks, mem, i, off);
      assert src[..0] == [];
      tot, ok := 0, true;
      var o := off;
      while tot < n
        invariant Valid() && loose == old(loose) && ok && tot <= n && o == off + tot && tot <= avail && i < |mem|
        invariant SlotsStable(was, inodes, blocks, mem, i)
        invariant BytesPut(was, inodes, blocks, mem, i, off, src[..tot])
        invariant Counted(was, inodes[i], blocks, mem[i], rest0, rest, allocs0, allocs, lo, h)
        invariant Written(blocks, mem[i], rest, lo, h)
        invariant old(InOrder()) ==> InOrder()
        invariant if tot == 0 then h == lo else (o <= h * BSIZE < o + BSIZE && (tot < n ==> o % BSIZE == 0))
      {
        ghost var b1, m1 := blocks, mem;
        assert h == o / BSIZE;
        NeedsMore(was, inodes[i], lo, o / BSIZE + 1, EndBlock(off, |src|));
        var m := Min(n - tot, BSIZE - o % BSIZE);
        if tot + m > avail {
          ok := CountedChunk(i, o, src[tot..avail], false, was, inodes[i], rest0, allocs0, lo);
          if ok {
            StableTwice(was, inodes, b1, m1, blocks, mem, i);
            PutMore(was, inodes, b1, m1, blocks, mem, i, off, src, tot, avail);
            h := h + 1;
          }
          return;
        }
        ok := CountedChunk(i, o, src[tot..tot + m], true, was, inodes[i], rest0, allocs0, lo);
        if !ok {
          return;
        }
        StableTwice(was, inodes, b1, m1, blocks, mem, i);
        PutMore(was, inodes, b1, m1, blocks, mem, i, off, src, tot, tot + m);
        h := h + 1;
        tot, o := tot + m, o + m;
      }
    }

    lemma CountedNothing(i: nat, lo: nat)
      requires i < |mem| && lo <= MAXFILE
      ensures Counted(blocks, mem[i], blocks, mem[i], rest, rest, allocs, allocs, lo, lo)
    {
      hide SlotAddr, Held;
    }

    lemma WrittenNothing(bs: seq<Block>, ino: Inode, r: set<nat>, lo: nat)
      ensures Written(bs, ino, r, lo, lo)
    {}

    /** Bytes and block maps do not look at the size. */
    lemma SizeInvisible(bs: seq<Block>, ino: Inode, size: nat)
      ensures forall s: nat | s < NSLOTS :: SlotAddr(bs, ino.(size := size), s) == SlotAddr(bs, ino, s)
      ensures forall k: nat | k < MAXBYTES :: ByteAt(bs, ino.(size := size), k) == ByteAt(bs, ino, k)
    {}

    lemma ResizeKeeps(i: nat, size: nat)
      requires Valid() && i < |mem|
      ensures Conserved(sb, blocks, mem[i := mem[i].(size := size)], owner, loose)
    {
      hide Used, SlotAddr;
      SizeInvisible(blocks, mem[i], size);
    }

    /** After a write that began at the end of the file or before, no block below the new size is missing. */
    lemma HolesFilled(was: seq<Block>, inodes: seq<Inode>, now: seq<Block>, inodes': seq<Inode>, rest0: set<nat>,
                      rest1: set<nat>,
                      allocs0: nat, allocs1: nat, i: nat, off: nat, tot: nat, h: nat)
      requires SlotsStable(was, inodes, now, inodes', i)
      requires Counted(was, inodes[i], now, inodes'[i], rest0, rest1, allocs0, allocs1, off / BSIZE, h)
      requires NoHoles(was, inodes[i]) && off <= inodes[i].size && (off + tot <= h * BSIZE || tot == 0)
      ensures NoHoles(now, inodes'[i].(size := if off + tot > inodes[i].size then off + tot else inodes[i].size))
    {
      hide SlotAddr, Held;
      var size := if off + tot > inodes[i].size then off + tot else inodes[i].size;
      SizeInvisible(now, inodes'[i], size);
      forall bn: nat | bn < MAXFILE && bn * BSIZE < size ensures SlotAddr(now, inodes'[i], SlotOf(bn)) != 0 {
        if bn * BSIZE < inodes[i].size {
          assert SlotAddr(was, inodes[i], SlotOf(bn)) != 0;
        } else {
          assert off / BSIZE <= bn < h;
        }
      }
    }

    lemma ResizedBytes(was: seq<Block>, inodes: seq<Inode>, now: seq<Block>, inodes': seq<Inode>, i: nat, off: nat,
                       data: seq<byte>, size: nat)
      requires BytesPut(was, inodes, now, inodes', i, off, data) && i < |inodes|
      ensures BytesPut(was, inodes, now, inodes'[i := inodes'[i].(size := size)], i, off, data)
    {
      hide ByteAt;
      SizeInvisible(now, inodes'[i], size);
    }

    /** Updating the inode adds its block and leaves the rest of the count alone. */
    lemma CountedInode(was: seq<Block>, ino: Inode, now: seq<Block>, ino': Inode, rest0: set<nat>, rest1: set<nat>,
                       allocs0: nat, allocs1: nat, lo: nat, h: nat, size: nat, b: nat)
      requires Counted(was, ino, now, ino', rest0, rest1, allocs0, allocs1, lo, h)
      ensures Counted(was, ino, now, ino'.(size := size), rest0 + {b}, rest1 + {b}, allocs0, allocs1, lo, h)
    {
      hide SlotAddr, Touched;
      SizeInvisible(now, ino', size);
      HeldResized(now, ino', size, Touched(lo, h));
    }

    lemma CountedNeeds(was: seq<Block>, ino: Inode, now: seq<Block>, ino': Inode, rest0: set<nat>, rest1: set<nat>,
                       allocs0: nat, allocs1: nat, lo: nat, h: nat)
      requires Counted(was, ino, now, ino', rest0, rest1, allocs0, allocs1, lo, h)
      ensures Filled(was, ino, now, ino', lo, h) && lo <= h && allocs1 == allocs0 + Needs(was, ino, lo, h)
    {
      hide Held, SlotAddr, Needs;
    }

    lemma WrittenInode(bs: seq<Block>, ino: Inode, r: set<nat>, lo: nat, h: nat, size: nat, b: nat)
      requires Written(bs, ino, r, lo, h)
      ensures Written(bs, ino.(size := size), r + {b}, lo, h)
    {
      SizeInvisible(bs, ino, size);
      hide SlotAddr;
    }

    lemma HeldResized(bs: seq<Block>, ino: Inode, size: nat, ss: set<nat>)
      ensures Held(bs, ino.(size := size), ss) == Held(bs, ino, ss)
    {
      SizeInvisible(bs, ino, size);
      hide SlotAddr;
    }

    /** The last lines of writei(): the size, and iupdate(). */
    method SetSize(i: nat, size: nat)
      requires Valid() && i < |mem|
      modifies this`mem, this`dinodes, this`rest
      ensures Valid() && mem == old(mem)[i := old(mem)[i].(size := size)] && dinodes == old(dinodes)[i := mem[i]]
      ensures rest == old(rest) + {IBlock(sb, i)}
    {
      hide Conserved, IBlock;
      ResizeKeeps(i, size);
      mem := mem[i := mem[i].(size := size)];
      Iupdate(i);
    }

    lemma StableInodes(was: seq<Block>, inodes: seq<Inode>, now: seq<Block>, inodes': seq<Inode>, i: nat)
      requires SlotsStable(was, inodes, now, inodes', i)
      ensures |inodes'| == |inodes| && i < |inodes| && inodes' == inodes[i := inodes'[i]]
      ensures inodes'[i] == inodes[i].(addrs := inodes'[i].addrs)
    {
      hide SlotAddr;
    }

    /** writei(): -1 when the range is refused; otherwise the bytes of `src` that copyin() could read, of which
        `avail` are readable, are in place, and r of them count. */
    method Writei(i: nat, off: nat, src: seq<byte>, avail: nat) returns (r: int, ok: bool, ghost h: nat)
      requires Valid() && i < |mem| && mem[i].size <= MAXBYTES && off < UINT && |src| < UINT
      modifies this`blocks, this`mem, this`dinodes, this`owner, this`loose, this`maps, this`rest, this`allocs,
               this`taken
      ensures Valid() && loose == old(loose)
      ensures ok ==> (r == -1 <==> off > old(mem)[i].size || off + |src| >= UINT || off + |src| > MAXBYTES)
      ensures ok && r == -1 ==>
        && blocks == old(blocks) && mem == old(mem) && dinodes == old(dinodes) && rest == old(rest)
        && allocs == old(allocs)
      ensures ok && r != -1 ==>
        && 0 <= r <= |src| && (r < |src| <==> avail < |src|)
        && (r < |src| ==> r <= avail < r + BSIZE && (r == 0 || (off + r) % BSIZE == 0))
        && |mem| == |old(mem)| && (forall j | 0 <= j < |mem| && j != i :: mem[j] == old(mem)[j])
        && mem[i] == old(mem)[i].(addrs := mem[i].addrs, size := mem[i].size)
        && mem[i].size == (if off + r > old(mem)[i].size then off + r else old(mem)[i].size) <= MAXBYTES
        && dinodes == old(dinodes)[i := mem[i]]
        && BytesPut(old(blocks), old(mem), blocks, mem, i, off, src[..Min(|src|, avail)])
        && (NoHoles(old(blocks), old(mem)[i]) ==> NoHoles(blocks, mem[i]))
        && (h > off / BSIZE ==> (h - 1) * BSIZE < off + |src|) && (off + r <= h * BSIZE || r == 0)
        && Counted(old(blocks), old(mem)[i], blocks, mem[i], old(rest) + {IBlock(sb, i)}, rest,
                   old(allocs), allocs, off / BSIZE, h)
        && (r == |src| ==>
              && Written(blocks, mem[i], rest, off / BSIZE, h) && IBlock(sb, i) in rest
              && h == EndBlock(off, |src|))
      ensures ok && old(dinodes == mem) ==> dinodes == mem
      ensures ok && old(FreeOk()) && old(mem)[i].typ != 0 ==> FreeOk()
      ensures old(InOrder()) ==> InOrder()
      ensures !ok && old(InOrder()) ==>
        |free0| < old(allocs) + Needs(old(blocks), old(mem)[i], off / BSIZE, EndBlock(off, |src|))
      ensures !ok ==> off <= old(mem)[i].size && off + |src| <= MAXBYTES
      ensures old(InOrder()) && off <= old(mem)[i].size && off + |src| <= MAXBYTES && avail >= |src| ==>
        (ok <==> |free0| >= old(allocs) + Needs(old(blocks), old(mem)[i], off / BSIZE, EndBlock(off, |src|)))
    {
      hide OwnerOk, SlotsOk, BitsOk, Used, SlotAddr, ByteAt, Held, BytesPut, Touched, Counted, NoHoles, Written, Needs,
           FreeInodes, Conserved, TakenOk, InOrder, SlotsStable, IBlock, EndBlock, Filled, Missing;
      if off > mem[i].size || off + |src| >= UINT {
        return -1, true, 0;
      }
      if off + |src| > MAXBYTES {
        return -1, true, 0;
      }
      ghost var was, inodes := blocks, mem;
      var tot;
      tot, ok, h := WriteLoop(i, off, src, avail);
      if !ok {
        return 0, false, h;
      }
      if NoHoles(was, inodes[i]) {
        HolesFilled(was, inodes, blocks, mem, old(rest), rest, old(allocs), allocs, i, off, tot, h);
      }
      StableInodes(was, inodes, blocks, mem, i);
      var size := if off + tot > mem[i].size then off + tot else mem[i].size;
      ResizedBytes(was, inodes, blocks, mem, i, off, src[..Min(|src|, avail)], size);
      CountedInode(was, inodes[i], blocks, mem[i], old(rest), rest, old(allocs), allocs, off / BSIZE, h, size,
                   IBlock(sb, i));
      if tot == |src| { WrittenInode(blocks, mem[i], rest, off / BSIZE, h, size, IBlock(sb, i)); }
      SetSize(i, size);
      assert mem == inodes[i := mem[i]];
      if mem[i].typ != 0 { FreeWritten(inodes, old(dinodes), i, mem[i]); }
      CountedNeeds(was, inodes[i], blocks, mem[i], old(rest) + {IBlock(sb, i)}, rest, old(allocs), allocs, off / BSIZE,
                   h);
      if InOrder() { InOrderCount(); }
      r := tot;
    }

    /** ialloc(): the lowest free inode, cleared and given its type; false is the panic "no inodes". */
    method Ialloc(typ: int) returns (i: nat, ok: bool)
      requires Valid() && FreeOk() && typ != 0
      modifies this`mem, this`dinodes, this`rest
      ensures Valid() && FreeOk()
      ensures ok <==> exists j :: 1 <= j < sb.ninodes && old(dinodes)[j].typ == 0
      ensures !ok ==> mem == old(mem) && dinodes == old(dinodes)
      ensures ok ==>
        && 1 <= i < sb.ninodes && old(dinodes)[i].typ == 0 && (forall j | 1 <= j < i :: old(dinodes)[j].typ != 0)
        && mem[i] == RawInode.Inode(typ, 0, 0, 0, 0, [0, 0, 0, 0, 0, 0, 0, 0, 0, 0, 0, 0, 0])
        && mem == old(mem)[i := mem[i]] && dinodes == old(dinodes)[i := mem[i]]
    {
      hide Conserved;
      i := 1;
      while i < sb.ninodes
        invariant 1 <= i && forall j | 1 <= j < i && j < sb.ninodes :: dinodes[j].typ != 0
      {
        if dinodes[i].typ == 0 {
          ghost var was := mem;
          dinodes := dinodes[i := RawInode.Inode(typ, 0, 0, 0, 0, [0, 0, 0, 0, 0, 0, 0, 0, 0, 0, 0, 0, 0])];
          rest := rest + {IBlock(sb, i)};
          mem := mem[i := dinodes[i]];
          FreshInode(was, i);
          return i, true;
        }
        i := i + 1;
      }
      return 0, false;
    }

    lemma FreshInode(was: seq<Inode>, i: nat)
      requires Conserved(sb, blocks, was, owner, loose) && i < |was| == |mem| && mem == was[i := mem[i]]
      requires forall k | 0 <= k <= NDIRECT :: was[i].addrs[k] == 0 && mem[i].addrs[k] == 0
      ensures Conserved(sb, blocks, mem, owner, loose)
    {
      hide Used;
      assert forall s: nat | s < NSLOTS :: SlotAddr(blocks, mem[i], s) == 0 == SlotAddr(blocks, was[i], s);
      hide SlotAddr;
    }

    /** What iput() does to an inode with no links and no other reference: its blocks and the inode are freed. */
    method Ifree(i: nat)
      requires Valid() && FreeOk() && i < |mem|
      modifies this`blocks, this`mem, this`dinodes, this`owner, this`maps, this`rest, this`allocs
      ensures Valid() && FreeOk() && mem[i].typ == 0 && mem[i] == dinodes[i]
      ensures old(dinodes == mem) ==> dinodes == mem
      ensures owner == Disowned(old(owner), i)
      ensures forall j | 0 <= j < |mem| && j != i :: mem[j] == old(mem)[j] && dinodes[j] == old(dinodes)[j]
      ensures forall b: nat | b < sb.size ::
        Used(sb, blocks, b) <==> Used(sb, old(blocks), b) && b !in Held(old(blocks), old(mem)[i], ALLSLOTS)
    {
      hide Conserved, Used, SlotAddr, Held, ByteAt;
      DiskSize();
      Itrunc(i);
      Retype(i);
      mem := mem[i := mem[i].(typ := 0)];
      Iupdate(i);
    }

    lemma Retype(i: nat)
      requires Valid() && i < |mem|
      ensures Conserved(sb, blocks, mem[i := mem[i].(typ := 0)], owner, loose)
    {
      hide Used;
      assert forall s: nat | s < NSLOTS :: SlotAddr(blocks, mem[i].(typ := 0), s) == SlotAddr(blocks, mem[i], s);
      hide SlotAddr;
    }
  }

  // ----- what the contracts of readi() and writei() mean -----

  /** A file is a byte sequence: a complete writei() splices its bytes in and leaves every other file alone. */
  lemma WriteSplices(was: seq<Block>, inodes: seq<Inode>, now: seq<Block>, inodes': seq<Inode>, i: nat, off: nat,
                     src: seq<byte>)
    requires BytesPut(was, inodes, now, inodes', i, off, src)
    requires i < |inodes| && off <= inodes[i].size <= MAXBYTES && off + |src| <= MAXBYTES
    requires inodes'[i].size == if off + |src| > inodes[i].size then off + |src| else inodes[i].size
    requires forall j | 0 <= j < |inodes| && j != i :: inodes'[j] == inodes[j]
    ensures Content(now, inodes'[i]) == Spliced(Content(was, inodes[i]), off, src)
    ensures forall j | 0 <= j < |inodes| && j != i && inodes[j].size <= MAXBYTES ::
      Content(now, inodes'[j]) == Content(was, inodes[j])
  {
    hide ByteAt;
  }

  /** Every transaction of filewrite() fits MAXOPBLOCKS: the 4 data blocks of a misaligned chunk cost 3
      allocations, because the first of them is already there. */
  lemma TransactionFits(was: seq<Block>, ino: Inode, now: seq<Block>, ino': Inode, inodeBlock: nat,
                        maps: set<nat>, rest: set<nat>, allocs: nat, off: nat, n: nat, h: nat)
    requires Counted(was, ino, now, ino', {inodeBlock}, rest, 0, allocs, off / BSIZE, h) && |maps| <= allocs
    requires NoHoles(was, ino) && off <= ino.size <= MAXBYTES && n <= 3 * BSIZE
    requires h > off / BSIZE ==> (h - 1) * BSIZE < off + n
    ensures |maps + rest| <= 10
  {
    hide SlotAddr, Filled, Held, Touched, Missing;
    var lo := off / BSIZE;
    assert off % BSIZE != 0 && h > lo ==> SlotAddr(was, ino, SlotOf(lo)) != 0;
    FilledRange(was, ino, now, ino', lo, h);
    if h > lo {
      MissingBound(was, ino, lo, h);
    } else {
      NothingMissing(was, ino, lo);
    }
    HeldSize(now, ino', Touched(lo, h));
    SubsetSize(rest, {inodeBlock} + Held(now, ino', Touched(lo, h)));
    SubsetSize(maps + rest, maps + rest);
    assert |rest| <= 1 + (1 + h - lo);
  }

  ghost function FreeBlocks(sb: Super, blocks: seq<Block>): set<nat>
    requires SuperOk(sb) && |blocks| == sb.size
  {
    set b: nat | b < sb.size && !Used(sb, blocks, b)
  }

  /** The lowest free blocks, in order. */
  ghost predicate LowestFree(sb: Super, blocks: seq<Block>, f: seq<nat>)
    requires SuperOk(sb) && |blocks| == sb.size
  {
    && (forall k | 0 <= k < |f| :: f[k] in FreeBlocks(sb, blocks))
    && (forall j, k | 0 <= j < k < |f| :: f[j] < f[k])
    && (forall b | b in FreeBlocks(sb, blocks) && b !in f :: forall k | 0 <= k < |f| :: f[k] < b)
  }

  /** Four blocks that have their bits in four different blocks of the free map. */
  predicate FourMaps(sb: Super, f: seq<nat>) {
    |f| == 4 && forall j, k | 0 <= j < k < 4 :: BBlock(sb, f[j]) != BBlock(sb, f[k])
  }

  /** Four blocks taken in order are the four lowest free ones. */
  lemma TookLowest(sb: Super, was: seq<Block>, f: seq<nat>, owner: Owner, loose: set<nat>, taken: set<nat>,
                   four: set<nat>)
    requires SuperOk(sb) && |was| == sb.size && LowestFree(sb, was, f) && |f| == 4
    requires Order(sb, owner, loose, FreeBlocks(sb, was), taken, |taken|) && |taken| <= 4 && four <= taken
    requires |four| == 4
    ensures taken == {f[0], f[1], f[2], f[3]}
  {
    hide FreeBlocks;
    var all := {f[0], f[1], f[2], f[3]};
    assert |{f[0], f[1]}| == 2 && |{f[0], f[1], f[2]}| == 3 && |all| == 4;
    forall t | t in taken ensures t in all {
      if t !in all {
        forall k | 0 <= k < 4 ensures f[k] in taken {
          assert f[k] < t;
        }
        assert |all + {t}| == 5;
        SubsetSize(all + {t}, taken);
      }
    }
    SubsetSize(four, taken);
    SameSize(taken, all);
  }

  lemma SameSize(a: set<nat>, b: set<nat>)
    requires a <= b && |a| >= |b|
    ensures a == b
  {
    if x :| x in b && x !in a {
      SubsetSize(a, b - {x});
    }
  }

  /** A slot that was empty when the transaction began holds a block taken since. */
  lemma NewlyTaken(sb: Super, was: seq<Block>, inodes: seq<Inode>, before: Owner, now: seq<Block>, mem: seq<Inode>,
                   owner: Owner, taken: set<nat>, i: nat, s: nat)
    requires OwnerOk(sb, was, inodes, before) && SlotsOk(now, mem, owner) && i < |mem| && i < |inodes| && s < NSLOTS
    requires forall b | b in owner :: b in taken || (b in before && before[b] == owner[b])
    requires SlotAddr(was, inodes[i], s) == 0 && SlotAddr(now, mem[i], s) != 0
    ensures SlotAddr(now, mem[i], s) in taken
  {
    hide SlotAddr;
    var b := SlotAddr(now, mem[i], s);
    assert b in owner && owner[b] == (i, s);
  }

  lemma DataApart(sb: Super, blocks: seq<Block>, mem: seq<Inode>, owner: Owner, loose: set<nat>, i: nat, s: nat, t: nat)
    requires Conserved(sb, blocks, mem, owner, loose) && i < |mem| && s < t < NSLOTS
    requires SlotAddr(blocks, mem[i], s) != 0 && SlotAddr(blocks, mem[i], t) != 0
    ensures SlotAddr(blocks, mem[i], s) != SlotAddr(blocks, mem[i], t)
    ensures DataStart(sb) <= SlotAddr(blocks, mem[i], s) < sb.size
    ensures DataStart(sb) <= SlotAddr(blocks, mem[i], t) < sb.size
  {
    hide SlotAddr, BitsOk;
  }

  lemma BlockKinds(sb: Super, i: nat, b: nat)
    requires SuperOk(sb) && i < sb.ninodes && b < sb.size
    ensures IBlock(sb, i) < sb.bmapstart <= BBlock(sb, b) < DataStart(sb)
  {
    assert b / BPB <= sb.size / BPB;
    assert i / IPB <= sb.ninodes / IPB;
  }

  /** The bound is exact: a chunk that begins inside the last direct block, of a file without an indirect block, when
      the four lowest free blocks have their bits in four different blocks of the free map, logs 10 blocks. */
  lemma TransactionReaches(sb: Super, was: seq<Block>, inodes: seq<Inode>, before: Owner, f: seq<nat>, now: seq<Block>,
                           mem: seq<Inode>, owner: Owner, loose: set<nat>, i: nat, taken: set<nat>, maps: set<nat>,
                           rest: set<nat>)
    requires OwnerOk(sb, was, inodes, before) && Conserved(sb, now, mem, owner, loose) && i < |mem| == |inodes|
    requires i < sb.ninodes
    requires forall b | b in owner :: b in taken || (b in before && before[b] == owner[b])
    requires forall b | b in taken :: b in rest && BBlock(sb, b) in maps
    requires IBlock(sb, i) in rest && Written(now, mem[i], rest, 11, 15) && inodes[i].addrs[NDIRECT] == 0
    requires forall bn: nat | 11 <= bn < 15 :: SlotAddr(now, mem[i], SlotOf(bn)) != 0
    requires |was| == sb.size && LowestFree(sb, was, f) && FourMaps(sb, f)
    requires Order(sb, owner, loose, FreeBlocks(sb, was), taken, |taken|) && |taken| <= 4
    ensures |maps + rest| >= 10
  {
    hide SlotAddr, OwnerOk, SlotsOk, BitsOk, BBlock, DataStart, LowestFree, Order, FreeBlocks;
    ghost var data := Five(now, mem[i]);
    NewBlocks(sb, was, inodes, before, now, mem, owner, loose, i, taken, rest);
    FiveApart(sb, now, mem, owner, loose, i);
    assert data - {SlotAddr(now, mem[i], 11)} <= taken;
    TookLowest(sb, was, f, owner, loose, taken, data - {SlotAddr(now, mem[i], 11)});
    ghost var bits := {BBlock(sb, f[0]), BBlock(sb, f[1]), BBlock(sb, f[2]), BBlock(sb, f[3])};
    FourApart(sb, was, i, f);
    TenOf(maps + rest, IBlock(sb, i), data, bits, DataStart(sb));
  }

  ghost function Five(now: seq<Block>, ino: Inode): set<nat> {
    {SlotAddr(now, ino, 11), SlotAddr(now, ino, 12), SlotAddr(now, ino, 13), SlotAddr(now, ino, 14),
     SlotAddr(now, ino, 15)}
  }

  lemma NewBlocks(sb: Super, was: seq<Block>, inodes: seq<Inode>, before: Owner, now: seq<Block>, mem: seq<Inode>,
                  owner: Owner,
                  loose: set<nat>, i: nat, taken: set<nat>, rest: set<nat>)
    requires OwnerOk(sb, was, inodes, before) && Conserved(sb, now, mem, owner, loose) && i < |mem| == |inodes|
    requires forall b | b in owner :: b in taken || (b in before && before[b] == owner[b])
    requires Written(now, mem[i], rest, 11, 15) && inodes[i].addrs[NDIRECT] == 0
    requires forall bn: nat | 11 <= bn < 15 :: SlotAddr(now, mem[i], SlotOf(bn)) != 0
    ensures SlotAddr(now, mem[i], 11) in rest && forall s | 11 <= s < 16 :: SlotAddr(now, mem[i], s) != 0
    ensures forall s | 12 <= s < 16 :: SlotAddr(now, mem[i], s) in taken
  {
    hide OwnerOk, SlotsOk, BitsOk;
    assert SlotOf(11) == 11 && SlotOf(12) == 13 && SlotOf(13) == 14 && SlotOf(14) == 15;
    assert SlotAddr(now, mem[i], 13) != 0 && SlotAddr(now, mem[i], 12) != 0;
    forall s | 12 <= s < 16 ensures SlotAddr(now, mem[i], s) in taken {
      NewlyTaken(sb, was, inodes, before, now, mem, owner, taken, i, s);
    }
  }

  lemma FiveApart(sb: Super, now: seq<Block>, mem: seq<Inode>, owner: Owner, loose: set<nat>, i: nat)
    requires Conserved(sb, now, mem, owner, loose) && i < |mem|
    requires forall s | 11 <= s < 16 :: SlotAddr(now, mem[i], s) != 0
    ensures |Five(now, mem[i])| == 5 && forall y | y in Five(now, mem[i]) :: DataStart(sb) <= y
  {
    hide SlotAddr, Conserved, DataStart;
    forall s, t | 11 <= s < t < 16
      ensures SlotAddr(now, mem[i], s) != SlotAddr(now, mem[i], t) && DataStart(sb) <= SlotAddr(now, mem[i], s)
      ensures DataStart(sb) <= SlotAddr(now, mem[i], t)
    {
      DataApart(sb, now, mem, owner, loose, i, s, t);
    }
    var z, a, b, c, d := SlotAddr(now, mem[i], 11), SlotAddr(now, mem[i], 12), SlotAddr(now, mem[i], 13),
      SlotAddr(now, mem[i], 14), SlotAddr(now, mem[i], 15);
    assert z != a && z != b && z != c && z != d && a != b && a != c && a != d && b != c && b != d && c != d;
    assert |{z, a}| == 2 && |{z, a, b}| == 3 && |{z, a, b, c}| == 4;
  }

  lemma FourApart(sb: Super, was: seq<Block>, i: nat, f: seq<nat>)
    requires SuperOk(sb) && |was| == sb.size && i < sb.ninodes && FourMaps(sb, f) && LowestFree(sb, was, f)
    ensures IBlock(sb, i) < DataStart(sb)
    ensures var bits := {BBlock(sb, f[0]), BBlock(sb, f[1]), BBlock(sb, f[2]), BBlock(sb, f[3])};
      |bits| == 4 && forall y | y in bits :: IBlock(sb, i) < y < DataStart(sb)
  {
    hide BBlock, DataStart, IBlock, Used;
    forall k | 0 <= k < 4 ensures IBlock(sb, i) < BBlock(sb, f[k]) < DataStart(sb) {
      assert f[k] in FreeBlocks(sb, was);
      BlockKinds(sb, i, f[k]);
    }
    var a, b, c, d := BBlock(sb, f[0]), BBlock(sb, f[1]), BBlock(sb, f[2]), BBlock(sb, f[3]);
    assert |{a, b}| == 2 && |{a, b, c}| == 3;
  }

  lemma TenOf(x: set<nat>, ib: nat, data: set<nat>, bits: set<nat>, bound: nat)
    requires ib in x && data <= x && bits <= x && |data| == 5 && |bits| == 4
    requires ib < bound && (forall y | y in bits :: ib < y < bound) && (forall y | y in data :: bound <= y)
    ensures |x| >= 10
  {
    assert |data + bits| == 9;
    assert |data + bits + {ib}| == 10;
    SubsetSize(data + bits + {ib}, x);
  }
}
