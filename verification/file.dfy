/** filewrite() of kernel/file.c on a file of the file system: one transaction per chunk. */
module FileLayer {
  import opened FsLayout
  import opened FsMap
  import opened Fs

  const MAXOPBLOCKS: nat := 10
  /** filewrite()'s `max`. */
  const CHUNK: nat := ((MAXOPBLOCKS - 1 - 1 - 2) / 2) * BSIZE

  lemma SpliceMore(c: seq<byte>, off: nat, x: seq<byte>, y: seq<byte>)
    requires off <= |c|
    ensures Spliced(Spliced(c, off, x), off + |x|, y) == Spliced(c, off, x + y)
  {}

  lemma SpliceNothing(c: seq<byte>, off: nat)
    requires off <= |c|
    ensures Spliced(c, off, []) == c
  {}

  /** Every file but file i has kept its inode and its bytes. */
  ghost predicate OthersSame(was: seq<Block>, inodes: seq<Inode>, now: seq<Block>, inodes': seq<Inode>, i: nat) {
    && |inodes'| == |inodes|
    && forall j | 0 <= j < |inodes| && j != i ::
         && inodes'[j] == inodes[j]
         && (inodes[j].size <= MAXBYTES ==> Content(now, inodes'[j]) == Content(was, inodes[j]))
  }

  lemma OthersTwice(b0: seq<Block>, m0: seq<Inode>, b1: seq<Block>, m1: seq<Inode>, b2: seq<Block>, m2: seq<Inode>,
                    i: nat)
    requires OthersSame(b0, m0, b1, m1, i) && OthersSame(b1, m1, b2, m2, i)
    ensures OthersSame(b0, m0, b2, m2, i)
  {
    hide Content;
  }

  lemma OthersNone(bs: seq<Block>, ms: seq<Inode>, i: nat)
    ensures OthersSame(bs, ms, bs, ms, i)
  {}

  /** A full chunk that begins inside the last direct block of a file without an indirect block, when the four lowest
      free blocks have their bits in four blocks of the free map. */
  ghost predicate WorstCase(sb: Super, blocks: seq<Block>, ino: Inode, off: nat, n: nat)
    requires SuperOk(sb) && |blocks| == sb.size
  {
    && n == CHUNK && off / BSIZE == NDIRECT - 1 && off % BSIZE != 0 && off <= ino.size && ino.addrs[NDIRECT] == 0
    && exists f :: LowestFree(sb, blocks, f) && FourMaps(sb, f)
  }

  lemma WorstCaseNeeds(sb: Super, blocks: seq<Block>, ino: Inode, off: nat, n: nat)
    requires SuperOk(sb) && |blocks| == sb.size && WorstCase(sb, blocks, ino, off, n) && NoHoles(blocks, ino)
    ensures n == CHUNK && off <= ino.size && off + n <= MAXBYTES < UINT
    ensures off / BSIZE == 11 && EndBlock(off, n) == 15
    ensures Needs(blocks, ino, 11, 15) == 4 <= |FreeBlocks(sb, blocks)|
  {
    hide LowestFree, SlotAddr, Used;
    assert SlotAddr(blocks, ino, SlotOf(11)) != 0;
    ThreeMissing(blocks, ino);
    var f :| LowestFree(sb, blocks, f) && FourMaps(sb, f);
    FourFree(sb, blocks, f);
  }

  lemma ThreeMissing(blocks: seq<Block>, ino: Inode)
    requires ino.addrs[NDIRECT] == 0 && SlotAddr(blocks, ino, SlotOf(11)) != 0
    ensures Missing(blocks, ino, 11, 15) == 3
  {
    assert Missing(blocks, ino, 11, 12) == 0;
    assert Missing(blocks, ino, 11, 13) == 1;
    assert Missing(blocks, ino, 11, 14) == 2;
  }

  /** The free blocks and the block map when a write to the blocks lo..h of a file is done. */
  ghost predicate Paid(sb: Super, was: seq<Block>, ino: Inode, now: seq<Block>, ino': Inode, lo: nat, h: nat)
    requires SuperOk(sb) && |was| == |now| == sb.size
  {
    && Filled(was, ino, now, ino', lo, h)
    && |FreeBlocks(sb, now)| == |FreeBlocks(sb, was)| - Needs(was, ino, lo, h)
  }

  lemma PaidNone(sb: Super, bs: seq<Block>, ino: Inode, off: nat)
    requires SuperOk(sb) && |bs| == sb.size && off <= MAXBYTES
    ensures Paid(sb, bs, ino, bs, ino, off / BSIZE, EndBlock(off, 0))
  {
    hide FreeBlocks, Filled, Needs;
    FilledNone(bs, ino, off / BSIZE);
  }

  lemma PaidTwice(sb: Super, was: seq<Block>, ino: Inode, mid: seq<Block>, ino': Inode, now: seq<Block>, ino'': Inode,
                  off: nat, i: nat, n: nat)
    requires SuperOk(sb) && |was| == |mid| == |now| == sb.size && n > 0
    requires Paid(sb, was, ino, mid, ino', off / BSIZE, EndBlock(off, i))
    requires Paid(sb, mid, ino', now, ino'', (off + i) / BSIZE, EndBlock(off + i, n))
    ensures Paid(sb, was, ino, now, ino'', off / BSIZE, EndBlock(off, i + n))
  {
    hide FreeBlocks, Filled, Needs;
    EndBlocks(off, i, n);
    if EndBlock(off, i) < EndBlock(off + i, n) {
      FilledTwice(was, ino, mid, ino', now, ino'', off / BSIZE, (off + i) / BSIZE, EndBlock(off, i),
                  EndBlock(off + i, n));
      NeedsJoin(was, ino, mid, ino', off / BSIZE, (off + i) / BSIZE, EndBlock(off, i), EndBlock(off + i, n));
    } else {
      PaidSame(sb, was, ino, mid, ino', now, ino'', off / BSIZE, (off + i) / BSIZE, EndBlock(off, i));
    }
  }

  /** A write that stays in the block where the one before it ended needs nothing. */
  lemma PaidSame(sb: Super, was: seq<Block>, ino: Inode, mid: seq<Block>, ino': Inode, now: seq<Block>, ino'': Inode,
                 lo: nat, lo': nat, h: nat)
    requires SuperOk(sb) && |was| == |mid| == |now| == sb.size && lo <= lo' < h
    requires Paid(sb, was, ino, mid, ino', lo, h) && Paid(sb, mid, ino', now, ino'', lo', h)
    ensures Paid(sb, was, ino, now, ino'', lo, h)
  {
    hide FreeBlocks, SlotAddr;
    NoneMissing(was, ino, mid, ino', lo, lo', h, h);
  }

  /** Where a write of n more bytes begins and ends that goes on after i bytes. */
  lemma EndBlocks(off: nat, i: nat, n: nat)
    requires n > 0
    ensures off / BSIZE <= (off + i) / BSIZE <= EndBlock(off, i) <= EndBlock(off + i, n) == EndBlock(off, i + n)
    ensures (off + i) / BSIZE < EndBlock(off + i, n)
  {}

  /** Who has too little for the next chunk had too little for all of them. */
  lemma ShortAll(sb: Super, was: seq<Block>, ino: Inode, mid: seq<Block>, ino': Inode, off: nat, i: nat, n: nat,
                 all: nat)
    requires SuperOk(sb) && |was| == |mid| == sb.size && n > 0 && i + n <= all
    requires Paid(sb, was, ino, mid, ino', off / BSIZE, EndBlock(off, i))
    requires |FreeBlocks(sb, mid)| < Needs(mid, ino', (off + i) / BSIZE, EndBlock(off + i, n))
    ensures |FreeBlocks(sb, was)| < Needs(was, ino, off / BSIZE, EndBlock(off, all))
  {
    hide FreeBlocks, Needs, Filled;
    EndBlocks(off, i, n);
    EndsLater(off, i + n, all);
    if EndBlock(off, i) < EndBlock(off + i, n) {
      NeedsJoin(was, ino, mid, ino', off / BSIZE, (off + i) / BSIZE, EndBlock(off, i), EndBlock(off + i, n));
    } else {
      NothingMore(was, ino, mid, ino', off / BSIZE, (off + i) / BSIZE, EndBlock(off, i));
    }
    NeedsMore(was, ino, off / BSIZE, EndBlock(off, i + n), EndBlock(off, all));
  }

  lemma EndsLater(off: nat, n: nat, all: nat)
    requires n <= all
    ensures EndBlock(off, n) <= EndBlock(off, all)
  {}

  lemma NothingMore(was: seq<Block>, ino: Inode, mid: seq<Block>, ino': Inode, lo: nat, lo': nat, h: nat)
    requires Filled(was, ino, mid, ino', lo, h) && lo <= lo' < h
    ensures Needs(mid, ino', lo', h) == 0
  {
    hide SlotAddr;
    NoneMissing(was, ino, mid, ino', lo, lo', h, h);
  }

  /** Of all bytes of all files, those of file ip from `off0` on are the first d of `src`, and the rest is as it was. */
  ghost predicate Partly(was: seq<Block>, inodes: seq<Inode>, now: seq<Block>, inodes': seq<Inode>, ip: nat, off0: nat,
                         src: seq<byte>, d: nat)
  {
    && d <= |src| && ip < |inodes| && BytesPut(was, inodes, now, inodes', ip, off0, src[..d])
    && inodes[ip].size <= inodes'[ip].size
    && (inodes'[ip].size <= off0 + d || inodes'[ip].size == inodes[ip].size)
  }

  lemma PartlyNone(bs: seq<Block>, ms: seq<Inode>, ip: nat, off0: nat, src: seq<byte>)
    requires ip < |ms|
    ensures Partly(bs, ms, bs, ms, ip, off0, src, 0)
  {
    hide ByteAt;
  }

  lemma PartlyMore(b0: seq<Block>, m0: seq<Inode>, b1: seq<Block>, m1: seq<Inode>, b2: seq<Block>, m2: seq<Inode>,
                   ip: nat, off0: nat, src: seq<byte>, i: nat, n: nat, d: nat)
    requires Partly(b0, m0, b1, m1, ip, off0, src, i) && i + n <= |src| && d <= n
    requires Partly(b1, m1, b2, m2, ip, off0 + i, src[i..i + n], d)
    ensures Partly(b0, m0, b2, m2, ip, off0, src, i + d)
  {
    hide ByteAt;
    assert src[i..i + n][..d] == src[i..i + d];
    assert src[..i] + src[i..i + d] == src[..i + d];
  }

  /** filewrite() of `src` at `off0` of file ip, after i bytes; nothing has happened if the offset is past the end. */
  ghost predicate Upto(sb: Super, was: seq<Block>, inodes: seq<Inode>, now: seq<Block>, inodes': seq<Inode>, ip: nat,
                       off0: nat, src: seq<byte>, i: nat)
    requires SuperOk(sb) && |was| == |now| == sb.size && ip < |inodes| && inodes[ip].size <= MAXBYTES
  {
    && OthersSame(was, inodes, now, inodes', ip) && inodes'[ip].size <= MAXBYTES && inodes'[ip].typ == inodes[ip].typ
    && Partly(was, inodes, now, inodes', ip, off0, src, i)
    && if off0 <= inodes[ip].size then
         && Content(now, inodes'[ip]) == Spliced(Content(was, inodes[ip]), off0, src[..i])
         && Paid(sb, was, inodes[ip], now, inodes'[ip], off0 / BSIZE, EndBlock(off0, i))
       else i == 0 && Content(now, inodes'[ip]) == Content(was, inodes[ip])
  }

  lemma UptoNone(sb: Super, bs: seq<Block>, ms: seq<Inode>, ip: nat, off0: nat, src: seq<byte>)
    requires SuperOk(sb) && |bs| == sb.size && ip < |ms| && ms[ip].size <= MAXBYTES
    ensures Upto(sb, bs, ms, bs, ms, ip, off0, src, 0)
  {
    hide Paid, FreeBlocks, ByteAt, Partly;
    PartlyNone(bs, ms, ip, off0, src);
    assert src[..0] == [];
    if off0 <= ms[ip].size {
      SpliceNothing(Content(bs, ms[ip]), off0);
      PaidNone(sb, bs, ms[ip], off0);
    }
  }

  lemma UptoMeans(sb: Super, was: seq<Block>, inodes: seq<Inode>, now: seq<Block>, inodes': seq<Inode>, ip: nat,
                  off0: nat, src: seq<byte>, i: nat)
    requires SuperOk(sb) && |was| == |now| == sb.size && ip < |inodes| && inodes[ip].size <= MAXBYTES
    requires Upto(sb, was, inodes, now, inodes', ip, off0, src, i)
    ensures OthersSame(was, inodes, now, inodes', ip) && ip < |inodes'| && inodes'[ip].size <= MAXBYTES
    ensures i > 0 ==> off0 <= inodes[ip].size
    ensures Partly(was, inodes, now, inodes', ip, off0, src, i)
    ensures i == |src| && off0 <= inodes[ip].size ==>
      && Content(now, inodes'[ip]) == Spliced(Content(was, inodes[ip]), off0, src)
      && |FreeBlocks(sb, was)| >= Needs(was, inodes[ip], off0 / BSIZE, EndBlock(off0, |src|))
  {
    hide FreeBlocks, Needs, Filled, ByteAt, Content, Spliced, EndBlock, Partly;
    assert src[..|src|] == src;
  }

  lemma FourFree(sb: Super, blocks: seq<Block>, f: seq<nat>)
    requires SuperOk(sb) && |blocks| == sb.size && LowestFree(sb, blocks, f) && |f| == 4
    ensures |FreeBlocks(sb, blocks)| >= 4
  {
    hide FreeBlocks;
    assert |{f[0], f[1]}| == 2 && |{f[0], f[1], f[2]}| == 3 && |{f[0], f[1], f[2], f[3]}| == 4;
    SubsetSize({f[0], f[1], f[2], f[3]}, FreeBlocks(sb, blocks));
  }

  class File {
    const fs: FileSystem
    const ip: nat
    var off: nat

    constructor (f: FileSystem, i: nat, o: nat)
      ensures fs == f && ip == i && off == o
    {
      fs, ip, off := f, i, o;
    }

    ghost predicate Ready()
      reads this, fs
    {
      && fs.Valid() && ip < |fs.mem| && fs.mem[ip].size <= MAXBYTES && off < UINT
      && NoHoles(fs.blocks, fs.mem[ip])
    }

    /** begin_op(), writei() of one chunk, end_op(). */
    method Transaction(src: seq<byte>, avail: nat) returns (r: int, ok: bool, ghost logged: set<nat>)
      requires Ready() && |src| <= CHUNK
      modifies this`off, fs
      ensures ok ==> Ready() && fs.loose == old(fs.loose) && |logged| <= MAXOPBLOCKS
      ensures old(WorstCase(fs.sb, fs.blocks, fs.mem[ip], off, |src|)) && avail >= |src| ==>
        ok && r == |src| && |logged| == MAXOPBLOCKS
      ensures !ok ==>
        |old(FreeBlocks(fs.sb, fs.blocks))|
          < Needs(old(fs.blocks), old(fs.mem[ip]), old(off) / BSIZE, EndBlock(old(off), |src|))
      ensures !ok ==> old(off) <= old(fs.mem[ip]).size && old(off) + |src| <= MAXBYTES
      ensures old(off) <= old(fs.mem[ip]).size && old(off) + |src| <= MAXBYTES && avail >= |src| ==>
        (ok <==> |old(FreeBlocks(fs.sb, fs.blocks))|
                 >= Needs(old(fs.blocks), old(fs.mem[ip]), old(off) / BSIZE, EndBlock(old(off), |src|)))
      ensures ok && r == |src| ==>
        && |fs.blocks| == fs.sb.size
        && Paid(fs.sb, old(fs.blocks), old(fs.mem[ip]), fs.blocks, fs.mem[ip], old(off) / BSIZE,
                EndBlock(old(off), |src|))
      ensures ok && old(fs.dinodes == fs.mem) ==> fs.dinodes == fs.mem
      ensures ok ==> fs.mem[ip].typ == old(fs.mem[ip]).typ
      ensures ok && old(fs.FreeOk()) && old(fs.mem[ip]).typ != 0 ==> fs.FreeOk()
      ensures ok ==> off == old(off) + (if r > 0 then r else 0)
      ensures ok && r == |src| ==>
        && avail >= |src| && old(off) <= old(fs.mem[ip]).size
        && Content(fs.blocks, fs.mem[ip]) == Spliced(old(Content(fs.blocks, fs.mem[ip])), old(off), src)
      ensures ok && r != |src| ==>
        || avail < |src| || old(off) > old(fs.mem[ip]).size
        || old(off) + |src| >= UINT || old(off) + |src| > MAXBYTES
      ensures ok ==> OthersSame(old(fs.blocks), old(fs.mem), fs.blocks, fs.mem, ip)
      ensures ok ==>
        Partly(old(fs.blocks), old(fs.mem), fs.blocks, fs.mem, ip, old(off), src,
               if r == -1 then 0 else Min(|src|, avail))
    {
      hide Conserved, OwnerOk, SlotAddr, ByteAt, BytesPut, NoHoles, OthersSame, WorstCase, Content, Spliced, FreeBlocks,
           Needs, FreeInodes, Filled, Paid, EndBlock;
      BeginOp();
      ghost var was, inodes := fs.blocks, fs.mem;
      r, ok := Write(src, avail);
      logged := fs.maps + fs.rest;
      if !ok {
        return;
      }
      if r != -1 {
        OthersKept(was, inodes, fs.blocks, fs.mem, ip, off, src[..Min(|src|, avail)]);
        if r == |src| {
          assert src[..Min(|src|, avail)] == src;
          WriteSplices(was, inodes, fs.blocks, fs.mem, ip, off, src);
        }
        off := off + r;
      } else {
        OthersNone(was, inodes, ip);
        PartlyNone(was, inodes, ip, off, src);
      }
    }

    /** writei() of one chunk, with the count of what it logs. */
    method Write(src: seq<byte>, avail: nat) returns (r: int, ok: bool)
      requires Ready() && |src| <= CHUNK && fs.InOrder() && fs.maps == fs.rest == {} && fs.allocs == 0
      requires fs.before == fs.owner
      requires SuperOk(fs.sb) && |fs.blocks| == fs.sb.size && fs.free0 == FreeBlocks(fs.sb, fs.blocks)
      requires OwnerOk(fs.sb, fs.blocks, fs.mem, fs.owner)
      modifies fs
      ensures ok ==> Ready() && fs.loose == old(fs.loose) && |fs.maps + fs.rest| <= MAXOPBLOCKS
      ensures old(WorstCase(fs.sb, fs.blocks, fs.mem[ip], off, |src|)) && avail >= |src| ==>
        ok && r == |src| && |fs.maps + fs.rest| == MAXOPBLOCKS
      ensures !ok ==>
        |old(FreeBlocks(fs.sb, fs.blocks))|
          < Needs(old(fs.blocks), old(fs.mem[ip]), off / BSIZE, EndBlock(off, |src|))
      ensures !ok ==> off <= old(fs.mem[ip]).size && off + |src| <= MAXBYTES
      ensures off <= old(fs.mem[ip]).size && off + |src| <= MAXBYTES && avail >= |src| ==>
        (ok <==> |old(FreeBlocks(fs.sb, fs.blocks))|
                 >= Needs(old(fs.blocks), old(fs.mem[ip]), off / BSIZE, EndBlock(off, |src|)))
      ensures ok && r == |src| ==>
        && |fs.blocks| == fs.sb.size
        && Paid(fs.sb, old(fs.blocks), old(fs.mem[ip]), fs.blocks, fs.mem[ip], off / BSIZE, EndBlock(off, |src|))
      ensures ok && old(fs.dinodes == fs.mem) ==> fs.dinodes == fs.mem
      ensures ok ==> fs.mem[ip].typ == old(fs.mem[ip]).typ
      ensures ok && old(fs.FreeOk()) && old(fs.mem[ip]).typ != 0 ==> fs.FreeOk()
      ensures ok ==> (r == -1 <==> off > old(fs.mem[ip]).size || off + |src| >= UINT || off + |src| > MAXBYTES)
      ensures ok && r == -1 ==> fs.blocks == old(fs.blocks) && fs.mem == old(fs.mem)
      ensures ok && r != -1 ==>
        && 0 <= r <= Min(|src|, avail) && (r < |src| <==> avail < |src|)
        && |fs.mem| == |old(fs.mem)| && (forall j | 0 <= j < |fs.mem| && j != ip :: fs.mem[j] == old(fs.mem)[j])
        && fs.mem[ip].size == (if off + r > old(fs.mem[ip]).size then off + r else old(fs.mem[ip]).size)
        && BytesPut(old(fs.blocks), old(fs.mem), fs.blocks, fs.mem, ip, off, src[..Min(|src|, avail)])
    {
      hide Conserved, OwnerOk, SlotAddr, ByteAt, Held, BytesPut, Counted, NoHoles, Written, WorstCase, IBlock, Order,
           FreeBlocks, Needs, FreeInodes, TakenIn, SuperOk, Filled, EndBlock;
      ghost var worst := WorstCase(fs.sb, fs.blocks, fs.mem[ip], off, |src|);
      if worst { WorstCaseNeeds(fs.sb, fs.blocks, fs.mem[ip], off, |src|); }
      ghost var was, inodes := fs.blocks, fs.mem;
      ghost var h;
      r, ok, h := fs.Writei(ip, off, src, avail);
      if ok && r != -1 {
        assert {} + {IBlock(fs.sb, ip)} == {IBlock(fs.sb, ip)};
        Fits(was, inodes, |src|, h);
        fs.CountedNeeds(was, inodes[ip], fs.blocks, fs.mem[ip], {IBlock(fs.sb, ip)}, fs.rest, 0, fs.allocs,
                        off / BSIZE, h);
        fs.FreeNow();
        if worst && r == |src| {
          Reaches10(was, inodes, old(fs.owner), {IBlock(fs.sb, ip)}, |src|, h);
        }
      } else if ok {
        assert |fs.maps| <= 0;
      }
    }

    lemma Fits(was: seq<Block>, inodes: seq<Inode>, n: nat, h: nat)
      requires fs.Valid() && ip < |fs.mem| && ip < |inodes|
      requires NoHoles(was, inodes[ip]) && off <= inodes[ip].size <= MAXBYTES && n <= CHUNK
      requires Counted(was, inodes[ip], fs.blocks, fs.mem[ip], {IBlock(fs.sb, ip)}, fs.rest, 0, fs.allocs,
                       off / BSIZE, h)
      requires h > off / BSIZE ==> (h - 1) * BSIZE < off + n
      ensures |fs.maps + fs.rest| <= 10
    {
      hide Conserved, Counted, NoHoles;
      TransactionFits(was, inodes[ip], fs.blocks, fs.mem[ip], IBlock(fs.sb, ip), fs.maps, fs.rest, fs.allocs,
                      off, n, h);
    }

    /** begin_op(): the count of logged blocks starts anew. */
    method BeginOp()
      requires fs.Valid()
      modifies fs`maps, fs`rest, fs`allocs, fs`before, fs`taken, fs`free0
      ensures fs.Valid() && fs.InOrder() && fs.maps == fs.rest == {} && fs.allocs == 0 && fs.before == fs.owner
      ensures SuperOk(fs.sb) && |fs.blocks| == fs.sb.size && fs.free0 == FreeBlocks(fs.sb, fs.blocks)
      ensures OwnerOk(fs.sb, fs.blocks, fs.mem, fs.owner)
    {
      hide Conserved, OwnerOk, Order, FreeBlocks;
      Owners();
      fs.maps, fs.rest, fs.allocs, fs.before, fs.taken := {}, {}, 0, fs.owner, {};
      fs.free0 := FreeBlocks(fs.sb, fs.blocks);
      StartOrder();
    }

    lemma Owners()
      requires fs.Valid()
      ensures OwnerOk(fs.sb, fs.blocks, fs.mem, fs.owner) && SuperOk(fs.sb) && |fs.blocks| == fs.sb.size
    {
      hide SlotsOk, BitsOk, OwnerOk;
    }

    /** When a transaction begins nothing is taken. */
    lemma StartOrder()
      requires fs.Valid() && fs.allocs == 0 && fs.taken == {} && fs.free0 == FreeBlocks(fs.sb, fs.blocks)
      ensures fs.InOrder()
    {
      hide Used, OwnerOk, SlotsOk;
    }

    /** The chunk that needs all of MAXOPBLOCKS. */
    lemma Reaches10(was: seq<Block>, inodes: seq<Inode>, before: Owner, rest0: set<nat>, n: nat, h: nat)
      requires fs.Valid() && ip < |fs.mem| == |inodes| && OwnerOk(fs.sb, was, inodes, before) && fs.before == before
      requires IBlock(fs.sb, ip) in fs.rest && Written(fs.blocks, fs.mem[ip], fs.rest, off / BSIZE, h)
      requires Counted(was, inodes[ip], fs.blocks, fs.mem[ip], rest0, fs.rest, 0, fs.allocs, off / BSIZE, h)
      requires (h > off / BSIZE ==> (h - 1) * BSIZE < off + n) && (off + n <= h * BSIZE || n == 0)
      requires |was| == fs.sb.size && SuperOk(fs.sb) && WorstCase(fs.sb, was, inodes[ip], off, n)
      requires NoHoles(was, inodes[ip])
      requires fs.InOrder() && fs.free0 == FreeBlocks(fs.sb, was)
      ensures |fs.maps + fs.rest| >= 10
    {
      hide Conserved, OwnerOk, SlotAddr, Held, FourMaps, Written, LowestFree, Order, FreeBlocks, Needs, NoHoles;
      WorstCaseNeeds(fs.sb, was, inodes[ip], off, n);
      assert h == 15;
      Taken();
      var f :| LowestFree(fs.sb, was, f) && FourMaps(fs.sb, f);
      TransactionReaches(fs.sb, was, inodes, before, f, fs.blocks, fs.mem, fs.owner, fs.loose, ip, fs.taken, fs.maps,
                         fs.rest);
    }

    lemma Taken()
      requires fs.InOrder()
      ensures |fs.taken| == fs.allocs
    {
    }

    lemma OthersKept(was: seq<Block>, inodes: seq<Inode>, now: seq<Block>, inodes': seq<Inode>, i: nat, o: nat,
                     data: seq<byte>)
      requires BytesPut(was, inodes, now, inodes', i, o, data)
      requires forall j | 0 <= j < |inodes| && j != i :: inodes'[j] == inodes[j]
      ensures OthersSame(was, inodes, now, inodes', i)
    {
      hide ByteAt;
    }

    /** filewrite() on an inode: n on success, else -1. */
    method FileWrite(src: seq<byte>, avail: nat) returns (ret: int, ok: bool, ghost sizes: seq<nat>)
      requires Ready()
      modifies this`off, fs
      ensures ok ==> Ready() && forall k | 0 <= k < |sizes| :: sizes[k] <= MAXOPBLOCKS
      ensures ok ==> ret == |src| || ret == -1
      ensures ok && ret == |src| ==>
        && off == old(off) + |src| && (|src| > 0 ==> old(off) <= old(fs.mem[ip]).size)
        && (old(off) <= old(fs.mem[ip]).size ==>
              Content(fs.blocks, fs.mem[ip]) == Spliced(old(Content(fs.blocks, fs.mem[ip])), old(off), src))
      ensures ok && ret == -1 && |src| > 0 ==>
        avail < |src| || old(off) > old(fs.mem[ip]).size || old(off) + |src| > MAXBYTES
      ensures ok ==> OthersSame(old(fs.blocks), old(fs.mem), fs.blocks, fs.mem, ip)
      ensures ok ==> exists d: nat :: Partly(old(fs.blocks), old(fs.mem), fs.blocks, fs.mem, ip, old(off), src, d)
      ensures ok && old(fs.dinodes == fs.mem) ==> fs.dinodes == fs.mem
      ensures ok && old(fs.FreeOk()) && old(fs.mem[ip]).typ != 0 ==> fs.FreeOk()
      ensures SuperOk(fs.sb) && |old(fs.blocks)| == fs.sb.size
      ensures !ok ==>
        |old(FreeBlocks(fs.sb, fs.blocks))|
          < Needs(old(fs.blocks), old(fs.mem[ip]), old(off) / BSIZE, EndBlock(old(off), |src|))
      ensures old(off) <= old(fs.mem[ip]).size && old(off) + |src| <= MAXBYTES && avail >= |src| ==>
        && (ok <==> |old(FreeBlocks(fs.sb, fs.blocks))|
                    >= Needs(old(fs.blocks), old(fs.mem[ip]), old(off) / BSIZE, EndBlock(old(off), |src|)))
        && (ok ==> ret == |src|)
    {
      hide Conserved, SuperOk, SlotAddr, NoHoles, OthersSame, FreeInodes, FreeBlocks, Needs, EndBlock, Upto, Content,
           Spliced, Partly;
      Owners();
      ghost var was, inodes := fs.blocks, fs.mem;
      sizes, ok := [], true;
      var n, i := |src|, 0;
      UptoNone(fs.sb, was, inodes, ip, off, src);
      while i < n
        invariant 0 <= i <= n && ok && Ready() && off == old(off) + i && SuperOk(fs.sb) && |fs.blocks| == fs.sb.size
        invariant forall k | 0 <= k < |sizes| :: sizes[k] <= MAXOPBLOCKS
        invariant Upto(fs.sb, was, inodes, fs.blocks, fs.mem, ip, old(off), src, i)
        invariant old(fs.dinodes == fs.mem) ==> fs.dinodes == fs.mem
        invariant old(fs.FreeOk()) && inodes[ip].typ != 0 ==> fs.FreeOk()
      {
        var n1 := n - i;
        if n1 > CHUNK {
          n1 := CHUNK;
        }
        var r;
        ghost var logged;
        r, ok, logged := NextChunk(src, i, n1, avail, was, inodes, old(off));
        if !ok {
          return -1, false, sizes;
        }
        sizes := sizes + [|logged|];
        if r != n1 {
          break;
        }
        i := i + r;
      }
      if i == n { UptoMeans(fs.sb, was, inodes, fs.blocks, fs.mem, ip, old(off), src, i); }
      ret := if i == n then n else -1;
    }

    /** One turn of the loop of filewrite(), after i bytes. */
    method NextChunk(src: seq<byte>, i: nat, n1: nat, avail: nat, ghost was: seq<Block>, ghost inodes: seq<Inode>,
                     ghost off0: nat)
      returns (r: int, ok: bool, ghost logged: set<nat>)
      requires Ready() && 0 < n1 <= CHUNK && i + n1 <= |src| && off == off0 + i && ip < |inodes|
      requires SuperOk(fs.sb) && |fs.blocks| == |was| == fs.sb.size && inodes[ip].size <= MAXBYTES
      requires Upto(fs.sb, was, inodes, fs.blocks, fs.mem, ip, off0, src, i)
      modifies this`off, fs
      ensures ok ==> Ready() && |fs.blocks| == fs.sb.size && |logged| <= MAXOPBLOCKS
      ensures ok ==> OthersSame(was, inodes, fs.blocks, fs.mem, ip)
      ensures ok ==> exists d: nat :: Partly(was, inodes, fs.blocks, fs.mem, ip, off0, src, d)
      ensures ok && r == n1 ==>
        off == off0 + i + n1 && Upto(fs.sb, was, inodes, fs.blocks, fs.mem, ip, off0, src, i + n1)
      ensures ok && r != n1 ==> avail < |src| || off0 > inodes[ip].size || off0 + |src| > MAXBYTES
      ensures !ok ==>
        |FreeBlocks(fs.sb, was)| < Needs(was, inodes[ip], off0 / BSIZE, EndBlock(off0, |src|))
      ensures ok && old(fs.dinodes == fs.mem) ==> fs.dinodes == fs.mem
      ensures ok && old(fs.FreeOk()) && inodes[ip].typ != 0 ==> fs.FreeOk()
    {
      hide Conserved, SuperOk, SlotAddr, NoHoles, OthersSame, FreeInodes, FreeBlocks, Needs, EndBlock, Paid, Content,
           Spliced, Partly;
      ghost var b1, m1 := fs.blocks, fs.mem;
      r, ok, logged := Transaction(src[i..i + n1], if avail >= i then avail - i else 0);
      if !ok {
        ShortAll(fs.sb, was, inodes[ip], b1, m1[ip], off0, i, n1, |src|);
        return;
      }
      fs.Sized();
      OthersTwice(was, inodes, b1, m1, fs.blocks, fs.mem, ip);
      ghost var d := if r == -1 then 0 else Min(n1, if avail >= i then avail - i else 0);
      PartlyMore(was, inodes, b1, m1, fs.blocks, fs.mem, ip, off0, src, i, n1, d);
      if r == n1 {
        PaidTwice(fs.sb, was, inodes[ip], b1, m1[ip], fs.blocks, fs.mem[ip], off0, i, n1);
        SpliceMore(Content(was, inodes[ip]), off0, src[..i], src[i..i + n1]);
        assert src[..i] + src[i..i + n1] == src[..i + n1];
      }
    }
  }
}
