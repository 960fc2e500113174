/** user/umalloc.c: malloc(), free() and morecore(), after Kernighan and Ritchie. */
module Umalloc {
  import opened UmallocList

  const HEADER: nat := 16                           // sizeof(Header)
  const MINCORE: nat := 4096
  const INT: nat := 0x8000_0000

  /** The size of a request in units, its header included. */
  function Nunits(nbytes: nat): nat {
    (nbytes + HEADER - 1) / HEADER + 1
  }

  function CoreUnits(nu: nat): nat {
    if nu < MINCORE then MINCORE else nu
  }

  /** What sbrk(), which takes an int, is asked for when morecore() passes nu * sizeof(Header). */
  function SbrkArgument(nu: nat): int {
    var x := (nu * HEADER) % (2 * INT);
    if x < INT then x else x - 2 * INT
  }

  /** morecore() asks for the memory it then hands out exactly if the request is below 2 GB. */
  lemma SbrkExact(nu: nat)
    requires nu < 2 * INT
    ensures SbrkArgument(nu) == nu * HEADER <==> nu * HEADER < INT
  {}

  /** The units that sbrk() adds when it grants the request. */
  function GrantedUnits(nu: nat): nat {
    if SbrkArgument(nu) > 0 then SbrkArgument(nu) / HEADER else 0
  }

  /** The units below the end of memory at unit a that sbrk() takes away when its argument is negative: growproc()
      shrinks the process, unless it is smaller than that. */
  function LostUnits(nu: nat, a: nat): (n: nat)
    ensures n <= a
  {
    if 0 < -SbrkArgument(nu) <= a * HEADER then -SbrkArgument(nu) / HEADER else 0
  }

  /** The units that are left when the last n before unit a are gone. */
  ghost function Left(owner: Words, a: nat, n: nat): Words {
    map u | u in owner && !(a - n <= u < a) :: owner[u]
  }

  /** From 2 GB to 4 GB, sbrk() adds nothing and takes away what the request lacks to 4 GB. */
  lemma SbrkShrinks(nu: nat, a: nat)
    requires INT <= nu * HEADER < 2 * INT
    ensures GrantedUnits(nu) == 0
    ensures LostUnits(nu, a) == if nu + a >= 2 * INT / HEADER then 2 * INT / HEADER - nu else 0
  {
    assert SbrkArgument(nu) == nu * HEADER - 2 * INT;
    Whole(2 * INT / HEADER - nu);
  }

  /** At 2 GB and above, the block that morecore() puts on the list is longer than what sbrk() has added. */
  lemma SbrkOverrun(nu: nat)
    requires nu < 2 * INT
    ensures GrantedUnits(nu) == nu <==> nu * HEADER < INT
    ensures nu * HEADER >= INT ==> GrantedUnits(nu) < nu
  {
    SbrkExact(nu);
    if nu * HEADER < INT {
      Whole(nu);
    }
  }

  lemma Whole(nu: nat)
    ensures nu * HEADER / HEADER == nu
  {}

  /** A request of which sbrk() is told almost nothing: malloc(0xffffffff) asks for 16 bytes. */
  lemma SbrkTruncated()
    ensures Nunits(0xffff_ffff) == 0x1000_0001 && SbrkArgument(0x1000_0001) == 16
  {}

  class Heap {
    const base: nat                                 // the address of the header `base`
    var ptr: Words                                  // the fields of the headers, by address
    var size: Words
    var freep: nat                                  // 0 before the first malloc()
    ghost var free: set<nat>                        // the blocks on the list, `base` included
    ghost var live: Words                           // the blocks handed out, and their sizes
    ghost var owner: Words                          // the block of each unit obtained from sbrk()

    ghost predicate Valid()
      reads this
    {
      && base > 0
      && (freep == 0 ==> live == map[] && owner == map[])
      && (freep != 0 ==>
            freep in free && HeapOk(base, ptr, size, free, live, owner, {}))
    }

    /** All the memory obtained from sbrk() is in free and in live blocks, none of it in two. */
    lemma Accounted()
      requires Valid() && freep != 0
      ensures |UnitsOf(owner, free)| + |UnitsOf(owner, live.Keys)| == |owner.Keys|
      ensures forall b, c | b in live && c in live && b < c :: b + live[b] <= c
      ensures forall b, c | b in free && c in free && b < c :: b in size && b + size[b] < c
    {
      hide Linked, Sized, UnitsOf;
      Conserved(base, size, free, live, owner);
      forall b, c | b in live && c in live && b < c ensures b + live[b] <= c {
        LiveDisjoint(base, size, free, live, owner, b, c);
      }
    }

    constructor (base: nat)
      requires base > 0
      ensures Valid() && this.base == base && freep == 0 && live == map[] && owner == map[]
    {
      this.base, freep := base, 0;
      ptr, size, free, live, owner := map[], map[], {}, map[], map[];
    }

    /** The loop of free(): it finds the place for block bp within one lap. */
    method FindSlot(bp: nat) returns (p: nat, ghost steps: nat)
      requires freep in free && Linked(base, ptr, free) && base < bp && bp !in free
      ensures p in free && Slot(p, ptr[p], bp) && steps < |free|
    {
      hide IsNext;
      ghost var k := SlotExists(base, ptr, free, bp);
      ghost var seen: set<nat> := {};
      p, steps := freep, 0;
      while !(bp > p && bp < ptr[p])
        invariant p in free && k in free && Slot(k, ptr[k], bp)
        invariant if p == freep then seen == {} else seen == free - Ahead(free, freep, p) + {freep}
        invariant seen <= free && steps == |seen| && forall x | x in seen :: !Slot(x, ptr[x], bp)
        decreases |free| - |seen|
      {
        Smaller(seen, free, k);
        if p >= ptr[p] && (bp > p || bp < ptr[p]) {
          break;
        }
        NextIn(base, ptr, free, p);
        Onward(base, ptr, free, freep, p, seen, k);
        seen := seen + {p};
        Smaller(seen, free, k);
        steps := steps + 1;
        p := ptr[p];
      }
      Smaller(seen, free, k);
    }

    /** free() of a block that malloc() handed out: its units are free again and joined to the free blocks they
        touch. */
    method Free(bp: nat)
      requires Valid() && bp in live
      modifies this`ptr, this`size, this`freep, this`free, this`live, this`owner
      ensures Valid() && freep != 0 && live == Without(old(live), bp) && owner.Keys == old(owner).Keys
      ensures bp in owner && owner[bp] in free && owner[bp] in size && size[owner[bp]] >= old(live)[bp]
    {
      hide HeapOk, Linked, Slot, Touch;
      HeapPlace(base, ptr, size, free, live, owner, freep, bp);
      var p, steps := FindSlot(bp);
      HeapPlace(base, ptr, size, free, live, owner, p, bp);
      ghost var lower, upper := p + size[p] == bp, bp + size[bp] == ptr[p];
      TouchLess(lower, p, upper, bp);
      HeapInsert(base, ptr, size, free, live, owner, p, bp, Touch(lower, p, upper, bp));
      free, live := free + {bp}, Without(live, bp);
      JoinAbove(p, bp);
      JoinBelow(p, bp);
      freep := p;
    }

    /** free() once it has the place: block bp, on the list after p, takes in the block after it if they touch. */
    method JoinAbove(p: nat, bp: nat)
      requires p in ptr && p in size && bp in size && p < bp && bp in free && p in free && base <= p
      requires ptr[p] in size && ptr[p] in ptr && ptr[p] != bp && bp in owner && owner[bp] == bp
      requires (ptr[p] == p ==> p == base)
      requires HeapOk(base, ptr[p := bp][bp := ptr[p]], size, free, live, owner,
                      Touch(p + size[p] == bp, p, bp + size[bp] == ptr[p], bp))
      modifies this`ptr, this`size, this`free, this`owner
      ensures p in ptr && bp in ptr && bp in size && p in size && size[p] == old(size)[p] && size[bp] >= old(size)[bp]
      ensures HeapOk(base, ptr[p := bp], size, free, live, owner, Touch(p + size[p] == bp, p, false, bp))
      ensures owner.Keys == old(owner).Keys && bp in owner && owner[bp] == bp && bp in free && p in free
    {
      hide HeapOk, Touch;
      TouchLess(p + size[p] == bp, p, bp + size[bp] == ptr[p], bp);
      ghost var ptr1 := ptr[p := bp][bp := ptr[p]];
      if bp + size[bp] == ptr[p] {
        HeapJoin(base, ptr1, size, free, live, owner, bp, Touch(p + size[p] == bp, p, true, bp));
        free, owner := free - {ptr[p]}, Reowned(owner, ptr[p], bp);
        size := size[bp := size[bp] + size[ptr[p]]];
        ptr := ptr[bp := ptr[ptr[p]]];
        assert ptr[p := bp] == ptr1[bp := ptr1[ptr1[bp]]];
      } else {
        ptr := ptr[bp := ptr[p]];
        assert ptr[p := bp] == ptr1;
      }
    }

    /** And p takes in block bp if they touch. */
    method JoinBelow(p: nat, bp: nat)
      requires p in ptr && bp in ptr && p in size && bp in size && p in free && p < bp && bp in free && base <= p
      requires HeapOk(base, ptr[p := bp], size, free, live, owner, Touch(p + size[p] == bp, p, false, bp))
      requires bp in owner && owner[bp] == bp && (p == base ==> size[p] == 0)
      modifies this`ptr, this`size, this`free, this`owner
      ensures HeapOk(base, ptr, size, free, live, owner, {}) && p in free
      ensures owner.Keys == old(owner).Keys && bp in owner && owner[bp] in free && owner[bp] in size
      ensures size[owner[bp]] >= old(size)[bp]
    {
      hide HeapOk, Touch;
      TouchLess(p + size[p] == bp, p, false, bp);
      ghost var ptr1 := ptr[p := bp];
      if p + size[p] == bp {
        HeapJoin(base, ptr1, size, free, live, owner, p, Touch(true, p, false, bp));
        free, owner := free - {bp}, Reowned(owner, bp, p);
        size := size[p := size[p] + size[bp]];
        ptr := ptr[p := ptr[bp]];
        assert ptr == ptr1[p := ptr1[bp]];
      } else {
        ptr := ptr[p := bp];
      }
    }

    /** morecore(): new memory from sbrk(), at address a if there is any. `ok` is false if the block that it hands to
        free() is longer than what sbrk() has added; sbrk() may even have taken memory away. */
    method Morecore(nunits: nat, granted: bool, a: nat) returns (p: nat, ok: bool)
      requires Valid() && freep != 0 && 1 <= nunits < 2 * INT
      requires granted ==> a > base && Fresh(owner, a, GrantedUnits(CoreUnits(nunits)))
      modifies this`ptr, this`size, this`freep, this`free, this`live, this`owner
      ensures ok <==> !granted || CoreUnits(nunits) * HEADER < INT
      ensures !ok ==>
        && a in size && size[a] == CoreUnits(nunits) > GrantedUnits(CoreUnits(nunits)) && live == old(live)
        && owner == Left(old(owner), a, LostUnits(CoreUnits(nunits), a))
      ensures ok ==> Valid() && freep != 0 && live == old(live) && (p == 0 <==> !granted)
      ensures !granted ==>
        free == old(free) && owner == old(owner) && size == old(size) && ptr == old(ptr) && freep == old(freep)
      ensures granted && ok ==>
        && p == freep && owner.Keys == old(owner).Keys + Range(a, CoreUnits(nunits))
        && exists x :: x in free && x in size && size[x] >= nunits
    {
      hide HeapOk, Fresh, SbrkArgument, Range, Granted, GrantedUnits, LostUnits, Left;
      var nu := nunits;
      if nu < MINCORE {
        nu := MINCORE;
      }
      SbrkOverrun(nu);
      if !granted {
        return 0, true;
      }
      if GrantedUnits(nu) < nu {
        size, owner := size[a := nu], Left(owner, a, LostUnits(nu, a));
        return freep, false;
      }
      ghost var live0 := live;
      HeapGrant(base, ptr, size, free, live, owner, a, nu);
      GrantUnits(owner, a, nu);
      size, live, owner := size[a := nu], live[a := nu], Granted(owner, a, nu);
      Free(a);
      assert live == live0;
      return freep, true;
    }

    /** The block p, big enough, gives nunits units from its end, or all of itself. */
    method Take(prevp: nat, p: nat, nunits: nat) returns (b: nat)
      requires Valid() && freep != 0 && prevp in free && prevp in ptr && ptr[prevp] == p && p in size
      requires size[p] >= nunits >= 1
      modifies this`ptr, this`size, this`freep, this`free, this`live, this`owner
      ensures Valid() && freep == prevp && b != 0 && b !in old(live) && live == old(live)[b := nunits]
      ensures owner.Keys == old(owner).Keys
    {
      hide HeapOk, Cut, Linked;
      HeapNext(base, ptr, size, free, live, owner, prevp);
      b := p;
      if size[p] == nunits {
        HeapRemove(base, ptr, size, free, live, owner, prevp);
        free, live := free - {p}, live[p := nunits];
        ptr := ptr[prevp := ptr[p]];
      } else {
        ghost var t := p + (size[p] - nunits);
        HeapSplit(base, ptr, size, free, live, owner, p, size[p] - nunits, nunits, t);
        CutKeys(owner, p, t);
        owner := Cut(owner, p, t);
        size := size[p := size[p] - nunits];
        b := b + size[p];
        size := size[b := nunits];
        live := live[b := nunits];
      }
      freep := prevp;
    }

    static lemma HeapNext(base: nat, ptr: Words, size: Words, free: set<nat>, live: Words, owner: Words, p: nat)
      requires HeapOk(base, ptr, size, free, live, owner, {}) && p in free
      ensures base in free && base <= p && p in ptr && ptr[p] in free && ptr[p] in size && ptr[p] in ptr
      ensures base <= ptr[p]
      ensures base in size && size[base] == 0 && Linked(base, ptr, free) && p in size
    {
      hide Linked, ApartBut, Owned;
      BaseIn(base, ptr, free);
      NextIn(base, ptr, free, p);
    }

    /** No block that malloc() has passed since `freep` is big enough. */
    ghost predicate Passed(p: nat, nunits: nat)
      reads this
    {
      forall x | x in free && x != freep && InArc(freep, p, x) :: x in size && size[x] < nunits
    }

    static lemma PassedNext(base: nat, ptr: Words, size: Words, free: set<nat>, f: nat, p: nat, nunits: nat)
      requires Linked(base, ptr, free) && f in free && p in free && p != f && p in size && size[p] < nunits
      requires forall x | x in free && x != f && InArc(f, p, x) :: x in size && size[x] < nunits
      ensures forall x | x in free && x != f && InArc(f, ptr[p], x) :: x in size && size[x] < nunits
    {
      forall x | x in free && x != f && InArc(f, ptr[p], x) ensures x in size && size[x] < nunits {
        assert IsNext(base, free, p, ptr[p]);
        ArcStep(base, free, f, p, ptr[p], x);
      }
    }

    static lemma PassedStart(base: nat, ptr: Words, free: set<nat>, f: nat)
      requires Linked(base, ptr, free) && f in free
      ensures forall x | x in free && x != f :: !InArc(f, ptr[f], x)
    {
      assert IsNext(base, free, f, ptr[f]);
      ArcStart(base, free, f, ptr[f]);
    }

    /** malloc(): a block of its own for the request, cut from a free block that is big enough; memory is asked of
        sbrk() once at most, and only if there is no such block. `granted` and `a` are sbrk()'s answer. `ok` is false
        exactly if it was needed, was granted, and was a request of 2 GB or more: memory that sbrk() has not added is
        then on the list, and what it has taken away is still in blocks. */
    method Malloc(nbytes: nat, granted: bool, a: nat) returns (b: nat, ok: bool, ghost calls: nat)
      requires Valid() && nbytes < 2 * INT
      requires granted ==> a > base && Fresh(owner, a, GrantedUnits(CoreUnits(Nunits(nbytes))))
      modifies this`ptr, this`size, this`freep, this`free, this`live, this`owner
      ensures calls <= 1 && (!ok <==> calls == 1 && granted && CoreUnits(Nunits(nbytes)) * HEADER >= INT)
      ensures !ok ==>
        && a in size && size[a] > GrantedUnits(CoreUnits(Nunits(nbytes)))
        && owner == Left(old(owner), a, LostUnits(CoreUnits(Nunits(nbytes)), a))
      ensures calls == 0 <==>
        (old(freep) != 0 && exists x :: x in old(free) && x in old(size) && old(size)[x] >= Nunits(nbytes))
      ensures ok ==> Valid() && (b == 0 <==> calls == 1 && !granted)
      ensures ok && b == 0 ==> live == old(live) && owner == old(owner)
      ensures ok && b != 0 ==> b !in old(live) && live == old(live)[b := Nunits(nbytes)]
      ensures ok && b != 0 ==> nbytes + HEADER <= live[b] * HEADER < nbytes + 2 * HEADER
      ensures ok ==>
        owner.Keys == old(owner).Keys + if calls == 1 && granted then Range(a, CoreUnits(Nunits(nbytes))) else {}
    {
      hide HeapOk, Linked, InArc, Fresh, Range, Nunits, GrantedUnits, LostUnits, Left;
      NunitsPositive(nbytes);
      UnitsHold(nbytes);
      var nunits := Nunits(nbytes);
      calls, ok := 0, true;
      Start();
      ghost var free0, size0, live0, owner0 := free, size, live, owner;
      var prevp := freep;
      HeapNext(base, ptr, size, free, live, owner, prevp);
      PassedStart(base, ptr, free, freep);
      var p := ptr[prevp];
      while true
        invariant Valid() && freep != 0 && calls <= 1 && live == live0 && ok
        invariant prevp in free && prevp in ptr && ptr[prevp] == p && p in free && p in ptr && p in size
        invariant Linked(base, ptr, free)
        invariant Passed(p, nunits)
        invariant calls == 0 ==> free == free0 && size == size0 && owner == owner0
        invariant calls == 1 ==>
          && granted && CoreUnits(nunits) * HEADER < INT && owner.Keys == owner0.Keys + Range(a, CoreUnits(nunits))
          && (exists x :: x in free && x in size && size[x] >= nunits)
          && (forall x | x in free0 && x in size0 :: size0[x] < nunits)
        decreases 1 - calls, |Ahead(free, freep, p)|
      {
        if size[p] >= nunits {
          b := Take(prevp, p, nunits);
          return;
        }
        if p == freep {
          AllPassed(free, size, freep, nunits);
          p, ok := Morecore(nunits, granted, a);
          calls := calls + 1;
          if !ok {
            return p, ok, calls;
          }
          if p == 0 {
            return 0, ok, calls;
          }
          HeapNext(base, ptr, size, free, live, owner, p);
          PassedStart(base, ptr, free, freep);
        } else {
          AheadNext(base, ptr, free, freep, p);
          PassedNext(base, ptr, size, free, freep, p, nunits);
        }
        HeapNext(base, ptr, size, free, live, owner, p);
        prevp := p;
        p := ptr[p];
      }
    }

    /** The first call of malloc() makes `base` the whole list. */
    method Start()
      requires Valid()
      modifies this`ptr, this`size, this`freep, this`free
      ensures Valid() && freep != 0
      ensures old(freep) != 0 ==> ptr == old(ptr) && size == old(size) && freep == old(freep) && free == old(free)
      ensures old(freep) == 0 ==> free == {base} && base in size && size[base] == 0
    {
      hide HeapOk;
      if freep == 0 {
        EmptyHeap(base, ptr, size);
        ptr, size, freep, free := ptr[base := base], size[base := 0], base, {base};
      }
    }

    static lemma AllPassed(free: set<nat>, size: Words, f: nat, nunits: nat)
      requires forall x | x in free && x != f && InArc(f, f, x) :: x in size && size[x] < nunits
      requires f in size && size[f] < nunits
      ensures forall x | x in free :: x in size && size[x] < nunits
    {}

    /** The units hold the header and the bytes asked for, and less than one of them is wasted. */
    static lemma UnitsHold(nbytes: nat)
      ensures nbytes + HEADER <= Nunits(nbytes) * HEADER < nbytes + 2 * HEADER
    {}

    static lemma NunitsPositive(nbytes: nat)
      ensures Nunits(nbytes) >= 1 && (nbytes < 2 * INT ==> Nunits(nbytes) < 2 * INT)
    {}

    static lemma EmptyHeap(base: nat, ptr: Words, size: Words)
      ensures HeapOk(base, ptr[base := base], size[base := 0], {base}, map[], map[], {})
    {}

    /** One step of the search: p is new, and the lap is not over while the slot is still to come. */
    static lemma Onward(base: nat, ptr: Words, free: set<nat>, f: nat, p: nat, seen: set<nat>, k: nat)
      requires Linked(base, ptr, free) && f in free && p in free && k in free && k !in seen && k != p
      requires if p == f then seen == {} else seen == free - Ahead(free, f, p) + {f}
      ensures p !in seen && ptr[p] != f && ptr[p] in free && seen + {p} == free - Ahead(free, f, ptr[p]) + {f}
    {
      hide IsNext, Ahead;
      NextIn(base, ptr, free, p);
      AheadEnd(free, f);
      if p == f {
        AheadStart(base, ptr, free, f);
      } else {
        AheadNext(base, ptr, free, f, p);
      }
    }

    static lemma Smaller(a: set<nat>, b: set<nat>, k: nat)
      requires a <= b
      ensures |a| <= |b| && (k in b && k !in a ==> |a| < |b|)
    {
      if k in b && k !in a {
        assert |b - {k}| == |b| - 1;
        Subset(a, b - {k});
      } else {
        Subset(a, b);
      }
    }

    static lemma Subset(a: set<nat>, b: set<nat>)
      requires a <= b
      ensures |a| <= |b|
    {
      assert |b - a| + |a| == |b - a + a|;
      assert b - a + a == b;
    }
  }
}
