/** The free list of user/umalloc.c: headers in memory, linked in a circle in address order. Addresses and sizes
    are in units of one header. */
module UmallocList {
  type Words = map<nat, nat>

  /** q comes after b on the circle: the next higher free block, or the lowest one. */
  ghost predicate IsNext(base: nat, free: set<nat>, b: nat, q: nat) {
    && q in free
    && if b < q then forall x | x in free :: x <= b || q <= x else q == base && forall x | x in free :: x <= b
  }

  /** The free blocks are linked in one circle, ascending from `base`. */
  ghost predicate Linked(base: nat, ptr: Words, free: set<nat>) {
    && base in free
    && (forall b | b in free :: base <= b && b in ptr)
    && (forall b {:trigger ptr[b]} | b in free :: IsNext(base, free, b, ptr[b]))
  }

  /** Free blocks do not overlap; only `base` is empty. */
  ghost predicate Sized(base: nat, size: Words, free: set<nat>) {
    && base in size && size[base] == 0
    && (forall b | b in free && b != base :: b in size && size[b] >= 1)
    && (forall b, c | b in free && c in free && b < c :: b in size && b + size[b] <= c)
  }

  /** Block b consists of exactly the n units from b on. */
  ghost predicate BlockOk(owner: Words, b: nat, n: nat) {
    forall u: nat :: u in owner && owner[u] == b <==> b <= u < b + n
  }

  ghost predicate FreeBlocks(base: nat, size: Words, free: set<nat>, owner: Words) {
    forall b | b in free && b != base :: b in size && BlockOk(owner, b, size[b])
  }

  ghost predicate LiveBlocks(size: Words, free: set<nat>, live: Words, owner: Words) {
    forall b | b in live :: b in size && size[b] == live[b] && live[b] >= 1 && b !in free && BlockOk(owner, b, live[b])
  }

  /** Every unit ever obtained is in exactly one block, which is free or live. */
  ghost predicate Owned(base: nat, size: Words, free: set<nat>, live: Words, owner: Words) {
    && FreeBlocks(base, size, free, owner) && LiveBlocks(size, free, live, owner)
    && (forall u | u in owner :: u > base && owner[u] != base && (owner[u] in live || owner[u] in free))
  }

  // ----- the links -----

  lemma InsertNext(base: nat, free: set<nat>, p: nat, q: nat, b: nat, x: nat, y: nat)
    requires IsNext(base, free, p, q) && p in free && p < b && (p < q ==> b < q) && b !in free && base <= p
    requires IsNext(base, free, x, y) && x in free && base <= x
    ensures IsNext(base, free + {b}, p, b) && IsNext(base, free + {b}, b, q)
    ensures x != p ==> IsNext(base, free + {b}, x, y)
  {}

  lemma InsertLinked(base: nat, ptr: Words, free: set<nat>, p: nat, b: nat)
    requires Linked(base, ptr, free) && p in free && b !in free && p < b && (p < ptr[p] ==> b < ptr[p])
    ensures Linked(base, ptr[p := b][b := ptr[p]], free + {b})
  {
    hide IsNext;
    var ptr', free' := ptr[p := b][b := ptr[p]], free + {b};
    forall x | x in free' ensures x in ptr' && IsNext(base, free', x, ptr'[x]) {
      var z := if x in free then x else p;
      InsertNext(base, free, p, ptr[p], b, z, ptr[z]);
    }
  }

  lemma UnlinkNext(base: nat, free: set<nat>, p: nat, c: nat, q: nat, x: nat, y: nat)
    requires IsNext(base, free, p, c) && IsNext(base, free, c, q) && p in free && c in free && c != base && base in free
    requires base <= p
    requires IsNext(base, free, x, y) && x in free && x != c
    ensures p < c && q != c && IsNext(base, free - {c}, p, q)
    ensures x != p ==> IsNext(base, free - {c}, x, y)
  {}

  lemma UnlinkLinked(base: nat, ptr: Words, free: set<nat>, p: nat)
    requires Linked(base, ptr, free) && p in free && ptr[p] != base
    ensures ptr[p] in free && p < ptr[p] && Linked(base, ptr[p := ptr[ptr[p]]], free - {ptr[p]})
  {
    hide IsNext;
    NextIn(base, ptr, free, p);
    var c := ptr[p];
    UnlinkNext(base, free, p, c, ptr[c], p, c);
    var ptr', free' := ptr[p := ptr[c]], free - {c};
    forall x | x in free' ensures IsNext(base, free', x, ptr'[x]) {
      UnlinkNext(base, free, p, c, ptr[c], x, ptr[x]);
    }
  }

  lemma NextIn(base: nat, ptr: Words, free: set<nat>, p: nat)
    requires Linked(base, ptr, free) && p in free
    ensures ptr[p] in free && (p < ptr[p] || ptr[p] == base)
  {
    assert IsNext(base, free, p, ptr[p]);
  }

  // ----- the sizes -----

  lemma InsertSized(base: nat, size: Words, free: set<nat>, b: nat)
    requires Sized(base, size, free) && b in size && size[b] >= 1 && base in free
    requires forall x | x in free :: if x < b then x in size && x + size[x] <= b else b + size[b] <= x
    ensures Sized(base, size, free + {b})
  {}

  lemma JoinSized(base: nat, size: Words, free: set<nat>, p: nat, c: nat)
    requires Sized(base, size, free) && p in free && c in free && p != base && c != base
    requires p in size && c in size && p + size[p] == c
    ensures Sized(base, size[p := size[p] + size[c]], free - {c})
  {}

  lemma ShrinkSized(base: nat, size: Words, free: set<nat>, p: nat, n: nat)
    requires Sized(base, size, free) && base in free && p in free && p != base && p in size && 1 <= n < size[p]
    ensures var t := p + size[p] - n; t !in free && Sized(base, size[p := size[p] - n][t := n], free)
  {}

  // ----- the units -----

  /** The units of block c now belong to block b. */
  ghost function Reowned(owner: Words, c: nat, b: nat): Words {
    map u | u in owner :: if owner[u] == c then b else owner[u]
  }

  lemma ReownedBlock(owner: Words, c: nat, b: nat, n: nat, m: nat)
    requires BlockOk(owner, b, n) && BlockOk(owner, c, m) && b + n == c && n > 0 && m > 0
    ensures BlockOk(Reowned(owner, c, b), b, n + m)
  {
    var owner' := Reowned(owner, c, b);
    forall u: nat ensures u in owner' && owner'[u] == b <==> b <= u < b + (n + m) {
      assert (u in owner && owner[u] == b <==> b <= u < b + n) && (u in owner && owner[u] == c <==> c <= u < c + m);
    }
  }

  lemma ReownedOther(owner: Words, c: nat, b: nat, x: nat, l: nat)
    requires BlockOk(owner, x, l) && x != b && x != c
    ensures BlockOk(Reowned(owner, c, b), x, l)
  {
    var owner' := Reowned(owner, c, b);
    forall u: nat ensures u in owner' && owner'[u] == x <==> x <= u < x + l {
      assert u in owner && owner[u] == x <==> x <= u < x + l;
    }
  }

  lemma JoinOwned(base: nat, size: Words, free: set<nat>, live: Words, owner: Words, p: nat, c: nat)
    requires Owned(base, size, free, live, owner) && Sized(base, size, free) && p in free && c in free && p != base
    requires c != base
    requires p in size && c in size && p + size[p] == c
    ensures Owned(base, size[p := size[p] + size[c]], free - {c}, live, Reowned(owner, c, p))
  {
    hide BlockOk;
    var size', free', owner' := size[p := size[p] + size[c]], free - {c}, Reowned(owner, c, p);
    forall b | b in free' && b != base ensures b in size' && BlockOk(owner', b, size'[b]) {
      if b == p { ReownedBlock(owner, c, p, size[p], size[c]); } else { ReownedOther(owner, c, p, b, size[b]); }
    }
    forall b | b in live ensures BlockOk(owner', b, live[b]) {
      ReownedOther(owner, c, p, b, live[b]);
    }
  }

  /** The units of block b from t on, cut off as a block of their own. */
  ghost function Cut(owner: Words, b: nat, t: nat): Words {
    map u | u in owner :: if owner[u] == b && u >= t then t else owner[u]
  }

  lemma CutKeys(owner: Words, b: nat, t: nat)
    ensures Cut(owner, b, t).Keys == owner.Keys
  {}

  lemma CutBlock(owner: Words, b: nat, size: nat, n: nat)
    requires BlockOk(owner, b, size) && 1 <= n < size && (forall u | u in owner :: owner[u] != b + size - n)
    ensures var t := b + size - n; BlockOk(Cut(owner, b, t), b, size - n) && BlockOk(Cut(owner, b, t), t, n)
  {
    var t := b + size - n;
    var owner' := Cut(owner, b, t);
    forall u: nat
      ensures u in owner' && owner'[u] == b <==> b <= u < b + (size - n)
      ensures u in owner' && owner'[u] == t <==> t <= u < t + n
    {
      assert u in owner && owner[u] == b <==> b <= u < b + size;
    }
  }

  lemma CutOther(owner: Words, b: nat, t: nat, x: nat, l: nat)
    requires BlockOk(owner, x, l) && x != b && x != t
    ensures BlockOk(Cut(owner, b, t), x, l)
  {
    var owner' := Cut(owner, b, t);
    forall u: nat ensures u in owner' && owner'[u] == x <==> x <= u < x + l {
      assert u in owner && owner[u] == x <==> x <= u < x + l;
    }
  }

  /** A block owns its first unit; no block starts inside another one. */
  lemma OwnsFirst(owner: Words, b: nat, n: nat, t: nat)
    requires BlockOk(owner, b, n) && b <= t < b + n
    ensures t in owner && owner[t] == b
  {}

  lemma FreshStart(base: nat, size: Words, free: set<nat>, live: Words, owner: Words, p: nat, t: nat)
    requires Owned(base, size, free, live, owner) && p in free && p != base && p in size && p < t < p + size[p]
    requires t !in free
    ensures t !in live && forall u | u in owner :: owner[u] != t
  {
    OwnsFirst(owner, p, size[p], t);
    if t in live {
      OwnsFirst(owner, t, live[t], t);
    }
  }

  lemma SplitOwned(base: nat, size: Words, free: set<nat>, live: Words, owner: Words, p: nat, n: nat)
    requires Owned(base, size, free, live, owner) && p in free && p != base && p in size && 1 <= n < size[p]
    requires p + size[p] - n !in free
    ensures var t := p + size[p] - n;
      t !in live && Owned(base, size[p := size[p] - n][t := n], free, live[t := n], Cut(owner, p, t))
  {
    hide BlockOk;
    var t := p + size[p] - n;
    var size', owner' := size[p := size[p] - n][t := n], Cut(owner, p, t);
    FreshStart(base, size, free, live, owner, p, t);
    OwnsFirst(owner, p, size[p], p);
    CutBlock(owner, p, size[p], n);
    forall b | b in free && b != base ensures b in size' && BlockOk(owner', b, size'[b]) {
      if b != p { CutOther(owner, p, t, b, size[b]); }
    }
    forall b | b in live ensures BlockOk(owner', b, live[b]) {
      CutOther(owner, p, t, b, live[b]);
    }
  }

  lemma BlocksDisjoint(owner: Words, b: nat, n: nat, c: nat, m: nat)
    requires BlockOk(owner, b, n) && BlockOk(owner, c, m) && b < c && n > 0 && m > 0
    ensures b + n <= c
  {
    if c < b + n {
      OwnsFirst(owner, b, n, c);
      OwnsFirst(owner, c, m, c);
    }
  }

  lemma InsertOwned(base: nat, size: Words, free: set<nat>, live: Words, owner: Words, b: nat)
    requires Owned(base, size, free, live, owner) && b in live
    ensures Owned(base, size, free + {b}, Without(live, b), owner)
  {
    hide BlockOk;
  }

  function Without(live: Words, b: nat): Words {
    map x | x in live && x != b :: live[x]
  }

  /** A live block lies clear of the free ones. */
  lemma LiveClear(base: nat, size: Words, free: set<nat>, live: Words, owner: Words, b: nat, x: nat)
    requires Owned(base, size, free, live, owner) && Sized(base, size, free) && b in live && x in free
    ensures base < b && b != x && b in size && x in size
    ensures if x < b then x + size[x] <= b else b + size[b] <= x
  {
    OwnsFirst(owner, b, live[b], b);
    if x != base {
      if x < b {
        BlocksDisjoint(owner, x, size[x], b, live[b]);
      } else {
        BlocksDisjoint(owner, b, live[b], x, size[x]);
      }
    }
  }

  // ----- touching blocks -----

  /** Free blocks touch at most where one of `touch` ends. */
  ghost predicate ApartBut(size: Words, free: set<nat>, touch: set<nat>) {
    forall b, c | b in free && c in free && b < c && b !in touch :: b in size && b + size[b] < c
  }

  /** The blocks that may touch the next one when b is put after p. */
  ghost function Touch(lower: bool, p: nat, upper: bool, b: nat): set<nat> {
    (if lower then {p} else {}) + (if upper then {b} else {})
  }

  lemma TouchLess(lower: bool, p: nat, upper: bool, b: nat)
    requires p != b
    ensures Touch(lower, p, upper, b) - {b} == Touch(lower, p, false, b)
    ensures Touch(lower, p, false, b) - {p} == {} == Touch(false, p, false, b)
    ensures lower ==> p in Touch(lower, p, upper, b)
    ensures upper ==> b in Touch(lower, p, upper, b)
    ensures forall x | x in Touch(lower, p, upper, b) :: (x == p && lower) || (x == b && upper)
  {}

  lemma InsertApart(base: nat, size: Words, free: set<nat>, p: nat, q: nat, b: nat, touch: set<nat>)
    requires ApartBut(size, free, {}) && Sized(base, size, free) && p in free && IsNext(base, free, p, q) && b in size
    requires p in size && p < b && p + size[p] <= b && (p < q ==> b + size[b] <= q && b < q)
    requires p + size[p] == b ==> p in touch
    requires b + size[b] == q ==> b in touch
    ensures ApartBut(size, free + {b}, touch)
  {}

  lemma JoinApart(base: nat, size: Words, free: set<nat>, p: nat, c: nat, touch: set<nat>)
    requires ApartBut(size, free, touch) && Sized(base, size, free) && p in free && c in free && p < c && c !in touch
    requires p in size && c in size && p + size[p] == c && c != base
    ensures ApartBut(size[p := size[p] + size[c]], free - {c}, touch - {p})
  {}

  // ----- fresh units -----

  ghost function Range(a: nat, n: nat): (s: set<nat>)
    ensures forall u: nat :: u in s <==> a <= u < a + n
    ensures |s| == n
  {
    if n == 0 then {} else Range(a, n - 1) + {a + n - 1}
  }

  /** Units that nobody had become block a. */
  ghost function Granted(owner: Words, a: nat, n: nat): Words {
    map u | u in owner.Keys + Range(a, n) :: if u in owner then owner[u] else a
  }

  ghost predicate Fresh(owner: Words, a: nat, n: nat) {
    forall u: nat | a <= u < a + n :: u !in owner
  }

  lemma GrantOwned(base: nat, size: Words, free: set<nat>, live: Words, owner: Words, a: nat, n: nat)
    requires Owned(base, size, free, live, owner) && n >= 1 && a > base && Fresh(owner, a, n)
    requires forall b | b in free && b != base :: b in size && size[b] >= 1
    ensures a !in free && a !in live && Owned(base, size[a := n], free, live[a := n], Granted(owner, a, n))
  {
    hide BlockOk, Granted, Fresh, FreeBlocks, LiveBlocks;
    assert a !in owner by { FreshFirst(owner, a, n); }
    GrantFree(base, size, free, owner, a, n);
    GrantLive(size, free, live, owner, a, n);
    GrantUnits(owner, a, n);
  }

  lemma GrantFree(base: nat, size: Words, free: set<nat>, owner: Words, a: nat, n: nat)
    requires FreeBlocks(base, size, free, owner) && a !in owner && a != base
    requires forall b | b in free && b != base :: b in size && size[b] >= 1
    ensures a !in free && FreeBlocks(base, size[a := n], free, Granted(owner, a, n))
  {
    hide BlockOk, Granted;
    forall b | b in free && b != base ensures b != a && BlockOk(Granted(owner, a, n), b, size[b]) {
      OwnsFirst(owner, b, size[b], b);
      GrantOther(owner, a, n, b, size[b]);
    }
  }

  lemma GrantLive(size: Words, free: set<nat>, live: Words, owner: Words, a: nat, n: nat)
    requires LiveBlocks(size, free, live, owner) && a !in owner && a !in free && Fresh(owner, a, n) && n >= 1
    requires forall u | u in owner :: owner[u] in live || owner[u] in free
    ensures a !in live && LiveBlocks(size[a := n], free, live[a := n], Granted(owner, a, n))
  {
    hide BlockOk, Granted, Fresh;
    forall b | b in live ensures b != a && BlockOk(Granted(owner, a, n), b, live[b]) {
      OwnsFirst(owner, b, live[b], b);
      GrantOther(owner, a, n, b, live[b]);
    }
    GrantNew(free, live, owner, a, n);
  }

  lemma FreshFirst(owner: Words, a: nat, n: nat)
    requires n >= 1 && Fresh(owner, a, n)
    ensures a !in owner
  {}

  lemma GrantUnits(owner: Words, a: nat, n: nat)
    ensures Granted(owner, a, n).Keys == owner.Keys + Range(a, n)
    ensures forall u | u in Granted(owner, a, n) ::
      if u in owner then Granted(owner, a, n)[u] == owner[u] else u >= a && Granted(owner, a, n)[u] == a
  {}

  lemma GrantOther(owner: Words, a: nat, n: nat, x: nat, l: nat)
    requires BlockOk(owner, x, l) && x != a
    ensures BlockOk(Granted(owner, a, n), x, l)
  {
    var owner' := Granted(owner, a, n);
    forall u: nat ensures u in owner' && owner'[u] == x <==> x <= u < x + l {
      assert u in owner && owner[u] == x <==> x <= u < x + l;
    }
  }

  lemma GrantNew(free: set<nat>, live: Words, owner: Words, a: nat, n: nat)
    requires Fresh(owner, a, n) && a !in free && a !in live
    requires forall u | u in owner :: owner[u] in live || owner[u] in free
    ensures BlockOk(Granted(owner, a, n), a, n)
  {
    forall u: nat
      ensures u in Granted(owner, a, n) && Granted(owner, a, n)[u] == a <==> a <= u < a + n
    {
      GrantedAt(owner, a, n, u);
      assert u in owner ==> owner[u] != a;
    }
    hide Granted;
  }

  lemma GrantedAt(owner: Words, a: nat, n: nat, u: nat)
    ensures u in Granted(owner, a, n) <==> u in owner || a <= u < a + n
    ensures u in Granted(owner, a, n) ==> Granted(owner, a, n)[u] == if u in owner then owner[u] else a
  {
    hide Range;
  }

  // ----- conservation -----

  ghost function UnitsOf(owner: Words, blocks: set<nat>): set<nat> {
    set u | u in owner && owner[u] in blocks
  }

  /** Free units and live units make up all the units there are. */
  lemma Conserved(base: nat, size: Words, free: set<nat>, live: Words, owner: Words)
    requires Owned(base, size, free, live, owner)
    ensures |UnitsOf(owner, free)| + |UnitsOf(owner, live.Keys)| == |owner.Keys|
    ensures UnitsOf(owner, free) !! UnitsOf(owner, live.Keys)
  {
    hide BlockOk;
    assert UnitsOf(owner, free) + UnitsOf(owner, live.Keys) == owner.Keys;
  }

  /** Live blocks do not overlap, neither each other nor free ones. */
  lemma LiveDisjoint(base: nat, size: Words, free: set<nat>, live: Words, owner: Words, b: nat, c: nat)
    requires Owned(base, size, free, live, owner) && b in live && c in live && b < c
    ensures b + live[b] <= c
  {
    BlocksDisjoint(owner, b, live[b], c, live[c]);
  }

  // ----- going around the circle -----

  /** x comes after f and before p on the way around. */
  predicate InArc(f: nat, p: nat, x: nat) {
    if f < p then f < x < p else f < x || x < p
  }

  lemma ArcStart(base: nat, free: set<nat>, f: nat, q: nat)
    requires IsNext(base, free, f, q) && f in free && forall x | x in free :: base <= x
    ensures forall x | x in free :: x != f ==> !InArc(f, q, x) || q == f
    ensures q == f ==> free == {f}
  {
    if q == f {
      assert forall x | x in free :: x == f;
    }
  }

  lemma ArcStep(base: nat, free: set<nat>, f: nat, p: nat, q: nat, x: nat)
    requires IsNext(base, free, p, q) && f in free && p in free && x in free && p != f
    requires forall y | y in free :: base <= y
    ensures InArc(f, q, x) && x != f <==> x == p || (InArc(f, p, x) && x != f)
  {}

  ghost function Ahead(free: set<nat>, f: nat, p: nat): set<nat> {
    set x | x in free && !(x != f && InArc(f, p, x))
  }

  lemma AheadShrinks(base: nat, free: set<nat>, f: nat, p: nat, q: nat)
    requires IsNext(base, free, p, q) && f in free && p in free && p != f && forall y | y in free :: base <= y
    ensures Ahead(free, f, q) == Ahead(free, f, p) - {p} && p in Ahead(free, f, p)
    ensures |Ahead(free, f, q)| < |Ahead(free, f, p)|
  {
    forall x | x in free ensures x in Ahead(free, f, q) <==> x in Ahead(free, f, p) && x != p {
      ArcStep(base, free, f, p, q, x);
    }
  }

  lemma AheadStart(base: nat, ptr: Words, free: set<nat>, f: nat)
    requires Linked(base, ptr, free) && f in free
    ensures if ptr[f] == f then free == {f} else Ahead(free, f, ptr[f]) == free
  {
    assert IsNext(base, free, f, ptr[f]);
    ArcStart(base, free, f, ptr[f]);
  }

  lemma AheadEnd(free: set<nat>, f: nat)
    requires f in free
    ensures Ahead(free, f, f) == {f}
  {}

  lemma AheadNext(base: nat, ptr: Words, free: set<nat>, f: nat, p: nat)
    requires Linked(base, ptr, free) && f in free && p in free && p != f
    ensures p in Ahead(free, f, p) && Ahead(free, f, ptr[p]) == Ahead(free, f, p) - {p}
    ensures |Ahead(free, f, ptr[p])| < |Ahead(free, f, p)|
  {
    hide IsNext, Ahead;
    AheadShrinks(base, free, f, p, ptr[p]);
  }

  /** Where free() has to put block b: between p and the block after it, or at the end. */
  predicate Slot(p: nat, q: nat, b: nat) {
    p < b < q || (p >= q && (b > p || b < q))
  }

  lemma SlotExists(base: nat, ptr: Words, free: set<nat>, b: nat) returns (k: nat)
    requires Linked(base, ptr, free) && base < b && b !in free
    ensures k in free && Slot(k, ptr[k], b)
  {
    k := MaxBelow(free, b, base);
    assert IsNext(base, free, k, ptr[k]);
  }

  lemma {:induction false} MaxBelow(free: set<nat>, b: nat, some: nat) returns (k: nat)
    requires some in free && some < b
    ensures k in free && k < b && forall x | x in free && x < b :: x <= k
    decreases b - some
  {
    if y :| y in free && some < y < b {
      k := MaxBelow(free, b, y);
    } else {
      k := some;
    }
  }

  /** Where k steps along ptr lead from b. */
  ghost function Follow(ptr: Words, b: nat, k: nat): nat {
    if k == 0 then b else var y := Follow(ptr, b, k - 1); if y in ptr then ptr[y] else y
  }

  ghost function Below(free: set<nat>, x: nat): set<nat> {
    set y | y in free && y < x
  }

  /** The list is one circle: from `base`, each free block is reached after as many steps as there are lower ones. */
  lemma {:induction false} OneCircle(base: nat, ptr: Words, free: set<nat>, x: nat)
    requires Linked(base, ptr, free) && x in free
    ensures Follow(ptr, base, |Below(free, x)|) == x
    decreases x
  {
    hide Linked;
    BaseIn(base, ptr, free);
    if x == base {
      assert Below(free, x) == {};
    } else {
      var k := MaxBelow(free, x, base);
      OneCircle(base, ptr, free, k);
      Preceding(base, ptr, free, k, x);
      assert Below(free, x) == Below(free, k) + {k};
      assert |Below(free, x)| == |Below(free, k)| + 1;
    }
  }

  lemma Preceding(base: nat, ptr: Words, free: set<nat>, k: nat, x: nat)
    requires Linked(base, ptr, free) && k in free && x in free && k < x && forall y | y in free && y < x :: y <= k
    ensures ptr[k] == x
  {
    assert IsNext(base, free, k, ptr[k]);
  }

  lemma SlotMeans(base: nat, ptr: Words, free: set<nat>, p: nat, b: nat)
    requires Linked(base, ptr, free) && p in free && base < b && b !in free && Slot(p, ptr[p], b)
    ensures p < b && (p < ptr[p] ==> b < ptr[p])
  {
    assert IsNext(base, free, p, ptr[p]);
  }

  // ----- the list as a whole -----

  ghost predicate HeapOk(base: nat, ptr: Words, size: Words, free: set<nat>, live: Words, owner: Words,
                         touch: set<nat>)
  {
    && Linked(base, ptr, free) && Sized(base, size, free) && ApartBut(size, free, touch)
    && Owned(base, size, free, live, owner)
  }

  lemma HeapInsert(base: nat, ptr: Words, size: Words, free: set<nat>, live: Words, owner: Words, p: nat, b: nat,
                   touch: set<nat>)
    requires HeapOk(base, ptr, size, free, live, owner, {}) && b in live && p in free && Slot(p, ptr[p], b) && b in size
    requires p in size
    requires p + size[p] == b ==> p in touch
    requires b + size[b] == ptr[p] ==> b in touch
    ensures base < b && b !in free
    ensures HeapOk(base, ptr[p := b][b := ptr[p]], size, free + {b}, Without(live, b), owner, touch)
  {
    hide Linked, Sized, ApartBut, Owned, Slot, IsNext;
    assert base in free by { BaseIn(base, ptr, free); }
    LiveClear(base, size, free, live, owner, b, p);
    LiveClear(base, size, free, live, owner, b, base);
    forall x | x in free ensures x != b && x in size && if x < b then x + size[x] <= b else b + size[b] <= x {
      LiveClear(base, size, free, live, owner, b, x);
    }
    LiveSize(base, size, free, live, owner, b);
    SlotMeans(base, ptr, free, p, b);
    NextIs(base, ptr, free, p);
    InsertLinked(base, ptr, free, p, b);
    InsertSized(base, size, free, b);
    InsertApart(base, size, free, p, ptr[p], b, touch);
    InsertOwned(base, size, free, live, owner, b);
  }

  lemma BaseIn(base: nat, ptr: Words, free: set<nat>)
    requires Linked(base, ptr, free)
    ensures base in free && forall b | b in free :: b in ptr && base <= b
  {}

  lemma NextIs(base: nat, ptr: Words, free: set<nat>, p: nat)
    requires Linked(base, ptr, free) && p in free
    ensures p in ptr && ptr[p] in free && IsNext(base, free, p, ptr[p])
  {}

  lemma LiveSize(base: nat, size: Words, free: set<nat>, live: Words, owner: Words, b: nat)
    requires Owned(base, size, free, live, owner) && b in live
    ensures b in size && size[b] == live[b] >= 1 && b in owner && owner[b] == b && b !in free
  {
    OwnsFirst(owner, b, live[b], b);
  }

  /** All that free() needs to know about the place of block b. */
  lemma HeapPlace(base: nat, ptr: Words, size: Words, free: set<nat>, live: Words, owner: Words, p: nat, b: nat)
    requires HeapOk(base, ptr, size, free, live, owner, {}) && b in live && p in free
    ensures Linked(base, ptr, free) && base < b && b !in free && base <= p
    ensures b in size && size[b] == live[b] && b in owner && owner[b] == b && p in size && (p == base ==> size[p] == 0)
    ensures p in ptr && ptr[p] in free && ptr[p] in ptr && ptr[p] in size && (ptr[p] == p ==> p == base)
    ensures Slot(p, ptr[p], b) ==> p < b
  {
    hide Linked, Sized, ApartBut, Owned, Slot;
    BaseIn(base, ptr, free);
    LiveSize(base, size, free, live, owner, b);
    LiveClear(base, size, free, live, owner, b, base);
    NextIn(base, ptr, free, p);
    FreeSize(base, size, free, p);
    FreeSize(base, size, free, ptr[p]);
    if Slot(p, ptr[p], b) { SlotMeans(base, ptr, free, p, b); }
  }

  lemma HeapJoin(base: nat, ptr: Words, size: Words, free: set<nat>, live: Words, owner: Words, p: nat, touch: set<nat>)
    requires HeapOk(base, ptr, size, free, live, owner, touch) && p in free && p != base && p in ptr && ptr[p] != base
    requires p in size && ptr[p] in size && p + size[p] == ptr[p] && ptr[p] !in touch
    ensures ptr[p] in free && ptr[p] in ptr
    ensures HeapOk(base, ptr[p := ptr[ptr[p]]], size[p := size[p] + size[ptr[p]]], free - {ptr[p]}, live,
                                                      Reowned(owner, ptr[p], p), touch - {p})
  {
    hide Linked, Sized, ApartBut, Owned, IsNext;
    BaseIn(base, ptr, free);
    NextIs(base, ptr, free, p);
    UnlinkLinked(base, ptr, free, p);
    JoinSized(base, size, free, p, ptr[p]);
    JoinApart(base, size, free, p, ptr[p], touch);
    JoinOwned(base, size, free, live, owner, p, ptr[p]);
  }

  lemma RemoveSized(base: nat, size: Words, free: set<nat>, c: nat)
    requires Sized(base, size, free) && ApartBut(size, free, {}) && c != base
    ensures Sized(base, size, free - {c}) && ApartBut(size, free - {c}, {})
  {}

  lemma RemoveOwned(base: nat, size: Words, free: set<nat>, live: Words, owner: Words, c: nat)
    requires Owned(base, size, free, live, owner) && c in free && c != base && c in size && size[c] >= 1
    ensures c !in live && Owned(base, size, free - {c}, live[c := size[c]], owner)
  {
    hide BlockOk;
  }

  lemma FreeSize(base: nat, size: Words, free: set<nat>, b: nat)
    requires Sized(base, size, free) && b in free
    ensures b in size && (b != base ==> size[b] >= 1) && (b == base ==> size[b] == 0)
  {}

  /** Taking a whole block off the list. */
  lemma HeapRemove(base: nat, ptr: Words, size: Words, free: set<nat>, live: Words, owner: Words, p: nat)
    requires HeapOk(base, ptr, size, free, live, owner, {}) && p in free && p in ptr && ptr[p] != base
    ensures var c := ptr[p];
      && c in free && c in ptr && c in size && c !in live && p != c
      && HeapOk(base, ptr[p := ptr[c]], size, free - {c}, live[c := size[c]], owner, {})
  {
    hide Linked, Sized, ApartBut, Owned, IsNext;
    BaseIn(base, ptr, free);
    NextIs(base, ptr, free, p);
    UnlinkLinked(base, ptr, free, p);
    FreeSize(base, size, free, ptr[p]);
    RemoveSized(base, size, free, ptr[p]);
    RemoveOwned(base, size, free, live, owner, ptr[p]);
  }

  lemma ShrinkApart(size: Words, free: set<nat>, p: nat, n: nat, t: nat)
    requires ApartBut(size, free, {}) && p in size && n < size[p] && t !in free
    ensures ApartBut(size[p := size[p] - n][t := n], free, {})
  {}

  /** Cutting the last n units off a block of the list. */
  lemma HeapSplit(base: nat, ptr: Words, size: Words, free: set<nat>, live: Words, owner: Words, p: nat, rest: nat,
                  n: nat, t: nat)
    requires p in free && p in size && p != base && n >= 1 && rest >= 1 && size[p] == rest + n && t == p + rest
    requires HeapOk(base, ptr, size, free, live, owner, {})
    ensures t !in free && t !in live
    ensures HeapOk(base, ptr, size[p := rest][t := n], free, live[t := n], Cut(owner, p, t), {})
  {
    hide Linked, Sized, ApartBut, Owned, IsNext;
    BaseIn(base, ptr, free);
    ShrinkSized(base, size, free, p, n);
    ShrinkApart(size, free, p, n, t);
    SplitOwned(base, size, free, live, owner, p, n);
  }

  /** New memory, as a block that is not on the list yet. */
  lemma HeapGrant(base: nat, ptr: Words, size: Words, free: set<nat>, live: Words, owner: Words, a: nat, n: nat)
    requires HeapOk(base, ptr, size, free, live, owner, {}) && n >= 1 && a > base && Fresh(owner, a, n)
    ensures a !in free && a !in live && HeapOk(base, ptr, size[a := n], free, live[a := n], Granted(owner, a, n), {})
  {
    hide Linked, ApartBut, Owned, Fresh;
    BaseIn(base, ptr, free);
    GrantOwned(base, size, free, live, owner, a, n);
    GrantSized(base, size, free, a, n);
  }

  lemma GrantSized(base: nat, size: Words, free: set<nat>, a: nat, n: nat)
    requires Sized(base, size, free) && ApartBut(size, free, {}) && a !in free && a != base
    ensures Sized(base, size[a := n], free) && ApartBut(size[a := n], free, {})
  {}
}
