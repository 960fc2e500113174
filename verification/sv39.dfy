/** The Sv39 arithmetic of kernel/riscv.h (section 4.4 of the RISC-V Privileged Specification). Physical and
    virtual pages are numbered: page number p stands for the address p * PGSIZE. */
module Sv39 {
  const PGSIZE: nat := 4096
  const ENTRIES: nat := 512
  const MAXVPN: nat := 0x400_0000       // MAXVA / PGSIZE, MAXVA = 1 << 38
  const PTE_V: nat := 1
  const FLAGS: nat := 1024              // the ten flag bits

  /** The key of the level-l table on the way to a page, among the tables of that level. */
  function Key(vpn: nat, l: nat): nat {
    if l == 0 then vpn / 512 else Key(vpn, l - 1) / 512
  }

  /** The entry to follow in that table. */
  function Index(vpn: nat, l: nat): (i: nat)
    ensures i < ENTRIES
  {
    if l == 0 then vpn % 512 else Key(vpn, l - 1) % 512
  }

  /** PX(level, va) as the header computes it, by shift and mask. */
  function PX(level: nat, va: nat): nat
    requires level <= 2
  {
    (va / (if level == 0 then 0x1000 else if level == 1 then 0x20_0000 else 0x4000_0000)) % 512
  }

  lemma PxIsIndex(level: nat, va: nat)
    requires level <= 2
    ensures PX(level, va) == Index(va / PGSIZE, level)
  {
    assert va / 0x1000 / 512 == va / 0x20_0000;
    assert va / 0x20_0000 / 512 == va / 0x4000_0000;
    assert Key(va / PGSIZE, 1) == Key(va / PGSIZE, 0) / 512;
  }

  /** The three indices determine the page below MAXVA. */
  lemma PxInjective(va: nat, wa: nat)
    requires va / PGSIZE < MAXVPN && wa / PGSIZE < MAXVPN
    requires forall l | 0 <= l <= 2 :: PX(l, va) == PX(l, wa)
    ensures va / PGSIZE == wa / PGSIZE
  {
    forall l: nat | l <= 2 ensures Index(va / PGSIZE, l) == Index(wa / PGSIZE, l) {
      PxIsIndex(l, va);
      PxIsIndex(l, wa);
      assert PX(l, va) == PX(l, wa);
    }
    var v, w := va / PGSIZE, wa / PGSIZE;
    assert Index(v, 0) == v % 512 && Index(v, 1) == v / 512 % 512 && Index(v, 2) == v / 512 / 512 % 512;
    assert Index(w, 0) == w % 512 && Index(w, 1) == w / 512 % 512 && Index(w, 2) == w / 512 / 512 % 512;
  }

  /** PA2PTE(pa) | flags */
  function MakePte(ppn: nat, flags: nat): nat
    requires flags < FLAGS
  {
    ppn * FLAGS + flags
  }

  /** PTE2PA(pte) */
  function PteToPage(pte: nat): nat {
    pte / FLAGS
  }

  function PteFlags(pte: nat): nat {
    pte % FLAGS
  }

  predicate IsValid(pte: nat) {
    pte % 2 == 1
  }

  lemma PteRoundTrip(ppn: nat, flags: nat)
    requires flags < FLAGS
    ensures PteToPage(MakePte(ppn, flags)) == ppn && PteFlags(MakePte(ppn, flags)) == flags
    ensures IsValid(MakePte(ppn, flags)) <==> flags % 2 == 1
  {}

  lemma KeyStep(vpn: nat, l: nat)
    requires l > 0
    ensures Key(vpn, l - 1) == Key(vpn, l) * 512 + Index(vpn, l)
  {}

  lemma KeyTop(vpn: nat)
    requires vpn < MAXVPN
    ensures Key(vpn, 2) == 0
  {
    assert Key(vpn, 1) == vpn / 512 / 512;
  }
}
