/** The address and page-table-entry arithmetic of kernel/include/riscv.hpp, on
    64-bit words held as natural numbers below 2^64. */
module Riscv {
  import opened Common

  const MAXVA: nat := 0x40_0000_0000

  // Page-table-entry bits, as weights.
  const PTE_V: nat := 1

  function PgRoundDown(a: nat): nat { a - a % PGSIZE }

  // The addition is 64-bit, so it wraps for arguments within a page of 2^64.
  function PgRoundUp(a: nat): nat { PgRoundDown((a + PGSIZE - 1) % U64) }

  // The nine-bit index into a table of the given level.
  function PX(level: nat, va: nat): nat
    requires level <= 2
  {
    if level == 0 then va / 0x1000 % 512
    else if level == 1 then va / 0x20_0000 % 512
    else va / 0x4000_0000 % 512
  }

  function Pa2Pte(pa: nat): nat { pa / 4096 * 1024 }

  function Pte2Pa(pte: nat): nat { pte / 1024 * 4096 % U64 }

  function PteFlags(pte: nat): nat { pte % 1024 }

  predicate IsValid(pte: nat) { pte % 2 == 1 }

  predicate IsUser(pte: nat) { pte / 16 % 2 == 1 }

  // Any of R, W, X set: the entry is a leaf and not a pointer to a lower table.
  predicate IsLeaf(pte: nat) { pte / 2 % 8 != 0 }

  // PA2PTE(pa) | perm | PTE_V
  function MakePte(pa: nat, perm: nat): nat
    requires perm < 1024
  {
    Pa2Pte(pa) + perm + (if perm % 2 == 1 then 0 else 1)
  }

  lemma Split1024(q: nat, f: nat)
    requires f < 1024
    ensures (q * 1024 + f) / 1024 == q && (q * 1024 + f) % 1024 == f
    ensures (q * 1024 + f) % 2 == f % 2
  {
  }

  lemma Split16(q: nat, f: nat)
    ensures (q * 1024 + f) / 16 % 2 == f / 16 % 2
  {
    assert (q * 1024 + f) / 16 == q * 64 + f / 16;
  }

  lemma Split2(q: nat, f: nat)
    ensures (q * 1024 + f) / 2 % 8 == f / 2 % 8
  {
    var h := f / 2;
    assert q * 1024 + f == 2 * (q * 512 + h) + f % 2;
    Half(q * 512 + h, f % 2);
    DropEights(q * 64, h);
  }

  lemma Half(y: nat, b: nat)
    requires b < 2
    ensures (2 * y + b) / 2 == y
  {
  }

  lemma DropEights(k: nat, h: nat)
    ensures (8 * k + h) % 8 == h % 8
  {
  }

  lemma SetValid(perm: nat)
    ensures var f := perm + (if perm % 2 == 1 then 0 else 1);
            f % 2 == 1 && f / 2 == perm / 2 && f / 16 == perm / 16 && (perm < 1024 ==> f < 1024)
  {
  }

  lemma SplitPage(pa: nat)
    requires pa < U64
    ensures pa / 4096 * 4096 % U64 == PgRoundDown(pa)
  {
  }

  lemma MakePteParts(pa: nat, perm: nat)
    requires pa < U64 && perm < 1024
    ensures var e := MakePte(pa, perm);
            && IsValid(e)
            && Pte2Pa(e) == PgRoundDown(pa)
            && PteFlags(e) == perm + (if perm % 2 == 1 then 0 else 1)
            && (IsUser(e) <==> perm / 16 % 2 == 1)
            && (IsLeaf(e) <==> perm / 2 % 8 != 0)
  {
    hide PgRoundDown;
    var q, f := pa / 4096, perm + (if perm % 2 == 1 then 0 else 1);
    SetValid(perm);
    Split1024(q, f);
    Split16(q, f);
    Split2(q, f);
    SplitPage(pa);
  }

  // The page number of an address below MAXVA, split into the three table indices.
  lemma PxOfPage(va: nat)
    requires va < MAXVA
    ensures PX(2, va) == va / 4096 / 262144
    ensures PX(1, va) == va / 4096 / 512 % 512
    ensures PX(0, va) == va / 4096 % 512
  {
    assert va / 0x20_0000 == va / 4096 / 512;
    assert va / 0x4000_0000 == va / 4096 / 262144;
  }

  lemma PageOfIndices(v: nat)
    ensures v == v / 262144 * 262144 + v / 512 % 512 * 512 + v % 512
  {
    assert v / 512 / 512 == v / 262144;
  }
}
