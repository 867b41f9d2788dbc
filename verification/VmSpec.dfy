/** What the operations of kernel/memory/VmManager.cpp do to translations, to the
    uses of physical pages and to bytes, as predicates on values, and the steps
    that carry these predicates through the loops. */
module VmSpec {
  import opened Common
  import opened Riscv
  import opened PageTable

  // Virtual pages reachable through a table; 2^26 of them lie below MAXVA.
  const PAGES: nat := 0x800_0000
  const MAXPAGE: nat := 0x400_0000
  const TRAMPOLINE: nat := MAXVA - PGSIZE
  const TRAPFRAME: nat := TRAMPOLINE - PGSIZE

  datatype Slot = Panic | Null | Slot(page: nat, index: nat)
  // userAlloc returns a size, 0 for failure, or does not return.
  datatype AllocResult = Grew(sz: nat) | Failed | Crashed
  datatype MapResult = Mapped | NoMemory | Panicked

  function Junk(): seq<nat> { seq(512, _ => 0x0505_0505_0505_0505) }
  function Bytes(b: Byte): seq<Byte> { seq(PGSIZE, _ => b) }

  // The step of the level loop of walk at which a table page is reached.
  function NodeAt(level: nat, va: nat): Node
    requires level <= 2
  {
    if level == 2 then Root else if level == 1 then Mid(PX(2, va)) else Low(PX(2, va), PX(1, va))
  }

  // An invalid entry on the way down: the page has no lower table and is not mapped.
  lemma StopsHere(m: Mem, use: Uses, root: nat, p: nat, level: nat, va: nat)
    requires va < MAXVA && 0 < level <= 2 && p in use && use[p] == Table(root, NodeAt(level, va))
    requires Linked(m, use, p) && !IsValid(Entry(m, p, PX(level, va)))
    ensures At(m, root, LowOf(va / 4096)) == None && Lookup(m, root, va / 4096) == 0
  {
    PxOfPage(va);
  }

  // The pool covers aligned pages of [first, limit), each with both its views.
  ghost predicate PagesOk(first: nat, limit: nat, tab: Mem, ram: map<nat, seq<Byte>>, use: Uses) {
    && 0 < first && limit < U64
    && forall p :: p in use ==>
         && p % PGSIZE == 0 && first <= p < limit
         && p in tab && |tab[p]| == 512
         && p in ram && |ram[p]| == PGSIZE
  }

  // The free list holds every free page once.
  ghost predicate FreeOk(freeList: seq<nat>, use: Uses) {
    && (forall p :: p in freeList <==> p in use && use[p] == Free)
    && (forall i, j :: 0 <= i < j < |freeList| ==> freeList[i] != freeList[j])
  }

  lemma Retype(freeList: seq<nat>, use: Uses, p: nat, u: Use)
    requires FreeOk(freeList, use) && p in use && use[p] != Free && u != Free
    ensures FreeOk(freeList, use[p := u])
  {
  }

  lemma Pop(freeList: seq<nat>, use: Uses, u: Use)
    requires FreeOk(freeList, use) && freeList != [] && u != Free
    ensures freeList[0] in use && use[freeList[0]] == Free
    ensures FreeOk(freeList[1..], use[freeList[0] := u])
  {
    assert freeList == [freeList[0]] + freeList[1..];
    assert freeList[0] in freeList;
  }

  lemma PushNew(freeList: seq<nat>, use: Uses, p: nat)
    requires FreeOk(freeList, use) && p !in use
    ensures FreeOk([p] + freeList, use[p := Free])
  {
    assert p !in freeList;
  }

  // The pool has exactly the whole pages of [lo, hi).
  ghost predicate Covers(use: Uses, lo: nat, hi: nat) {
    forall p :: p in use <==> p % PGSIZE == 0 && lo <= p && p + PGSIZE <= hi
  }

  lemma EmptyPool(first: nat, limit: nat)
    requires 0 < first && limit < U64
    ensures PagesOk(first, limit, map[], map[], map[]) && FreeOk([], map[]) && Wf(map[], map[])
  {
  }

  lemma NoPageBetween(end: nat, p: nat)
    requires end <= p < end + PGSIZE
    ensures Covers(map[], end, p)
  {
  }

  lemma CoversUpTo(use: Uses, end: nat, p: nat, limit: nat)
    requires Covers(use, end, p) && p % PGSIZE == 0 && limit < p + PGSIZE
    requires p <= limit || p < end + PGSIZE
    ensures Covers(use, end, limit)
  {
    forall q: nat | q % PGSIZE == 0 && q + PGSIZE <= limit ensures q + PGSIZE <= p {
    }
  }

  lemma AddPage(first: nat, limit: nat, freeList: seq<nat>, m: Mem, ram: map<nat, seq<Byte>>, use: Uses, p: nat)
    requires PagesOk(first, limit, m, ram, use) && FreeOk(freeList, use) && Wf(m, use) && Covers(use, first, p)
    requires p % PGSIZE == 0 && first <= p && p + PGSIZE <= limit
    ensures PagesOk(first, limit, m[p := Junk()], ram[p := Bytes(5)], use[p := Free])
    ensures FreeOk([p] + freeList, use[p := Free]) && Wf(m[p := Junk()], use[p := Free])
    ensures Covers(use[p := Free], first, p + PGSIZE)
  {
    assert p !in use;
    PushNew(freeList, use, p);
    OtherPages(m, m[p := Junk()], use, use[p := Free]);
    forall q: nat | q % PGSIZE == 0 && q != p && q + PGSIZE <= p + PGSIZE ensures q + PGSIZE <= p {
    }
  }

  lemma NewRoot(m: Mem, use: Uses, q: nat)
    requires Wf(m, use) && q in use && use[q] == Frame
    ensures Wf(m[q := ZeroPage()], use[q := Table(q, Root)])
    ensures Same(m, m[q := ZeroPage()], use) && NothingMappedBy(m[q := ZeroPage()], q)
  {
    var m', use' := m[q := ZeroPage()], use[q := Table(q, Root)];
    OtherPages(m, m', use, use);
    forall p | IsTable(use', p) ensures Linked(m', use', p) && Closed(m', use', p) {
      if p != q {
        assert Linked(m', use, p) && Closed(m', use, p);
        if !use[p].node.Low? {
          forall k | 0 <= k < 512 ensures PointsDown(m', use', p, k) {
            assert PointsDown(m', use, p, k);
          }
        }
      }
    }
  }

  lemma Push(freeList: seq<nat>, use: Uses, p: nat)
    requires FreeOk(freeList, use) && p in use && use[p] != Free
    ensures FreeOk([p] + freeList, use[p := Free])
  {
    assert p !in freeList;
  }

  // Every address space translates as before.
  ghost predicate Same(m: Mem, m': Mem, use: Uses) {
    forall r, v: nat :: IsRoot(use, r) && v < PAGES ==> Lookup(m', r, v) == Lookup(m, r, v)
  }

  // Only free pages changed use, and only into lower tables of root.
  ghost predicate Grown(use: Uses, use': Uses, root: nat) {
    && use'.Keys == use.Keys
    && forall p :: p in use && use'[p] != use[p] ==>
         use[p] == Free && TakenAsTable(use'[p], root)
  }

  // Bytes of pages in use did not change.
  ghost predicate Kept(use: Uses, ram: map<nat, seq<Byte>>, ram': map<nat, seq<Byte>>) {
    forall p :: p in use && p in ram && use[p] != Free ==> p in ram' && ram'[p] == ram[p]
  }

  // The physical page n steps after pa, in 64-bit arithmetic.
  function NthPa(pa: nat, n: nat): nat {
    if n == 0 then pa else (NthPa(pa, n - 1) + PGSIZE) % U64
  }

  lemma {:induction false} NthPaClosed(pa: nat, n: nat)
    requires pa < U64
    ensures NthPa(pa, n) == (pa + n * PGSIZE) % U64
  {
    if n > 0 {
      NthPaClosed(pa, n - 1);
      ModAdd(pa + (n - 1) * PGSIZE);
    }
  }

  lemma ModAdd(x: nat)
    ensures (x % U64 + PGSIZE) % U64 == (x + PGSIZE) % U64
  {
  }

  // The page of the last byte of [va, va + size), in 64-bit arithmetic.
  function LastPage(va: nat, size: nat): nat { (va + size + U64 - 1) % U64 / 4096 }

  // The pages [lo, hi) of one address space after mapping n of them.
  ghost predicate MappedRange(m: Mem, m': Mem, use: Uses, root: nat, lo: nat, n: nat, pa: nat, perm: nat)
    requires perm < 1024
  {
    forall r, v: nat :: IsRoot(use, r) && v < PAGES ==>
      Lookup(m', r, v) ==
        if r == root && lo <= v < lo + n then MakePte(NthPa(pa, v - lo), perm)
        else Lookup(m, r, v)
  }

  ghost predicate Unmapped(m: Mem, root: nat, lo: nat, n: nat) {
    (n > 0 ==> lo + n <= MAXPAGE) && forall v: nat :: lo <= v < lo + n ==> Lookup(m, root, v) == 0
  }

  // p is the frame of a mapped page in [lo, hi).
  ghost predicate FrameIn(m: Mem, root: nat, lo: nat, hi: nat, p: nat) {
    exists v :: lo <= v < hi && v < PAGES && Lookup(m, root, v) != 0 && Pte2Pa(Lookup(m, root, v)) == p
  }

  // The mapped pages in [lo, hi) have frames of their own.
  ghost predicate OwnsRange(m: Mem, use: Uses, root: nat, lo: nat, hi: nat) {
    && (forall v :: lo <= v < hi && v < PAGES && Lookup(m, root, v) != 0 ==>
          Pte2Pa(Lookup(m, root, v)) in use && use[Pte2Pa(Lookup(m, root, v))] == Frame)
    && (forall v, w :: lo <= v < w < hi && w < PAGES && Lookup(m, root, v) != 0 && Lookup(m, root, w) != 0 ==>
          Pte2Pa(Lookup(m, root, v)) != Pte2Pa(Lookup(m, root, w)))
  }

  // Exactly the page v of root changed, from unmapped to the entry e.
  ghost predicate MappedOne(m: Mem, m': Mem, use: Uses, root: nat, v: nat, e: nat) {
    && Lookup(m, root, v) == 0
    && forall r, w: nat :: IsRoot(use, r) && w < PAGES ==>
         Lookup(m', r, w) == if r == root && w == v then e else Lookup(m, r, w)
  }

  lemma MapStep(m0: Mem, m: Mem, m': Mem, use0: Uses, use: Uses, root: nat, lo: nat, n: nat, pa: nat, perm: nat)
    requires perm < 1024 && IsRoot(use0, root) && lo + n < MAXPAGE
    requires forall r :: IsRoot(use0, r) ==> IsRoot(use, r)
    requires MappedRange(m0, m, use0, root, lo, n, pa, perm) && Unmapped(m0, root, lo, n)
    requires MappedOne(m, m', use, root, lo + n, MakePte(NthPa(pa, n), perm))
    ensures MappedRange(m0, m', use0, root, lo, n + 1, pa, perm) && Unmapped(m0, root, lo, n + 1)
  {
    hide Lookup, NthPa, MakePte;
    assert Lookup(m, root, lo + n) == Lookup(m0, root, lo + n);
  }

  // The pages [lo, hi) of root are unmapped and every other translation is as before.
  ghost predicate Cleared(m: Mem, m': Mem, use: Uses, root: nat, lo: nat, hi: nat) {
    forall r, v: nat :: IsRoot(use, r) && v < PAGES ==>
      Lookup(m', r, v) == if r == root && lo <= v < hi then 0 else Lookup(m, r, v)
  }

  // Exactly the frames of the mapped pages of [lo, hi) went back to the pool.
  ghost predicate Freed(m: Mem, use: Uses, use': Uses, root: nat, lo: nat, hi: nat, doFree: bool) {
    && use'.Keys == use.Keys
    && forall p :: p in use ==>
         use'[p] == if doFree && FrameIn(m, root, lo, hi, p) then Free else use[p]
  }

  // The pages [lo, hi) are mapped with the given flags to zeroed frames of their
  // own that were free before.
  ghost predicate Backed(m: Mem, use0: Uses, use: Uses, ram: map<nat, seq<Byte>>,
                         root: nat, lo: nat, hi: nat, flags: nat) {
    && (forall v: nat :: lo <= v < hi ==>
          && Lookup(m, root, v) != 0 && PteFlags(Lookup(m, root, v)) == flags
          && FreshFrame(use0, use, ram, Pte2Pa(Lookup(m, root, v))))
    && (forall v: nat, w: nat :: lo <= v < w < hi ==>
          Pte2Pa(Lookup(m, root, v)) != Pte2Pa(Lookup(m, root, w)))
  }

  ghost predicate FreshFrame(use0: Uses, use: Uses, ram: map<nat, seq<Byte>>, p: nat) {
    p in use0 && use0[p] == Free && p in use && use[p] == Frame && p in ram && ram[p] == Bytes(0)
  }

  // Outside [lo, hi) of root every translation is as before.
  ghost predicate Outside(m: Mem, m': Mem, use: Uses, root: nat, lo: nat, hi: nat) {
    forall r, v: nat :: IsRoot(use, r) && v < PAGES && !(r == root && lo <= v < hi) ==>
      Lookup(m', r, v) == Lookup(m, r, v)
  }

  // Only free pages changed use: into lower tables of root, or into frames of [lo, hi).
  ghost predicate GrownBy(m: Mem, use: Uses, use': Uses, root: nat, lo: nat, hi: nat) {
    && use'.Keys == use.Keys
    && forall p :: p in use && use'[p] != use[p] ==>
         && use[p] == Free
         && (TakenAsTable(use'[p], root) || (use'[p].Frame? && FrameIn(m, root, lo, hi, p)))
  }

  predicate TakenAsTable(u: Use, root: nat) {
    u.Table? && u.root == root && !u.node.Root?
  }

  // One page v of root was given the fresh frame p.
  ghost predicate Granted(m: Mem, m': Mem, use: Uses, use': Uses, ram': map<nat, seq<Byte>>,
                          root: nat, v: nat, p: nat, flags: nat)
    requires flags < 1024
  {
    && MappedOne(m, m', use, root, v, MakePte(p, flags))
    && p % PGSIZE == 0 && p < U64 && FreshFrame(use, use', ram', p)
    && use'.Keys == use.Keys
    && forall q :: q in use && q != p && use'[q] != use[q] ==>
         use[q] == Free && TakenAsTable(use'[q], root)
  }

  lemma GrantDone(m0: Mem, m: Mem, m': Mem, use0: Uses, use': Uses, root: nat, v: nat, p: nat, flags: nat,
                  ram0: map<nat, seq<Byte>>, ram': map<nat, seq<Byte>>)
    requires flags < 1024 && IsRoot(use0, root) && v < MAXPAGE
    requires p in use0 && use0[p] == Free && p % PGSIZE == 0 && p < U64
    requires Same(m0, m, use0) && MappedOne(m, m', use0[p := Frame], root, v, MakePte(p, flags))
    requires Grown(use0[p := Frame], use', root) && Kept(use0[p := Frame], ram0[p := Bytes(0)], ram')
    ensures Granted(m0, m', use0, use', ram', root, v, p, flags) && Kept(use0, ram0, ram')
  {
    hide Lookup, MakePte, Bytes;
    assert use0[p := Frame].Keys == use0.Keys;
    forall q | q in use0 && q in ram0 && use0[q] != Free ensures q in ram' && ram'[q] == ram0[q] {
      assert use0[p := Frame][q] != Free && ram0[p := Bytes(0)][q] == ram0[q];
    }
  }

  lemma GrantFailed(m0: Mem, m: Mem, m': Mem, m'': Mem, use0: Uses, use': Uses, root: nat, p: nat,
                    ram0: map<nat, seq<Byte>>, ram': map<nat, seq<Byte>>)
    requires p in use0 && use0[p] == Free
    requires Same(m0, m, use0) && Same(m, m', use0[p := Frame]) && Same(m', m'', use')
    requires Grown(use0[p := Frame], use', root) && Kept(use0[p := Frame], ram0[p := Bytes(0)], ram')
    ensures Same(m0, m'', use0) && Grown(use0, use'[p := Free], root) && Kept(use0, ram0, ram'[p := Bytes(5)])
  {
    hide Lookup, Bytes;
    assert use'[p := Free].Keys == use0.Keys;
    forall q | q in use0 && q in ram0 && use0[q] != Free
      ensures q in ram'[p := Bytes(5)] && ram'[p := Bytes(5)][q] == ram0[q]
    {
      assert use0[p := Frame][q] != Free && ram0[p := Bytes(0)][q] == ram0[q];
    }
  }

  lemma AllocStep(m0: Mem, m: Mem, m': Mem, use0: Uses, use: Uses, use': Uses,
                  ram: map<nat, seq<Byte>>, ram': map<nat, seq<Byte>>,
                  root: nat, lo: nat, v: nat, p: nat, flags: nat)
    requires flags < 1024 && flags % 2 == 1 && lo <= v < MAXPAGE && IsRoot(use0, root)
    requires forall r :: IsRoot(use0, r) ==> IsRoot(use, r)
    requires Outside(m0, m, use0, root, lo, v) && GrownBy(m, use0, use, root, lo, v)
    requires Backed(m, use0, use, ram, root, lo, v, flags)
    requires Granted(m, m', use, use', ram', root, v, p, flags) && Kept(use, ram, ram')
    ensures Outside(m0, m', use0, root, lo, v + 1) && GrownBy(m', use0, use', root, lo, v + 1)
    ensures Backed(m', use0, use', ram', root, lo, v + 1, flags)
    ensures forall r :: IsRoot(use0, r) ==> IsRoot(use', r)
  {
    hide Lookup, MakePte, Pte2Pa, PteFlags, Bytes;
    MakePteParts(p, flags);
    assert PgRoundDown(p) == p;
    var e := MakePte(p, flags);
    assert Lookup(m', root, v) == e && e != 0 && Pte2Pa(e) == p && PteFlags(e) == flags;
    assert forall w: nat :: lo <= w < v ==> Lookup(m', root, w) == Lookup(m, root, w);
    forall q | q in use0 && FrameIn(m, root, lo, v, q) ensures FrameIn(m', root, lo, v + 1, q) {
      var w :| lo <= w < v && w < PAGES && Lookup(m, root, w) != 0 && Pte2Pa(Lookup(m, root, w)) == q;
      assert Lookup(m', root, w) == Lookup(m, root, w);
    }
    assert FrameIn(m', root, lo, v + 1, p);
    assert GrownBy(m', use0, use', root, lo, v + 1) by {
      hide FrameIn;
      assert use'.Keys == use0.Keys;
    }
  }

  // Undoing the mapped pages [lo, v) gives back the first state but for empty tables.
  lemma AllocUndo(m0: Mem, m: Mem, m': Mem, use0: Uses, use: Uses, use': Uses,
                  ram0: map<nat, seq<Byte>>, ram: map<nat, seq<Byte>>, ram': map<nat, seq<Byte>>,
                  root: nat, lo: nat, v: nat)
    requires lo <= v && IsRoot(use0, root)
    requires forall r :: IsRoot(use0, r) ==> IsRoot(use, r)
    requires Unmapped(m0, root, lo, v - lo)
    requires Outside(m0, m, use0, root, lo, v) && GrownBy(m, use0, use, root, lo, v)
    requires Backed(m, use0, use, ram, root, lo, v, 31) && Kept(use0, ram0, ram)
    requires Cleared(m, m', use, root, lo, v) && Freed(m, use, use', root, lo, v, true) && Kept(use', ram, ram')
    ensures Same(m0, m', use0) && Grown(use0, use', root) && Kept(use0, ram0, ram')
  {
    hide Lookup, Pte2Pa, PteFlags, Bytes;
    forall p | p in use0
      ensures FrameIn(m, root, lo, v, p) ==> use0[p] == Free
      ensures use'[p] != use0[p] ==> use0[p] == Free && TakenAsTable(use'[p], root)
    {
      if FrameIn(m, root, lo, v, p) {
        var w: nat :| lo <= w < v && w < PAGES && Lookup(m, root, w) != 0 && Pte2Pa(Lookup(m, root, w)) == p;
        assert FreshFrame(use0, use, ram, p);
      }
    }
  }

  lemma KeptAfterGrant(m0: Mem, m: Mem, use0: Uses, use: Uses, ram0: map<nat, seq<Byte>>, ram: map<nat, seq<Byte>>,
                       ram': map<nat, seq<Byte>>, root: nat, lo: nat, v: nat)
    requires GrownBy(m, use0, use, root, lo, v) && Kept(use0, ram0, ram) && Kept(use, ram, ram')
    ensures Kept(use0, ram0, ram')
  {
    hide FrameIn;
  }

  // A failed round only adds tables, so the pages [lo, v) are still as they were.
  lemma GrantUndone(m0: Mem, m: Mem, m': Mem, use0: Uses, use: Uses, use': Uses,
                    ram0: map<nat, seq<Byte>>, ram: map<nat, seq<Byte>>, ram': map<nat, seq<Byte>>,
                    root: nat, lo: nat, v: nat)
    requires lo <= v && (lo < v ==> v <= MAXPAGE) && IsRoot(use0, root)
    requires forall r :: IsRoot(use0, r) ==> IsRoot(use, r)
    requires Outside(m0, m, use0, root, lo, v) && GrownBy(m, use0, use, root, lo, v)
    requires Backed(m, use0, use, ram, root, lo, v, 31) && Kept(use0, ram0, ram)
    requires Same(m, m', use) && Grown(use, use', root) && Kept(use, ram, ram')
    ensures forall r :: IsRoot(use0, r) ==> IsRoot(use', r)
    ensures Outside(m0, m', use0, root, lo, v) && GrownBy(m', use0, use', root, lo, v)
    ensures Backed(m', use0, use', ram', root, lo, v, 31) && Kept(use0, ram0, ram')
  {
    hide Lookup, Pte2Pa, PteFlags, Bytes;
    assert forall w: nat :: lo <= w < v ==> Lookup(m', root, w) == Lookup(m, root, w);
    forall p | FrameIn(m, root, lo, v, p) ensures FrameIn(m', root, lo, v, p) {
      var w: nat :| lo <= w < v && w < PAGES && Lookup(m, root, w) != 0 && Pte2Pa(Lookup(m, root, w)) == p;
      assert Lookup(m', root, w) == Lookup(m, root, w);
    }
    assert GrownBy(m', use0, use', root, lo, v) by {
      hide FrameIn;
    }
  }

  // The pages that userAlloc adds.
  function FirstNew(oldsz: nat): nat { PgRoundUp(oldsz) / 4096 }

  function EndNew(oldsz: nat, newsz: nat): nat {
    if FirstNew(oldsz) < (newsz + PGSIZE - 1) / 4096 then (newsz + PGSIZE - 1) / 4096 else FirstNew(oldsz)
  }

  lemma BackedIsOwned(m: Mem, use0: Uses, use: Uses, ram: map<nat, seq<Byte>>, root: nat, lo: nat, hi: nat)
    requires Backed(m, use0, use, ram, root, lo, hi, 31) && (lo < hi ==> hi <= MAXPAGE)
    ensures OwnsRange(m, use, root, lo, hi) && Unmappable(m, root, lo, hi)
  {
    hide Lookup, Pte2Pa, PteFlags, Bytes;
  }

  // Pages whose use did not change kept their contents.
  ghost predicate Spared(use0: Uses, use: Uses, tab0: Mem, tab: Mem,
                         ram0: map<nat, seq<Byte>>, ram: map<nat, seq<Byte>>, but: nat) {
    forall q :: q in use0 && q in use && use[q] == use0[q] && use0[q] != Free && q in tab0 && q in ram0 && q != but ==>
      q in tab && tab[q] == tab0[q] && q in ram && ram[q] == ram0[q]
  }

  // A lowest table holds no valid entry among its first i.
  ghost predicate EmptyTo(m: Mem, q: nat, i: int) {
    forall j :: 0 <= j < i && j < 512 ==> !IsValid(Entry(m, q, j))
  }

  // No valid entry is left in the lowest tables at or below n.
  ghost predicate Leafless(m: Mem, use: Uses, root: nat, n: Node) {
    forall q :: q in use && TableOf(use[q], root, n) && use[q].node.Low? ==> EmptyTo(m, q, 512)
  }

  ghost predicate LeaflessTo(m: Mem, use: Uses, root: nat, n: Node, i: int) {
    forall q :: q in use && TableOf(use[q], root, n) && use[q].node.Low? && Beyond(use[q].node, n, i) ==>
        EmptyTo(m, q, 512)
  }

  // What the lowest tables of root map are leaves.
  ghost predicate LowLeaves(m: Mem, use: Uses, root: nat) {
    forall q, j :: q in use && TableOf(use[q], root, Root) && use[q].node.Low? && IsValid(Entry(m, q, j)) ==>
      IsLeaf(Entry(m, q, j))
  }

  // Tables being torn down lie above p.
  ghost predicate OpenAbove(use: Uses, open: set<nat>, p: nat)
    requires IsTable(use, p)
  {
    forall q :: q in open && q in use ==> !TableOf(use[q], use[p].root, use[p].node)
  }

  lemma LeaflessChild(m0: Mem, m: Mem, use0: Uses, use: Uses, ram0: map<nat, seq<Byte>>, ram: map<nat, seq<Byte>>,
                      p: nat, root: nat, n: Node, i: nat)
    requires PagesOk(1, U64 - 1, m0, ram0, use0) && p in use && use[p] == Table(root, n)
    requires !n.Low? && TornTo(use0, use, root, n, i) && Spared(use0, use, m0, m, ram0, ram, p)
    requires LeaflessTo(m0, use0, root, n, i)
    ensures Leafless(m, use, root, n.Child(i)) <==> Leafless(m0, use0, root, n.Child(i))
    ensures Leafless(m0, use0, root, n.Child(i)) ==> LeaflessTo(m0, use0, root, n, i + 1)
    ensures Leafless(m0, use0, root, n) ==> Leafless(m0, use0, root, n.Child(i))
  {
    forall q | q in use0 && TableOf(use0[q], root, n.Child(i)) && use0[q].node.Low?
      ensures EmptyTo(m0, q, 512) <==> EmptyTo(m, q, 512)
    {
      assert use[q] == use0[q] && m[q] == m0[q];
      assert forall j :: 0 <= j < 512 ==> Entry(m0, q, j) == Entry(m, q, j);
    }
    forall q | q in use && TableOf(use[q], root, n.Child(i)) ensures use0[q] == use[q] {
    }
  }

  // What tearing down the subtree below entry i of p leaves in place.
  lemma ChildTorn(m0: Mem, m: Mem, use0: Uses, use: Uses, ram0: map<nat, seq<Byte>>, ram: map<nat, seq<Byte>>,
                  open: set<nat>, p: nat, i: nat)
    requires PagesOk(1, U64 - 1, m0, ram0, use0) && Forest(m0, use0, open)
    requires IsTable(use0, p) && !use0[p].node.Low? && i < 512 && IsValid(Entry(m0, p, i))
    requires OpenAbove(use0, open, p) && ParentOpen(use0, open, p) && LowLeaves(m0, use0, use0[p].root)
    requires Torn(use0, use, use0[p].root, use0[p].node.Child(i))
    requires Spared(use0, use, m0, m, ram0, ram, Pte2Pa(Entry(m0, p, i)))
    ensures IsTable(use, p) && p !in open && use[p] == use0[p] && p in m && m[p] == m0[p]
    ensures p in ram && ram[p] == ram0[p]
    ensures Bare(use, use[p].root, use[p].node.Child(i))
    ensures forall j :: 0 <= j < 512 && j != i ==> PointsDown(m, use, p, j)
    ensures OpenAbove(use, open, p) && ParentOpen(use, open, p)
    ensures |m[p]| == 512 && LowLeaves(SetEntry(m, p, i, 0), use, use[p].root)
    ensures Spared(use0, use, m0, SetEntry(m, p, i, 0), ram0, ram, p)
  {
    hide Pte2Pa;
    assert Closed(m0, use0, p) && PointsDown(m0, use0, p, i);
    forall j | 0 <= j < 512 && j != i ensures PointsDown(m, use, p, j) {
      assert PointsDown(m0, use0, p, j);
    }
    var m' := SetEntry(m, p, i, 0);
    forall q, j | q in use && TableOf(use[q], use[p].root, Root) && use[q].node.Low? && IsValid(Entry(m', q, j))
      ensures IsLeaf(Entry(m', q, j))
    {
      assert use0[q] == use[q] && m'[q] == m0[q];
      assert Entry(m', q, j) == Entry(m0, q, j);
    }
    assert ParentOpen(use, open, p) by {
      forall t, k | IsTable(use, t) && t !in open && 0 <= k < 512 && IsParent(use, t, p)
        ensures use[t].node.Child(k) != use[p].node
      {
        assert IsParent(use0, t, p);
      }
    }
  }

  lemma SparedTrans(use0: Uses, use: Uses, use': Uses, m0: Mem, m: Mem, m': Mem,
                    ram0: map<nat, seq<Byte>>, ram: map<nat, seq<Byte>>, ram': map<nat, seq<Byte>>,
                    p: nat, root: nat, n: Node, i: nat)
    requires TornTo(use0, use, root, n, i) && !n.Low? && Torn(use, use', root, n.Child(i))
    requires Spared(use0, use, m0, m, ram0, ram, p) && Spared(use, use', m, m', ram, ram', p)
    ensures Spared(use0, use', m0, m', ram0, ram', p)
  {
  }

  lemma LeaflessSkip(m0: Mem, use0: Uses, use: Uses, root: nat, n: Node, i: nat)
    requires TornTo(use0, use, root, n, i) && TornTo(use0, use, root, n, i + 1)
    requires LeaflessTo(m0, use0, root, n, i)
    ensures LeaflessTo(m0, use0, root, n, i + 1)
  {
  }

  // After the last entry, the table at n is the only one left of its subtree.
  lemma AllTorn(m0: Mem, m: Mem, use0: Uses, use: Uses, open: set<nat>, p: nat, root: nat, n: Node)
    requires Forest(m, use, open) && IsTable(use, p) && use[p] == Table(root, n)
    requires TornTo(use0, use, root, n, 512) && LeaflessTo(m0, use0, root, n, 512)
    requires n.Low? ==> EmptyTo(m0, p, 512)
    ensures forall q :: IsTable(use, q) && q != p && use[q].root == root ==> !use[q].node.Under(n)
    ensures Torn(use0, use[p := Free], root, n)
    ensures Leafless(m0, use0, root, n)
  {
    forall q | IsTable(use, q) && q != p && use[q].root == root ensures !use[q].node.Under(n) {
      assert Linked(m, use, q);
      if use[q].node == n { OnePlace(m, use, open, p, q); }
    }
    forall q | q in use0 && TableOf(use0[q], root, n) && use[q] != Free ensures q == p {
      assert use[q] == use0[q] && IsTable(use, q);
    }
  }

  lemma TornStart(m: Mem, use: Uses, ram: map<nat, seq<Byte>>, root: nat, n: Node, p: nat)
    ensures TornTo(use, use, root, n, 0) && LeaflessTo(m, use, root, n, 0) && Spared(use, use, m, m, ram, ram, p)
  {
  }

  lemma EntryKind(m: Mem, use: Uses, open: set<nat>, p: nat, i: nat)
    requires Forest(m, use, open) && IsTable(use, p) && OpenAbove(use, open, p) && i < 512
    requires LowLeaves(m, use, use[p].root)
    ensures IsValid(Entry(m, p, i)) ==> (IsLeaf(Entry(m, p, i)) <==> use[p].node.Low?)
  {
    hide Pte2Pa, IsLeaf;
    assert Linked(m, use, p) && Closed(m, use, p);
    if !use[p].node.Low? && IsValid(Entry(m, p, i)) {
      assert PointsDown(m, use, p, i);
      PointerIsNotLeaf(Entry(m, p, i));
    }
  }

  lemma LeafFound(m: Mem, use: Uses, root: nat, n: Node, p: nat, i: nat)
    requires p in use && use[p] == Table(root, n) && n.Low? && i < 512 && IsValid(Entry(m, p, i))
    ensures !Leafless(m, use, root, n)
  {
    assert !EmptyTo(m, p, 512);
  }

  lemma SparedDrop(use0: Uses, use: Uses, m0: Mem, m: Mem, ram0: map<nat, seq<Byte>>, ram: map<nat, seq<Byte>>, p: nat)
    requires Spared(use0, use, m0, m, ram0, ram, p)
    ensures Spared(use0, use[p := Free], m0, m[p := Junk()], ram0, ram[p := Bytes(5)], p)
  {
    hide Junk, Bytes;
  }

  lemma SlotOfPage(m: Mem, use: Uses, root: nat, v: nat) returns (q: nat)
    requires Wf(m, use) && IsRoot(use, root) && v < PAGES && Lookup(m, root, v) != 0
    ensures q in use && TableOf(use[q], root, Root) && use[q].node.Low?
    ensures Lookup(m, root, v) == Entry(m, q, v % 512) && IsValid(Entry(m, q, v % 512))
  {
    AtIsTable(m, use, root, LowOf(v));
    q := At(m, root, LowOf(v)).value;
  }

  lemma PageOfSlot(m: Mem, use: Uses, root: nat, q: nat, k: nat) returns (v: nat)
    requires Wf(m, use) && IsTable(use, q) && use[q].root == root && use[q].node.Low? && IsValid(Entry(m, q, k))
    ensures v < PAGES && k < 512 && Lookup(m, root, v) == Entry(m, q, k) && Lookup(m, root, v) != 0
  {
    hide Pte2Pa;
    assert Linked(m, use, q);
    var n := use[q].node;
    SlotPage(n.i2, n.i1, k);
    v := n.i2 * 262144 + n.i1 * 512 + k;
  }

  // Everything that root maps, seen through its lowest tables and through the flat map.
  ghost predicate NothingMappedBy(m: Mem, root: nat) {
    forall v: nat :: v < PAGES ==> Lookup(m, root, v) == 0
  }

  ghost predicate MapsLeaves(m: Mem, root: nat) {
    forall v: nat :: v < PAGES && Lookup(m, root, v) != 0 ==> IsLeaf(Lookup(m, root, v))
  }

  lemma FlatLeafless(m: Mem, use: Uses, root: nat)
    requires Wf(m, use) && IsRoot(use, root)
    ensures Leafless(m, use, root, Root) <==> NothingMappedBy(m, root)
  {
    hide Lookup, Wf, IsValid;
    if Leafless(m, use, root, Root) {
      forall v: nat | v < PAGES ensures Lookup(m, root, v) == 0 {
        if Lookup(m, root, v) != 0 {
          var q := SlotOfPage(m, use, root, v);
        }
      }
    }
    if NothingMappedBy(m, root) {
      forall q | q in use && TableOf(use[q], root, Root) && use[q].node.Low? ensures EmptyTo(m, q, 512) {
        forall k | 0 <= k < 512 ensures !IsValid(Entry(m, q, k)) {
          if IsValid(Entry(m, q, k)) { var v := PageOfSlot(m, use, root, q, k); }
        }
      }
    }
  }

  lemma FlatLeaves(m: Mem, use: Uses, root: nat)
    requires Wf(m, use) && IsRoot(use, root) && MapsLeaves(m, root)
    ensures LowLeaves(m, use, root)
  {
    hide Lookup, Wf, IsValid, IsLeaf;
    forall q, k | q in use && TableOf(use[q], root, Root) && use[q].node.Low? && IsValid(Entry(m, q, k))
      ensures IsLeaf(Entry(m, q, k))
    {
      var v := PageOfSlot(m, use, root, q, k);
    }
  }

  // The frames and tables that tearing down the address space gives back.
  ghost predicate TornDown(m: Mem, use: Uses, use': Uses, root: nat, n: nat) {
    && use'.Keys == use.Keys
    && forall q :: q in use ==>
         use'[q] == if TableOf(use[q], root, Root) || FrameIn(m, root, 0, n, q) then Free else use[q]
  }

  // Every mapping of root is in [0, n) or one of the two top pages.
  ghost predicate OnlyUserPages(m: Mem, root: nat, n: nat) {
    forall v: nat :: v < PAGES && Lookup(m, root, v) != 0 ==> v < n || v == MAXPAGE - 2 || v == MAXPAGE - 1
  }

  // A cleared range takes the mappings of root away from it and from nowhere else.
  lemma ClearedLeaves(m: Mem, m': Mem, use: Uses, root: nat, lo: nat, hi: nat)
    requires IsRoot(use, root) && MapsLeaves(m, root) && Cleared(m, m', use, root, lo, hi)
    ensures MapsLeaves(m', root)
  {
    hide Lookup, IsLeaf;
  }

  lemma LeavesUnmappable(m: Mem, root: nat, lo: nat, hi: nat)
    requires MapsLeaves(m, root) && (lo < hi ==> hi <= MAXPAGE)
    ensures Unmappable(m, root, lo, hi)
  {
    hide Lookup, IsLeaf, PteFlags;
    forall v: nat | lo <= v < hi ensures PteFlags(Lookup(m, root, v)) != PTE_V {
      if PteFlags(Lookup(m, root, v)) == PTE_V {
        PointerIsNotLeaf(Lookup(m, root, v));
        ZeroIsInvalid();
      }
    }
  }

  lemma ZeroIsInvalid()
    ensures !IsValid(0) && PteFlags(0) != PTE_V
  {
  }

  lemma StillOwnsUser(m: Mem, m': Mem, use: Uses, use': Uses, root: nat, n: nat)
    requires IsRoot(use, root) && n <= MAXPAGE - 2 && OwnsRange(m, use, root, 0, n)
    requires Cleared(m, m', use, root, MAXPAGE - 2, MAXPAGE) && use' == use
    ensures OwnsRange(m', use', root, 0, n)
  {
    hide Lookup, Pte2Pa;
    assert forall v: nat :: v < n ==> Lookup(m', root, v) == Lookup(m, root, v);
  }

  // Frames freed first and tables after.
  lemma TearDownDone(m0: Mem, m2: Mem, use0: Uses, use1: Uses, use2: Uses, root: nat, n: nat)
    requires IsRoot(use0, root) && n <= MAXPAGE - 2 && OwnsRange(m0, use0, root, 0, n)
    requires Cleared(m0, m2, use0, root, MAXPAGE - 2, MAXPAGE)
    requires Freed(m2, use0, use1, root, 0, n, true) && Torn(use1, use2, root, Root)
    ensures TornDown(m0, use0, use2, root, n)
  {
    hide Lookup, Pte2Pa;
    forall q | q in use0 ensures FrameIn(m2, root, 0, n, q) <==> FrameIn(m0, root, 0, n, q) {
      if FrameIn(m2, root, 0, n, q) {
        var v: nat :| v < n && v < PAGES && Lookup(m2, root, v) != 0 && Pte2Pa(Lookup(m2, root, v)) == q;
        assert Lookup(m0, root, v) == Lookup(m2, root, v);
      }
      if FrameIn(m0, root, 0, n, q) {
        var v: nat :| v < n && v < PAGES && Lookup(m0, root, v) != 0 && Pte2Pa(Lookup(m0, root, v)) == q;
        assert Lookup(m0, root, v) == Lookup(m2, root, v);
      }
    }
    assert forall q :: q in use0 && FrameIn(m0, root, 0, n, q) ==> use0[q] == Frame;
  }

  lemma ClearEntry(first: nat, limit: nat, m: Mem, ram: map<nat, seq<Byte>>, use: Uses, p: nat, i: nat)
    requires PagesOk(first, limit, m, ram, use) && p in use && i < 512
    ensures PagesOk(first, limit, SetEntry(m, p, i, 0), ram, use)
  {
  }

  lemma ChildReady(m: Mem, use: Uses, open: set<nat>, p: nat, i: nat)
    requires Forest(m, use, open) && IsTable(use, p) && !use[p].node.Low? && i < 512 && IsValid(Entry(m, p, i))
    requires OpenAbove(use, open, p) && ParentOpen(use, open, p)
    ensures var c := Pte2Pa(Entry(m, p, i));
            && IsTable(use, c) && use[c] == Table(use[p].root, use[p].node.Child(i))
            && Forest(m, use, open + {p})
            && OpenAbove(use, open + {p}, c) && ParentOpen(use, open + {p}, c)
  {
    hide Pte2Pa;
    var c := Pte2Pa(Entry(m, p, i));
    assert Closed(m, use, p) && PointsDown(m, use, p, i);
    forall t, k | IsTable(use, t) && t !in open + {p} && 0 <= k < 512 && IsParent(use, t, c)
      ensures use[t].node.Child(k) != use[c].node
    {
      if use[t].node.Child(k) == use[c].node { OnePlace(m, use, open, p, t); }
    }
  }

  // The page number at which a range of npages pages from va ends.
  function EndPage(va: nat, npages: nat): nat { (va + npages * PGSIZE) % U64 / 4096 }

  // Every page in [lo, hi) is below MAXVA, and what it maps is a leaf.
  ghost predicate Unmappable(m: Mem, root: nat, lo: nat, hi: nat) {
    && (lo < hi ==> hi <= MAXPAGE)
    && forall v: nat :: lo <= v < hi ==> PteFlags(Lookup(m, root, v)) != PTE_V
  }

  lemma AlignedEnd(va: nat, npages: nat)
    requires va % PGSIZE == 0
    ensures va == va / 4096 * PGSIZE
    ensures (va + npages * PGSIZE) % U64 == EndPage(va, npages) * PGSIZE
  {
    var x := va / 4096 + npages;
    assert va + npages * PGSIZE == x * PGSIZE;
    assert x * PGSIZE % U64 == x % 0x10_0000_0000_0000 * PGSIZE;
  }

  lemma RoundUpPage(a: nat)
    ensures PgRoundUp(a) == PgRoundUp(a) / 4096 * PGSIZE < U64
    ensures a < U64 - PGSIZE ==> a <= PgRoundUp(a) < a + PGSIZE
  {
  }

  lemma RoundUpAligned(k: nat)
    ensures k * PGSIZE < U64 ==> PgRoundUp(k * PGSIZE) / 4096 == k
  {
  }

  lemma NothingMapped(m0: Mem, m: Mem, use0: Uses, use: Uses, root: nat, lo: nat)
    requires Outside(m0, m, use0, root, lo, lo) && GrownBy(m, use0, use, root, lo, lo)
    ensures Same(m0, m, use0) && Grown(use0, use, root)
  {
    hide Lookup, Pte2Pa;
  }

  lemma EndOfUser(sz: nat)
    requires sz < U64
    ensures EndPage(0, PgRoundUp(sz) / PGSIZE) == FirstNew(sz)
  {
    RoundUpPage(sz);
    AlignedEnd(0, PgRoundUp(sz) / PGSIZE);
  }

  // One round of userUnmap at page v.
  ghost predicate ClearedOne(m: Mem, m': Mem, use: Uses, use': Uses, root: nat, v: nat, doFree: bool) {
    && Cleared(m, m', use, root, v, v + 1)
    && use' == if doFree && Lookup(m, root, v) != 0 then use[Pte2Pa(Lookup(m, root, v)) := Free] else use
  }

  lemma UnmapStep(m0: Mem, m: Mem, m': Mem, use0: Uses, use: Uses, use': Uses,
                  root: nat, lo: nat, v: nat, doFree: bool)
    requires lo <= v < MAXPAGE && IsRoot(use0, root)
    requires forall r :: IsRoot(use0, r) ==> IsRoot(use, r)
    requires Cleared(m0, m, use0, root, lo, v) && Freed(m0, use0, use, root, lo, v, doFree)
    requires doFree ==> OwnsRange(m0, use0, root, lo, v + 1)
    requires ClearedOne(m, m', use, use', root, v, doFree)
    ensures Cleared(m0, m', use0, root, lo, v + 1) && Freed(m0, use0, use', root, lo, v + 1, doFree)
    ensures forall r :: IsRoot(use0, r) ==> IsRoot(use', r)
  {
    hide Lookup, Pte2Pa, FrameIn, OwnsRange;
    assert Lookup(m, root, v) == Lookup(m0, root, v);
    if doFree {
      OwnedPage(m0, use0, root, lo, v);
      forall p | p in use0
        ensures FrameIn(m0, root, lo, v + 1, p) <==>
                  FrameIn(m0, root, lo, v, p) || (Lookup(m0, root, v) != 0 && Pte2Pa(Lookup(m0, root, v)) == p)
      {
        FrameInNext(m0, root, lo, v, p);
      }
    }
  }

  lemma FrameInNext(m: Mem, root: nat, lo: nat, v: nat, p: nat)
    requires lo <= v < PAGES
    ensures FrameIn(m, root, lo, v + 1, p) <==>
              FrameIn(m, root, lo, v, p) || (Lookup(m, root, v) != 0 && Pte2Pa(Lookup(m, root, v)) == p)
  {
    hide Lookup, Pte2Pa;
  }

  lemma OwnedPage(m: Mem, use: Uses, root: nat, lo: nat, v: nat)
    requires OwnsRange(m, use, root, lo, v + 1) && lo <= v < PAGES
    ensures Lookup(m, root, v) != 0 ==> Pte2Pa(Lookup(m, root, v)) in use && use[Pte2Pa(Lookup(m, root, v))] == Frame
  {
    hide Lookup, Pte2Pa;
  }

  // The next page of a range with frames of its own still has its frame.
  lemma StillOwned(m0: Mem, m: Mem, use0: Uses, use: Uses, root: nat, lo: nat, v: nat, hi: nat)
    requires lo <= v < hi <= MAXPAGE && IsRoot(use0, root)
    requires Cleared(m0, m, use0, root, lo, v) && Freed(m0, use0, use, root, lo, v, true)
    requires OwnsRange(m0, use0, root, lo, hi)
    ensures Lookup(m, root, v) == Lookup(m0, root, v)
    ensures Lookup(m, root, v) != 0 ==>
              Pte2Pa(Lookup(m, root, v)) in use && use[Pte2Pa(Lookup(m, root, v))] == Frame
  {
    hide Lookup, Pte2Pa;
  }

  lemma KeptTrans(use: Uses, use': Uses,
                  ram0: map<nat, seq<Byte>>, ram: map<nat, seq<Byte>>, ram': map<nat, seq<Byte>>)
    requires use'.Keys == use.Keys
    requires forall p :: p in use && use[p] == Free ==> use'[p] == Free
    requires Kept(use, ram0, ram) && Kept(use', ram, ram')
    ensures Kept(use', ram0, ram')
  {
  }

  lemma GrownTrans(use0: Uses, use: Uses, use': Uses, root: nat,
                   ram0: map<nat, seq<Byte>>, ram: map<nat, seq<Byte>>, ram': map<nat, seq<Byte>>)
    requires Grown(use0, use, root) && Grown(use, use', root)
    requires Kept(use0, ram0, ram) && Kept(use, ram, ram')
    ensures Grown(use0, use', root) && Kept(use0, ram0, ram')
  {
  }

  lemma PageNumber(a: nat, k: nat)
    requires a == k * PGSIZE
    ensures a / 4096 == k
    ensures a < MAXVA <==> k < MAXPAGE
  {
  }

  lemma SinglePage(a: nat)
    requires a % PGSIZE == 0 && a < U64
    ensures LastPage(a, PGSIZE) == a / 4096
    ensures a < MAXVA <==> a / 4096 < MAXPAGE
  {
    if a + PGSIZE < U64 {
      assert (a + PGSIZE + U64 - 1) % U64 == a + PGSIZE - 1;
    } else {
      assert a == U64 - PGSIZE;
    }
  }

  lemma RoundDown(a: nat)
    ensures PgRoundDown(a) == a / 4096 * PGSIZE
  {
  }

  type Ram = map<nat, seq<Byte>>

  predicate UserPage(m: Mem, r: nat, v: nat) {
    v < MAXPAGE && IsUser(Lookup(m, r, v))
  }

  // What the user program of address space r sees at address a.
  function UserByte(m: Mem, ram: Ram, r: nat, a: nat): Option<Byte> {
    if UserPage(m, r, a / 4096) then
      var p := Pte2Pa(Lookup(m, r, a / 4096));
      if p in ram && |ram[p]| == PGSIZE then Some(ram[p][a % 4096]) else None
    else None
  }

  // User pages, of all address spaces together, have frames of their own.
  ghost predicate Private(m: Mem, use: Uses) {
    && (forall r, v: nat :: IsRoot(use, r) && UserPage(m, r, v) ==>
          Pte2Pa(Lookup(m, r, v)) in use && use[Pte2Pa(Lookup(m, r, v))] == Frame)
    && (forall r, v: nat, r', v': nat ::
          (IsRoot(use, r) && UserPage(m, r, v) && IsRoot(use, r') && UserPage(m, r', v')
           && Pte2Pa(Lookup(m, r, v)) == Pte2Pa(Lookup(m, r', v'))) ==> r == r' && v == v')
  }

  // memmove of data into page p at offset off.
  function WritePage(ram: Ram, p: nat, off: nat, data: seq<Byte>): Ram
    requires p in ram && |ram[p]| == PGSIZE && off + |data| <= PGSIZE
  {
    var page: seq<Byte> := ram[p][..off] + data + ram[p][off + |data|..];
    ram[p := page]
  }

  // The bytes at [lo, lo + |data|) of root now read as data; every other user byte is as before.
  ghost predicate Written(m: Mem, ram: Ram, ram': Ram, use: Uses, root: nat, lo: nat, data: seq<Byte>) {
    forall r, a: nat :: IsRoot(use, r) ==>
      UserByte(m, ram', r, a) ==
        if r == root && lo <= a < lo + |data| then Some(data[a - lo]) else UserByte(m, ram, r, a)
  }

  // The user bytes of r from address lo on are data.
  ghost predicate Reads(m: Mem, ram: Ram, r: nat, lo: nat, data: seq<Byte>) {
    forall j :: 0 <= j < |data| ==> UserByte(m, ram, r, lo + j) == Some(data[j])
  }

  lemma ReadsMore(m: Mem, ram: Ram, r: nat, lo: nat, d: seq<Byte>, e: seq<Byte>)
    requires Reads(m, ram, r, lo, d) && Reads(m, ram, r, lo + |d|, e)
    ensures Reads(m, ram, r, lo, d + e)
  {
    hide UserByte;
    forall j | 0 <= j < |d + e| ensures UserByte(m, ram, r, lo + j) == Some((d + e)[j]) {
      if j >= |d| { assert lo + j == lo + |d| + (j - |d|); }
    }
  }

  lemma PageRead(m: Mem, ram: Ram, r: nat, va: nat, n: nat)
    requires UserPage(m, r, va / 4096) && va % 4096 + n <= PGSIZE
    requires var p := Pte2Pa(Lookup(m, r, va / 4096)); p in ram && |ram[p]| == PGSIZE
    ensures Reads(m, ram, r, va, ram[Pte2Pa(Lookup(m, r, va / 4096))][va % 4096..va % 4096 + n])
  {
    hide Lookup, Pte2Pa, IsUser;
    var data := ram[Pte2Pa(Lookup(m, r, va / 4096))][va % 4096..va % 4096 + n];
    forall j | 0 <= j < |data| ensures UserByte(m, ram, r, va + j) == Some(data[j]) {
      InPage(va, n, va + j);
    }
  }

  lemma InPage(va: nat, n: nat, a: nat)
    requires va % 4096 + n <= 4096
    ensures va <= a < va + n <==> a / 4096 == va / 4096 && va % 4096 <= a % 4096 < va % 4096 + n
    ensures va <= a < va + n ==> a - va == a % 4096 - va % 4096
  {
  }

  lemma PageWritten(m: Mem, ram: Ram, use: Uses, root: nat, va: nat, data: seq<Byte>)
    requires Private(m, use) && IsRoot(use, root) && UserPage(m, root, va / 4096)
    requires va % 4096 + |data| <= PGSIZE
    requires forall p :: p in use ==> p in ram && |ram[p]| == PGSIZE
    ensures Pte2Pa(Lookup(m, root, va / 4096)) in use
    ensures Written(m, ram, WritePage(ram, Pte2Pa(Lookup(m, root, va / 4096)), va % 4096, data), use, root, va, data)
  {
    hide Lookup, Pte2Pa, IsUser;
    var p := Pte2Pa(Lookup(m, root, va / 4096));
    var ram' := WritePage(ram, p, va % 4096, data);
    forall r, a: nat | IsRoot(use, r)
      ensures UserByte(m, ram', r, a) ==
                if r == root && va <= a < va + |data| then Some(data[a - va]) else UserByte(m, ram, r, a)
    {
      InPage(va, |data|, a);
    }
  }

  // A user page's frame is a page of the pool, so it is not page 0.
  lemma PaIsFrame(m: Mem, use: Uses, root: nat, v: nat, first: nat, limit: nat, ram: Ram)
    requires Private(m, use) && IsRoot(use, root) && PagesOk(first, limit, m, ram, use)
    ensures UserPage(m, root, v) ==>
              var p := Pte2Pa(Lookup(m, root, v)); p > 0 && p in use && p in ram && |ram[p]| == PGSIZE
  {
  }

  lemma WrittenTrans(m: Mem, ram0: Ram, ram: Ram, ram': Ram, use: Uses, root: nat, lo: nat, d: seq<Byte>, e: seq<Byte>)
    requires Written(m, ram0, ram, use, root, lo, d) && Written(m, ram, ram', use, root, lo + |d|, e)
    ensures Written(m, ram0, ram', use, root, lo, d + e)
  {
    hide UserByte;
  }

  // Page v of the child, after the copy: mapped if the parent's is, with the same
  // flags, to a fresh frame holding the same bytes.
  ghost predicate CopiedPage(m0: Mem, m: Mem, use0: Uses, use: Uses, ram0: Ram, ram: Ram,
                             parent: nat, child: nat, v: nat) {
    var e, e' := Lookup(m0, parent, v), Lookup(m, child, v);
    if e == 0 then e' == Lookup(m0, child, v)
    else
      && e' != 0 && PteFlags(e') == PteFlags(e)
      && Pte2Pa(e') in use0 && use0[Pte2Pa(e')] == Free
      && Pte2Pa(e') in use && use[Pte2Pa(e')] == Frame
      && Pte2Pa(e) in ram0 && Pte2Pa(e') in ram && ram[Pte2Pa(e')] == ram0[Pte2Pa(e)]
  }

  ghost predicate Copied(m0: Mem, m: Mem, use0: Uses, use: Uses, ram0: Ram, ram: Ram,
                         parent: nat, child: nat, k: nat) {
    && (forall v: nat :: v < k ==> CopiedPage(m0, m, use0, use, ram0, ram, parent, child, v))
    && (forall v: nat, w: nat :: v < w < k && Lookup(m0, parent, v) != 0 && Lookup(m0, parent, w) != 0 ==>
          Pte2Pa(Lookup(m, child, v)) != Pte2Pa(Lookup(m, child, w)))
  }

  // The parent's pages below k have frames in use.
  ghost predicate HasFrames(m: Mem, use: Uses, r: nat, k: nat) {
    forall v: nat :: v < k && Lookup(m, r, v) != 0 ==>
      Pte2Pa(Lookup(m, r, v)) in use && use[Pte2Pa(Lookup(m, r, v))] == Frame
  }

  // One copied page: the child's page v went from unmapped to a fresh frame p with the bytes of page src.
  ghost predicate CopiedOne(m: Mem, m': Mem, use: Uses, use': Uses, ram: Ram, ram': Ram,
                            child: nat, v: nat, p: nat, flags: nat, src: nat)
    requires flags < 1024
  {
    && MappedOne(m, m', use, child, v, MakePte(p, flags))
    && p % PGSIZE == 0 && p < U64
    && p in use && use[p] == Free && p in use' && use'[p] == Frame
    && src in ram && p in ram' && ram'[p] == ram[src]
    && use'.Keys == use.Keys
    && (forall q :: q in use && q != p && use'[q] != use[q] ==> use[q] == Free && TakenAsTable(use'[q], child))
    && Kept(use, ram, ram')
  }

  lemma OddFlags(e: nat)
    requires IsValid(e)
    ensures PteFlags(e) % 2 == 1 && PteFlags(e) < 1024
  {
    Split1024(e / 1024, e % 1024);
  }

  function PagesOf(sz: int): nat { if sz <= 0 then 0 else (sz + PGSIZE - 1) / PGSIZE }

  lemma CopyFrameDone(m0: Mem, m: Mem, m': Mem, use0: Uses, use': Uses, ram0: Ram, ram: Ram, ram': Ram,
                      child: nat, v: nat, p: nat, flags: nat, src: nat)
    requires flags < 1024 && IsRoot(use0, child) && v < MAXPAGE && p in use0 && use0[p] == Free
    requires p % PGSIZE == 0 && p < U64 && src in ram0 && src in use0 && use0[src] == Frame
    requires ram == ram0[p := ram0[src]]
    requires Same(m0, m, use0) && MappedOne(m, m', use0[p := Frame], child, v, MakePte(p, flags))
    requires Grown(use0[p := Frame], use', child) && Kept(use0[p := Frame], ram, ram')
    ensures CopiedOne(m0, m', use0, use', ram0, ram', child, v, p, flags, src)
  {
    hide Lookup, MakePte;
    assert use0[p := Frame].Keys == use0.Keys;
  }

  lemma CopySkip(m0: Mem, m: Mem, use0: Uses, use: Uses, ram0: Ram, ram: Ram, parent: nat, child: nat, k: nat)
    requires k < MAXPAGE && IsRoot(use0, child) && Lookup(m0, parent, k) == 0
    requires Outside(m0, m, use0, child, 0, k) && GrownBy(m, use0, use, child, 0, k)
    requires Copied(m0, m, use0, use, ram0, ram, parent, child, k)
    ensures Outside(m0, m, use0, child, 0, k + 1) && GrownBy(m, use0, use, child, 0, k + 1)
    ensures Copied(m0, m, use0, use, ram0, ram, parent, child, k + 1)
  {
    hide Lookup, Pte2Pa, PteFlags;
    assert Lookup(m, child, k) == Lookup(m0, child, k);
    assert forall q :: FrameIn(m, child, 0, k, q) ==> FrameIn(m, child, 0, k + 1, q);
  }

  // The frame of the page copied last is the only new frame.
  lemma CopyGrows(m: Mem, m': Mem, use0: Uses, use: Uses, use': Uses, child: nat, k: nat, p: nat)
    requires k < MAXPAGE && GrownBy(m, use0, use, child, 0, k) && use'.Keys == use.Keys
    requires forall w: nat :: w < k ==> Lookup(m', child, w) == Lookup(m, child, w)
    requires Lookup(m', child, k) != 0 && Pte2Pa(Lookup(m', child, k)) == p
    requires p in use && use[p] == Free && use'[p] == Frame
    requires forall q :: q in use && q != p && use'[q] != use[q] ==> use[q] == Free && TakenAsTable(use'[q], child)
    ensures GrownBy(m', use0, use', child, 0, k + 1)
  {
    hide Lookup, Pte2Pa;
    assert FrameIn(m', child, 0, k + 1, p);
    forall q | FrameIn(m, child, 0, k, q) ensures FrameIn(m', child, 0, k + 1, q) {
      var w: nat :| w < k && w < PAGES && Lookup(m, child, w) != 0 && Pte2Pa(Lookup(m, child, w)) == q;
      assert Lookup(m', child, w) == Lookup(m, child, w);
    }
  }

  lemma CopyStep(m0: Mem, m: Mem, m': Mem, use0: Uses, use: Uses, use': Uses, ram0: Ram, ram: Ram, ram': Ram,
                 parent: nat, child: nat, k: nat, p: nat, flags: nat)
    requires k < MAXPAGE && IsRoot(use0, child) && IsRoot(use0, parent) && HasFrames(m0, use0, parent, k + 1)
    requires forall q :: q in use0 ==> q in ram0
    requires forall r :: IsRoot(use0, r) ==> IsRoot(use, r)
    requires Outside(m0, m, use0, child, 0, k) && GrownBy(m, use0, use, child, 0, k) && Kept(use0, ram0, ram)
    requires Copied(m0, m, use0, use, ram0, ram, parent, child, k)
    requires Lookup(m0, parent, k) != 0 && PteFlags(Lookup(m0, parent, k)) == flags < 1024 && flags % 2 == 1
    requires CopiedOne(m, m', use, use', ram, ram', child, k, p, flags, Pte2Pa(Lookup(m0, parent, k)))
    ensures Outside(m0, m', use0, child, 0, k + 1) && GrownBy(m', use0, use', child, 0, k + 1) && Kept(use0, ram0, ram')
    ensures Copied(m0, m', use0, use', ram0, ram', parent, child, k + 1)
    ensures forall r :: IsRoot(use0, r) ==> IsRoot(use', r)
  {
    hide Lookup, MakePte, Pte2Pa, PteFlags, FrameIn, PgRoundDown;
    MakePteParts(p, flags);
    PageRoundsToItself(p);
    var e := MakePte(p, flags);
    assert Lookup(m', child, k) == e && e != 0 && Pte2Pa(e) == p && PteFlags(e) == flags;
    assert forall w: nat :: w < k ==> Lookup(m', child, w) == Lookup(m, child, w);
    CopyGrows(m, m', use0, use, use', child, k, p);
    forall v: nat | v < k + 1 ensures CopiedPage(m0, m', use0, use', ram0, ram', parent, child, v) {
      if v < k { assert CopiedPage(m0, m, use0, use, ram0, ram, parent, child, v); }
    }
    forall v: nat | v < k && Lookup(m0, parent, v) != 0 ensures Pte2Pa(Lookup(m', child, v)) != p {
      assert CopiedPage(m0, m, use0, use, ram0, ram, parent, child, v);
    }
  }

  // Facts about an entry that only its flag bits decide.
  lemma SameFlagsSameUser(e: nat, e': nat)
    requires PteFlags(e) == PteFlags(e')
    ensures IsUser(e) <==> IsUser(e')
  {
    Split16(e / 1024, e % 1024);
    Split16(e' / 1024, e' % 1024);
  }

  ghost predicate Forked(m0: Mem, m: Mem, use0: Uses, use: Uses, ram0: Ram, ram: Ram, parent: nat, child: nat, k: nat) {
    && IsRoot(use0, parent) && IsRoot(use0, child) && k <= MAXPAGE
    && (forall r :: IsRoot(use, r) ==> IsRoot(use0, r))
    && (forall p :: p in use0 ==> p in ram0 && |ram0[p]| == PGSIZE)
    && Copied(m0, m, use0, use, ram0, ram, parent, child, k)
    && Outside(m0, m, use0, child, 0, k) && GrownBy(m, use0, use, child, 0, k) && Kept(use0, ram0, ram)
  }

  // After the copy, user frames are still private to one page of one address space.
  lemma ForkPrivate(m0: Mem, m: Mem, use0: Uses, use: Uses, ram0: Ram, ram: Ram, parent: nat, child: nat, k: nat)
    requires Private(m0, use0) && Forked(m0, m, use0, use, ram0, ram, parent, child, k)
    ensures Private(m, use)
  {
    hide Lookup, Pte2Pa, PteFlags, IsUser, FrameIn, GrownBy, Outside, Kept, CopiedPage, UserPage;
    forall r, v: nat | IsRoot(use, r) && UserPage(m, r, v)
      ensures FrameOrigin(m0, m, use0, use, parent, child, k, r, v)
    {
      OriginOf(m0, m, use0, use, ram0, ram, parent, child, k, r, v);
    }
    forall r, v: nat, r', v': nat |
      IsRoot(use, r) && UserPage(m, r, v) && IsRoot(use, r') && UserPage(m, r', v')
      && Pte2Pa(Lookup(m, r, v)) == Pte2Pa(Lookup(m, r', v'))
      ensures r == r' && v == v'
    {
      assert FrameOrigin(m0, m, use0, use, parent, child, k, r, v);
      assert FrameOrigin(m0, m, use0, use, parent, child, k, r', v');
    }
  }

  // The child reads what the parent read, and every other address space what it read before.
  lemma ForkReads(m0: Mem, m: Mem, use0: Uses, use: Uses, ram0: Ram, ram: Ram, parent: nat, child: nat, k: nat)
    requires Private(m0, use0) && Forked(m0, m, use0, use, ram0, ram, parent, child, k)
    ensures forall a: nat :: a / 4096 < k && Lookup(m0, parent, a / 4096) != 0 ==>
              UserByte(m, ram, child, a) == UserByte(m0, ram0, parent, a)
    ensures forall r, a: nat :: IsRoot(use0, r) && !(r == child && a / 4096 < k) ==>
              UserByte(m, ram, r, a) == UserByte(m0, ram0, r, a)
  {
    hide Lookup, Pte2Pa, PteFlags, IsUser, FrameIn, GrownBy;
    forall a: nat | a / 4096 < k && Lookup(m0, parent, a / 4096) != 0
      ensures UserByte(m, ram, child, a) == UserByte(m0, ram0, parent, a)
    {
      assert CopiedPage(m0, m, use0, use, ram0, ram, parent, child, a / 4096);
      SameFlagsSameUser(Lookup(m0, parent, a / 4096), Lookup(m, child, a / 4096));
    }
  }

  // Where the frame of a user page comes from: it was that page's before, or it is
  // the fresh copy of the parent's page.
  ghost predicate FrameOrigin(m0: Mem, m: Mem, use0: Uses, use: Uses, parent: nat, child: nat, k: nat, r: nat, v: nat) {
    var p := Pte2Pa(Lookup(m, r, v));
    && p in use && use[p] == Frame && p in use0
    && if r == child && v < k && Lookup(m0, parent, v) != 0 then use0[p] == Free
       else UserPage(m0, r, v) && Lookup(m, r, v) == Lookup(m0, r, v) && use0[p] == Frame
  }

  lemma OriginOf(m0: Mem, m: Mem, use0: Uses, use: Uses, ram0: Ram, ram: Ram,
                 parent: nat, child: nat, k: nat, r: nat, v: nat)
    requires Private(m0, use0) && IsRoot(use0, child) && k <= MAXPAGE && IsRoot(use0, r) && UserPage(m, r, v)
    requires Copied(m0, m, use0, use, ram0, ram, parent, child, k)
    requires Outside(m0, m, use0, child, 0, k) && GrownBy(m, use0, use, child, 0, k)
    ensures FrameOrigin(m0, m, use0, use, parent, child, k, r, v)
  {
    hide Lookup, Pte2Pa, PteFlags, IsUser, FrameIn;
    if r == child && v < k {
      assert CopiedPage(m0, m, use0, use, ram0, ram, parent, child, v);
    }
  }

  /** Reading back what was written, at any address and of any length, gives it back. */
  lemma ReadBack(m: Mem, ram: Ram, ram': Ram, use: Uses, root: nat, lo: nat, data: seq<Byte>, got: seq<Byte>)
    requires IsRoot(use, root) && Written(m, ram, ram', use, root, lo, data)
    requires Reads(m, ram', root, lo, got) && |got| == |data|
    ensures got == data
  {
    hide UserByte;
    forall j | 0 <= j < |data| ensures got[j] == data[j] {
      assert UserByte(m, ram', root, lo + j) == Some(data[j]);
    }
  }

  // Why page v of the parent cannot be copied: its table is missing, or the child has the page.
  predicate NotCopyable(m: Mem, parent: nat, child: nat, v: nat) {
    At(m, parent, LowOf(v)) == None || (Lookup(m, parent, v) != 0 && Lookup(m, child, v) != 0)
  }

  // A table once there stays while tables are only added.
  lemma TableStays(m0: Mem, m: Mem, use0: Uses, use: Uses, r: nat, n: Node)
    requires Wf(m0, use0) && Wf(m, use) && IsRoot(use0, r) && n.InRange() && At(m0, r, n).Some?
    requires use.Keys == use0.Keys && forall p :: p in use0 && use0[p] != Free ==> use[p] == use0[p]
    ensures At(m, r, n).Some?
  {
    AtIsTable(m0, use0, r, n);
    assert Linked(m, use, At(m0, r, n).value);
  }

  lemma NeverCopyable(m0: Mem, m: Mem, use0: Uses, use: Uses, parent: nat, child: nat, k: nat)
    requires NotCopyable(m, parent, child, k) && k < MAXPAGE && Wf(m0, use0) && Wf(m, use)
    requires IsRoot(use0, parent) && IsRoot(use0, child)
    requires Outside(m0, m, use0, child, 0, k) && GrownBy(m, use0, use, child, 0, k)
    ensures NotCopyable(m0, parent, child, k)
  {
    hide Lookup, FrameIn, Wf, At;
    if At(m0, parent, LowOf(k)).Some? { TableStays(m0, m, use0, use, parent, LowOf(k)); }
  }

  // The entry of page v in its lowest table is what the flat map says.
  lemma SlotEntry(m: Mem, use: Uses, root: nat, v: nat, p: nat)
    requires Wf(m, use) && p in use && use[p] == Table(root, LowOf(v)) && At(m, root, LowOf(v)) == Some(p)
    ensures p in m && |m[p]| == 512
    ensures Lookup(m, root, v) == if IsValid(m[p][v % 512]) then m[p][v % 512] else 0
  {
    assert Linked(m, use, p);
  }

  lemma NothingInRange(m: Mem, use: Uses, ram: Ram, root: nat, lo: nat, hi: nat)
    requires hi <= lo
    ensures Cleared(m, m, use, root, lo, hi) && Freed(m, use, use, root, lo, hi, true)
    ensures Kept(use, ram, ram) && Unmappable(m, root, lo, hi)
  {
    hide Lookup;
  }

  lemma WroteNothing(m: Mem, ram: Ram, use: Uses, root: nat, lo: nat)
    ensures Written(m, ram, ram, use, root, lo, [])
  {
    hide UserByte;
  }

  lemma BeyondWritten(m: Mem, ram: Ram, ram': Ram, use: Uses, root: nat, lo: nat, data: seq<Byte>, a: nat)
    requires IsRoot(use, root) && Written(m, ram, ram', use, root, lo, data) && a >= lo + |data|
    ensures UserByte(m, ram', root, a) == UserByte(m, ram, root, a)
  {
    hide UserByte;
  }

  lemma Unchanged(m: Mem, use: Uses, ram: Ram, root: nat)
    ensures Same(m, m, use) && Grown(use, use, root) && Kept(use, ram, ram)
  {
    hide Lookup;
  }

  // A page of the pool keeps its place when it is overwritten and put to another use.
  lemma Rewritten(first: nat, limit: nat, m: Mem, ram: Ram, use: Uses, q: nat, b: Byte, u: Use)
    requires PagesOk(first, limit, m, ram, use) && q in use
    ensures PagesOk(first, limit, m[q := ZeroPage()], ram[q := Bytes(b)], use[q := u])
    ensures PagesOk(first, limit, m[q := Junk()], ram[q := Bytes(b)], use[q := u])
  {
  }

  // The first free page becomes a data page, filled with junk.
  lemma TookPage(first: nat, limit: nat, freeList: seq<nat>, m: Mem, ram: Ram, use: Uses)
    requires PagesOk(first, limit, m, ram, use) && FreeOk(freeList, use) && Wf(m, use) && freeList != []
    ensures var p := freeList[0];
            && p in use && use[p] == Free && p > 0
            && PagesOk(first, limit, m[p := Junk()], ram[p := Bytes(5)], use[p := Frame])
            && FreeOk(freeList[1..], use[p := Frame]) && Wf(m[p := Junk()], use[p := Frame])
            && Same(m, m[p := Junk()], use)
  {
    hide Wf, Lookup, Bytes, Junk, FreeOk;
    var p := freeList[0];
    Pop(freeList, use, Frame);
    Rewritten(first, limit, m, ram, use, p, 5, Frame);
    OtherPages(m, m[p := Junk()], use, use[p := Frame]);
  }

  // A data page goes back to the pool.
  lemma GavePage(first: nat, limit: nat, freeList: seq<nat>, m: Mem, ram: Ram, use: Uses, p: nat)
    requires PagesOk(first, limit, m, ram, use) && FreeOk(freeList, use) && Wf(m, use) && p in use && use[p] == Frame
    ensures PagesOk(first, limit, m[p := Junk()], ram[p := Bytes(5)], use[p := Free])
    ensures FreeOk([p] + freeList, use[p := Free]) && Wf(m[p := Junk()], use[p := Free])
    ensures Same(m, m[p := Junk()], use)
  {
    hide Wf, Lookup, Bytes, Junk, FreeOk;
    Push(freeList, use, p);
    Rewritten(first, limit, m, ram, use, p, 5, Free);
    OtherPages(m, m[p := Junk()], use, use[p := Free]);
  }

  lemma SameThenSame(m: Mem, m1: Mem, m': Mem, use: Uses, q: nat)
    requires Same(m, m1, use) && q in use && use[q] == Free && Same(m1, m', use[q := Frame])
    ensures Same(m, m', use)
  {
    hide Lookup;
  }

  // Bytes of pages in use do not depend on a page that was free.
  lemma KeptBut(use: Uses, ram: Ram, q: nat, a: seq<Byte>, b: seq<Byte>)
    requires q in use && use[q] == Free
    ensures Kept(use, ram, ram[q := a][q := b])
  {
  }

  lemma Grafted(first: nat, limit: nat, freeList: seq<nat>, m: Mem, m1: Mem, use: Uses, ram: Ram, p: nat, i: nat,
                q: nat)
    requires PagesOk(first, limit, m1, ram[q := Bytes(5)], use[q := Frame]) && FreeOk(freeList, use[q := Frame])
    requires Wf(m1, use[q := Frame]) && q in use && use[q] == Free && m1 == m[q := Junk()] && Same(m, m1, use)
    requires IsTable(use, p) && !use[p].node.Low? && i < 512 && !IsValid(Entry(m, p, i))
    ensures p in m1 && |m1[p]| == 512
    ensures var m' := SetEntry(m1[q := ZeroPage()], p, i, MakePte(q, 0));
            var use' := use[q := Frame][q := Table(use[p].root, use[p].node.Child(i))];
            var ram' := ram[q := Bytes(5)][q := Bytes(0)];
            && PagesOk(first, limit, m', ram', use') && FreeOk(freeList, use') && Wf(m', use')
            && Same(m, m', use) && Grown(use, use', use[p].root) && Kept(use, ram, ram')
  {
    hide Wf, Lookup, MakePte, At, Bytes, Junk, FreeOk, PagesOk, Same, Kept;
    var use1, u := use[q := Frame], Table(use[p].root, use[p].node.Child(i));
    PagePlace(first, limit, m1, ram[q := Bytes(5)], use1, q);
    assert Entry(m1, p, i) == Entry(m, p, i);
    Graft(m1, use1, p, i, q);
    var m2 := m1[q := ZeroPage()];
    Rewritten(first, limit, m1, ram[q := Bytes(5)], use1, q, 0, u);
    EntrySet(first, limit, m2, ram[q := Bytes(5)][q := Bytes(0)], use1[q := u], p, i, MakePte(q, 0));
    Retype(freeList, use1, q, u);
    KeptBut(use, ram, q, Bytes(5), Bytes(0));
    var m' := SetEntry(m2, p, i, MakePte(q, 0));
    assert Same(m1, m', use1) by { SameOf(m1, m', use1); }
    SameThenSame(m, m1, m', use, q);
  }

  lemma SameOf(m: Mem, m': Mem, use: Uses)
    requires forall r, v :: IsRoot(use, r) && v < 0x800_0000 ==> Lookup(m', r, v) == Lookup(m, r, v)
    ensures Same(m, m', use)
  {
    hide Lookup;
  }

  lemma PagePlace(first: nat, limit: nat, m: Mem, ram: Ram, use: Uses, q: nat)
    requires PagesOk(first, limit, m, ram, use) && q in use
    ensures q % PGSIZE == 0 && 0 < q < U64 && q in m && |m[q]| == 512 && q in ram && |ram[q]| == PGSIZE
  {
  }

  lemma EntrySet(first: nat, limit: nat, m: Mem, ram: Ram, use: Uses, p: nat, i: nat, e: nat)
    requires PagesOk(first, limit, m, ram, use) && p in use && i < 512
    ensures p in m && |m[p]| == 512 && PagesOk(first, limit, SetEntry(m, p, i, e), ram, use)
  {
  }

  lemma Rooted(first: nat, limit: nat, freeList: seq<nat>, m: Mem, m1: Mem, use: Uses, ram: Ram, q: nat)
    requires PagesOk(first, limit, m1, ram[q := Bytes(5)], use[q := Frame]) && FreeOk(freeList, use[q := Frame])
    requires Wf(m1, use[q := Frame]) && q in use && use[q] == Free && Same(m, m1, use)
    ensures var m' := m1[q := ZeroPage()];
            var use' := use[q := Frame][q := Table(q, Root)];
            var ram' := ram[q := Bytes(5)][q := Bytes(0)];
            && PagesOk(first, limit, m', ram', use') && FreeOk(freeList, use') && Wf(m', use')
            && Same(m, m', use) && Kept(use, ram, ram') && NothingMappedBy(m', q)
  {
    hide Wf, Lookup, Bytes, FreeOk, PagesOk, Same, Kept, ZeroPage, NothingMappedBy;
    var use1 := use[q := Frame];
    NewRoot(m1, use1, q);
    Rewritten(first, limit, m1, ram[q := Bytes(5)], use1, q, 0, Table(q, Root));
    Retype(freeList, use1, q, Table(q, Root));
    KeptBut(use, ram, q, Bytes(5), Bytes(0));
    SameThenSame(m, m1, m1[q := ZeroPage()], use, q);
  }
}
