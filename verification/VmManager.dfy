/** The virtual memory manager of kernel/memory/VmManager.cpp over the page pool
    of kernel/memory/MemAllocator.cpp. */
module VmManager {
  import opened Common
  import opened Riscv
  import opened PageTable
  import opened VmSpec
  import opened VmRuns

  class Vm {
    const first: nat
    const limit: nat
    var freeList: seq<nat>
    var npage: int
    // The two views of every page of the pool. A page is read as entries while it
    // is a table and as bytes while it is a frame; memset writes both.
    var tab: Mem
    var ram: map<nat, seq<Byte>>
    ghost var use: Uses

    ghost predicate Pool()
      reads this
    {
      && PagesOk(first, limit, tab, ram, use)
      && FreeOk(freeList, use)
      && npage == |freeList|
    }

    ghost predicate Valid()
      reads this
    {
      Pool() && Wf(tab, use)
    }

    // The state as the runs of VmRuns see it.
    ghost function Now(): Snap
      reads this
    {
      Snap(tab, use, ram)
    }

    // init and freeRange: every whole page of [end, phystop) goes to the pool.
    constructor (end: nat, phystop: nat)
      requires 0 < end && end + PGSIZE < U64 && phystop < U64
      ensures Valid() && forall p :: p in use ==> use[p] == Free
      ensures Covers(use, end, phystop) && Spaces(tab, use)
    {
      hide FreeOk, PagesOk, Wf, Bytes, Junk, Spaces;
      first, limit := end, phystop;
      freeList, npage, tab, ram, use := [], 0, map[], map[], map[];
      new;
      var p := PgRoundUp(end);
      RoundUpPage(end);
      EmptyPool(end, phystop);
      NoPageBetween(end, p);
      while p + PGSIZE <= phystop
        invariant p % PGSIZE == 0 && PgRoundUp(end) <= p && first == end && limit == phystop
        invariant Valid() && forall q :: q in use ==> use[q] == Free
        invariant Covers(use, end, p)
        invariant p == PgRoundUp(end) || p <= phystop
      {
        AddPage(first, limit, freeList, tab, ram, use, p);
        tab := tab[p := Junk()];
        ram := ram[p := Bytes(5)];
        freeList := [p] + freeList;
        npage := npage + 1;
        use := use[p := Free];
        p := p + PGSIZE;
      }
      CoversUpTo(use, end, p, phystop);
      SpacesAtStart(tab, use);
    }

    method AllocPage() returns (pa: nat)
      requires Valid()
      modifies this
      ensures Valid()
      ensures old(freeList) == [] ==>
                pa == 0 && tab == old(tab) && ram == old(ram) && use == old(use) && freeList == old(freeList)
      ensures old(freeList) != [] ==>
                && pa == old(freeList)[0] && pa in old(use) && old(use)[pa] == Free
                && use == old(use)[pa := Frame] && freeList == old(freeList)[1..]
                && tab == old(tab)[pa := Junk()] && ram == old(ram)[pa := Bytes(5)]
      ensures pa != 0 <==> old(freeList) != []
      ensures Same(old(tab), tab, old(use))
      ensures pa != 0 ==> Step(old(Now()), TakeFrame(pa), Now())
    {
      hide FreeOk, PagesOk, Wf, Bytes, Junk, Lookup, Same, Step;
      if freeList == [] {
        Unchanged(tab, use, ram, 0);
        return 0;
      }
      TookPage(first, limit, freeList, tab, ram, use);
      pa := freeList[0];
      freeList := freeList[1..];
      npage := npage - 1;
      tab := tab[pa := Junk()];
      ram := ram[pa := Bytes(5)];
      use := use[pa := Frame];
      TakeIsStep(old(Now()), Now(), first, limit, pa);
    }

    // memset(pa, 0, PGSIZE) on a data page.
    method ZeroFrame(pa: nat)
      requires Valid() && pa in use && use[pa] == Frame
      modifies this`tab, this`ram
      ensures Valid()
      ensures tab == old(tab)[pa := ZeroPage()] && ram == old(ram)[pa := Bytes(0)]
      ensures Same(old(tab), tab, use)
    {
      tab := tab[pa := ZeroPage()];
      ram := ram[pa := Bytes(0)];
      OtherPages(old(tab), tab, use, use);
    }

    // alloc followed by memset(mem, 0, PGSIZE).
    method NewFrame() returns (pa: nat)
      requires Valid()
      modifies this
      ensures Valid() && Same(old(tab), tab, old(use))
      ensures pa == 0 ==> use == old(use) && ram == old(ram) && freeList == [] == old(freeList)
      ensures pa != 0 ==> |freeList| == |old(freeList)| - 1
      ensures pa != 0 ==>
                && pa in old(use) && old(use)[pa] == Free && pa % PGSIZE == 0 && pa < U64
                && use == old(use)[pa := Frame] && ram == old(ram)[pa := Bytes(0)]
                && Step(old(Now()), TakeFrame(pa), Now())
    {
      hide Wf, Lookup, FreeOk, PagesOk, Step, Same, Bytes, Junk;
      pa := AllocPage();
      if pa != 0 {
        ghost var tab1 := tab;
        PagePlace(first, limit, tab, ram, use, pa);
        ZeroFrame(pa);
        SameThenSame(old(tab), tab1, tab, old(use), pa);
        TakeIsStep(old(Now()), Now(), first, limit, pa);
      }
    }

    method FreePage(pa: nat)
      requires Valid() && pa in use && use[pa] == Frame
      modifies this
      ensures Valid()
      ensures freeList == [pa] + old(freeList) && use == old(use)[pa := Free]
      ensures tab == old(tab)[pa := Junk()] && ram == old(ram)[pa := Bytes(5)]
      ensures Same(old(tab), tab, old(use))
      ensures NobodyMaps(old(tab), old(use), pa) ==> Step(old(Now()), GiveFrame(pa), Now())
    {
      hide FreeOk, PagesOk, Wf, Bytes, Junk, Lookup, Same, Step, NobodyMaps;
      GavePage(first, limit, freeList, tab, ram, use, pa);
      tab := tab[pa := Junk()];
      ram := ram[pa := Bytes(5)];
      freeList := [pa] + freeList;
      npage := npage + 1;
      use := use[pa := Free];
      GiveIsStep(old(Now()), Now(), first, limit, pa);
    }

    // free as the kernel calls it, with its check of the address.
    method Kfree(pa: nat) returns (ok: bool)
      requires Valid() && (pa % PGSIZE == 0 && first <= pa < limit ==> pa in use && use[pa] == Frame)
      modifies this
      ensures Valid() && (ok <==> pa % PGSIZE == 0 && first <= pa < limit)
      ensures !ok ==> tab == old(tab) && ram == old(ram) && use == old(use) && freeList == old(freeList)
      ensures ok ==>
                && freeList == [pa] + old(freeList) && use == old(use)[pa := Free]
                && Same(old(tab), tab, old(use)) && ram == old(ram)[pa := Bytes(5)]
                && (NobodyMaps(old(tab), old(use), pa) ==> Step(old(Now()), GiveFrame(pa), Now()))
    {
      hide FreeOk, PagesOk, Wf, Bytes, Junk, Lookup, Same, Step, NobodyMaps;
      if pa % PGSIZE != 0 || pa < first || pa >= limit { return false; }
      FreePage(pa);
      return true;
    }

    // The allocating branch of walk: hang an empty table below entry i of p.
    method NewTable(p: nat, i: nat) returns (q: nat)
      requires Valid() && IsTable(use, p) && !use[p].node.Low? && i < 512
      requires !IsValid(Entry(tab, p, i))
      modifies this
      ensures Valid()
      ensures Same(old(tab), tab, old(use)) && Grown(old(use), use, old(use)[p].root)
      ensures Kept(old(use), old(ram), ram)
      ensures q == 0 ==> freeList == [] == old(freeList) && tab == old(tab)
      ensures q != 0 ==> |freeList| == |old(freeList)| - 1
      ensures q != 0 ==> q in use && use[q] == Table(old(use)[p].root, old(use)[p].node.Child(i))
    {
      hide FreeOk, Wf, Lookup, MakePte, At, PagesOk, Bytes, Junk, ZeroPage, SetEntry, Same, Grown, Kept, Entry;
      q := AllocPage();
      if q != 0 {
        assert q != p;
        Grafted(first, limit, freeList, old(tab), tab, old(use), old(ram), p, i, q);
        tab := SetEntry(tab[q := ZeroPage()], p, i, MakePte(q, 0));
        ram := ram[q := Bytes(0)];
        use := use[q := Table(use[p].root, use[p].node.Child(i))];
      } else {
        Unchanged(tab, use, ram, use[p].root);
      }
    }

    // userCreate: an empty address space.
    method UserCreate() returns (root: nat)
      requires Valid()
      modifies this
      ensures Valid() && Same(old(tab), tab, old(use)) && Kept(old(use), old(ram), ram)
      ensures root == 0 ==> use == old(use) && old(freeList) == []
      ensures root != 0 ==>
                && root in old(use) && old(use)[root] == Free
                && use == old(use)[root := Table(root, Root)] && NothingMappedBy(tab, root)
                && Step(old(Now()), Create(root), Now())
    {
      hide FreeOk, Wf, Lookup, PagesOk, Bytes, Junk, ZeroPage, Same, Kept, NothingMappedBy, Step;
      root := AllocPage();
      if root == 0 {
        Unchanged(tab, use, ram, root);
      } else {
        Rooted(first, limit, freeList, old(tab), tab, old(use), old(ram), root);
        tab := tab[root := ZeroPage()];
        ram := ram[root := Bytes(0)];
        use := use[root := Table(root, Root)];
        CreateIsStep(old(Now()), Now(), first, limit, root);
      }
    }

    method Walk(root: nat, va: nat, alloc: bool) returns (s: Slot)
      requires Valid() && IsRoot(use, root)
      modifies this
      ensures Valid()
      ensures s.Panic? <==> va >= MAXVA
      ensures Same(old(tab), tab, old(use)) && Grown(old(use), use, root) && Kept(old(use), old(ram), ram)
      ensures !alloc || s.Panic? ==>
                tab == old(tab) && use == old(use) && ram == old(ram) && freeList == old(freeList)
      ensures s.Null? ==> Lookup(tab, root, va / 4096) == 0 && At(tab, root, LowOf(va / 4096)) == None
      ensures s.Null? && alloc ==> freeList == [] && |old(freeList)| <= 1
      ensures |old(freeList)| <= |freeList| + 2
      ensures s.Slot? ==>
                && s.index == va / 4096 % 512
                && s.page in use && use[s.page] == Table(root, LowOf(va / 4096))
                && At(tab, root, LowOf(va / 4096)) == Some(s.page)
    {
      hide Lookup, At, FreeOk, PagesOk;
      if va >= MAXVA { return Panic; }
      PxOfPage(va);
      var pagetable, level := root, 2;
      while level > 0
        invariant 0 <= level <= 2 && Valid()
        invariant pagetable in use && use[pagetable] == Table(root, NodeAt(level, va))
        invariant Same(old(tab), tab, old(use)) && Grown(old(use), use, root) && Kept(old(use), old(ram), ram)
        invariant !alloc ==> tab == old(tab) && use == old(use) && ram == old(ram) && freeList == old(freeList)
        invariant |old(freeList)| <= |freeList| + (2 - level)
      {
        var i := PX(level, va);
        assert Linked(tab, use, pagetable) && Closed(tab, use, pagetable);
        assert PointsDown(tab, use, pagetable, i);
        if IsValid(tab[pagetable][i]) {
          pagetable := Pte2Pa(tab[pagetable][i]);
        } else {
          StopsHere(tab, use, root, pagetable, level, va);
          if !alloc { return Null; }
          var q := NewTable(pagetable, i);
          if q == 0 { return Null; }
          pagetable := q;
        }
        level := level - 1;
      }
      assert Linked(tab, use, pagetable);
      return Slot(pagetable, PX(0, va));
    }

    // *pte = e for the slot of va found by walk.
    method SetPte(root: nat, s: Slot, va: nat, e: nat)
      requires Valid() && va < MAXVA && IsRoot(use, root)
      requires s.Slot? && s.index == va / 4096 % 512
      requires s.page in use && use[s.page] == Table(root, LowOf(va / 4096))
      modifies this`tab
      ensures Valid()
      ensures forall r, v: nat :: IsRoot(use, r) && v < PAGES ==>
                Lookup(tab, r, v) ==
                  if r == root && v == va / 4096 then (if IsValid(e) then e else 0) else Lookup(old(tab), r, v)
    {
      SetLeaf(tab, use, s.page, va / 4096, e);
      tab := SetEntry(tab, s.page, s.index, e);
    }

    // One round of the loop of mappages.
    method MapOne(root: nat, a: nat, pa: nat, perm: nat) returns (res: MapResult)
      requires Valid() && IsRoot(use, root) && pa < U64 && perm < 1024
      modifies this
      ensures Valid()
      ensures Grown(old(use), use, root) && Kept(old(use), old(ram), ram)
      ensures res.Mapped? ==> a < MAXVA && MappedOne(old(tab), tab, old(use), root, a / 4096, MakePte(pa, perm))
      ensures !res.Mapped? ==> Same(old(tab), tab, old(use))
      ensures res.NoMemory? ==> freeList == [] && |old(freeList)| <= 1
      ensures res.Mapped? ==> |old(freeList)| <= |freeList| + 2
      ensures res.Panicked? <==> a >= MAXVA || Lookup(old(tab), root, a / 4096) != 0
    {
      var s := Walk(root, a, true);
      if s.Panic? { return Panicked; }
      if s.Null? { return NoMemory; }
      assert Linked(tab, use, s.page);
      if IsValid(tab[s.page][s.index]) { return Panicked; }
      MakePteParts(pa, perm);
      SetPte(root, s, a, MakePte(pa, perm));
      return Mapped;
    }

    method MapPages(root: nat, va: nat, size: nat, pa: nat, perm: nat) returns (res: MapResult, ghost n: nat)
      requires Valid() && IsRoot(use, root)
      requires va < U64 && size < U64 && pa < U64 && perm < 1024
      modifies this
      ensures Valid()
      ensures Grown(old(use), use, root) && Kept(old(use), old(ram), ram)
      ensures MappedRange(old(tab), tab, old(use), root, va / 4096, n, pa, perm)
      ensures Unmapped(old(tab), root, va / 4096, n)
      ensures res.Mapped? ==> va / 4096 + n == LastPage(va, size) + 1 && n > 0
      ensures !res.Mapped? && va / 4096 <= LastPage(va, size) ==> va / 4096 + n <= LastPage(va, size)
      ensures res.NoMemory? ==> freeList == [] && |old(freeList)| <= 2 * n + 1
      ensures res.Mapped? ==> |old(freeList)| <= |freeList| + 2 * n
      ensures res.Panicked? ==> va / 4096 + n >= MAXPAGE || Lookup(old(tab), root, va / 4096 + n) != 0
      ensures res.NoMemory? ==> va / 4096 + n < MAXPAGE && Lookup(old(tab), root, va / 4096 + n) == 0
      ensures Mappable(old(tab), old(use), va / 4096, n, pa, perm) ==>
                Step(old(Now()), Map(root, va / 4096, n, pa, perm), Now())
    {
      hide FreeOk, PagesOk, Lookup, Wf, MakePte, MappedOne, Step, Mappable;
      var a := PgRoundDown(va);
      var last := PgRoundDown((va + size + U64 - 1) % U64);
      var p := pa;
      n := 0;
      ghost var lo := va / 4096;
      RoundDown(va);
      RoundDown((va + size + U64 - 1) % U64);
      while true
        invariant Valid() && IsRoot(use, root)
        invariant a == (lo + n) * PGSIZE && p == NthPa(pa, n) < U64
        invariant Grown(old(use), use, root) && Kept(old(use), old(ram), ram)
        invariant MappedRange(old(tab), tab, old(use), root, lo, n, pa, perm)
        invariant Unmapped(old(tab), root, lo, n)
        invariant lo <= LastPage(va, size) ==> lo + n <= LastPage(va, size)
        invariant |old(freeList)| <= |freeList| + 2 * n
        decreases MAXVA - a
      {
        PageNumber(a, lo + n);
        ghost var tab0, use0, ram0 := tab, use, ram;
        res := MapOne(root, a, p, perm);
        GrownTrans(old(use), use0, use, root, old(ram), ram0, ram);
        if !res.Mapped? {
          assert lo + n < MAXPAGE ==> Lookup(tab0, root, lo + n) == Lookup(old(tab), root, lo + n);
          MapIsStep(old(Now()), Now(), first, limit, root, lo, n, pa, perm);
          return;
        }
        MapStep(old(tab), tab0, tab, old(use), use0, root, lo, n, pa, perm);
        n := n + 1;
        if a == last {
          MapIsStep(old(Now()), Now(), first, limit, root, lo, n, pa, perm);
          return;
        }
        a := a + PGSIZE;
        p := (p + PGSIZE) % U64;
      }
      assert false;
    }

    // mappages of a single page.
    method MapPage(root: nat, a: nat, pa: nat, perm: nat) returns (res: MapResult)
      requires Valid() && IsRoot(use, root)
      requires a % PGSIZE == 0 && a < U64 && pa < U64 && perm < 1024
      modifies this
      ensures Valid()
      ensures Grown(old(use), use, root) && Kept(old(use), old(ram), ram)
      ensures res.Mapped? ==> a < MAXVA && MappedOne(old(tab), tab, old(use), root, a / 4096, MakePte(pa, perm))
      ensures !res.Mapped? ==> Same(old(tab), tab, old(use))
      ensures res.NoMemory? ==> freeList == [] && |old(freeList)| <= 1
      ensures res.Mapped? ==> |old(freeList)| <= |freeList| + 2
      ensures res.Panicked? <==> a >= MAXVA || Lookup(old(tab), root, a / 4096) != 0
    {
      hide FreeOk, PagesOk, Lookup, Wf, MakePte, Step, Mappable;
      SinglePage(a);
      ghost var n;
      res, n := MapPages(root, a, PGSIZE, pa, perm);
      assert NthPa(pa, 0) == pa;
    }

    // walkAddr: the frame of a user page, or 0.
    method WalkAddr(root: nat, va: nat) returns (pa: nat)
      requires Valid() && IsRoot(use, root)
      modifies this
      ensures Valid() && tab == old(tab) && use == old(use) && ram == old(ram) && freeList == old(freeList)
      ensures var e := Lookup(tab, root, va / 4096); pa == if va < MAXVA && IsUser(e) then Pte2Pa(e) else 0
    {
      if va >= MAXVA { return 0; }
      var s := Walk(root, va, false);
      if s.Null? { return 0; }
      assert Linked(tab, use, s.page);
      var pte := tab[s.page][s.index];
      if !IsValid(pte) { return 0; }
      if !IsUser(pte) { return 0; }
      return Pte2Pa(pte);
    }

    // One round of the loop of userUnmap; false stands for a panic.
    method UnmapOne(root: nat, a: nat, doFree: bool) returns (ok: bool)
      requires Valid() && IsRoot(use, root)
      requires doFree && a < MAXVA && Lookup(tab, root, a / 4096) != 0 ==>
                 Pte2Pa(Lookup(tab, root, a / 4096)) in use && use[Pte2Pa(Lookup(tab, root, a / 4096))] == Frame
      modifies this
      ensures Valid()
      ensures ok ==> a < MAXVA && ClearedOne(old(tab), tab, old(use), use, root, a / 4096, doFree)
      ensures ok <==> a < MAXVA && PteFlags(Lookup(old(tab), root, a / 4096)) != PTE_V
      ensures !ok ==> Same(old(tab), tab, old(use)) && use == old(use)
      ensures Kept(use, old(ram), ram)
    {
      hide FreeOk, PagesOk, Wf, Lookup, Pte2Pa, PteFlags, IsValid, Bytes, Junk, At;
      var s := Walk(root, a, false);
      ZeroIsInvalid();
      if s.Panic? { return false; }
      if s.Null? { return true; }
      SlotEntry(tab, use, root, a / 4096, s.page);
      var pte := tab[s.page][s.index];
      if !IsValid(pte) { return true; }
      if PteFlags(pte) == PTE_V { return false; }
      if doFree {
        FreePage(Pte2Pa(pte));
      }
      SetPte(root, s, a, 0);
      return true;
    }

    method UserUnmap(root: nat, va: nat, npages: nat, doFree: bool) returns (ok: bool)
      requires Valid() && IsRoot(use, root)
      requires va < U64 && npages < U64
      requires doFree ==> OwnsRange(tab, use, root, va / 4096, EndPage(va, npages))
      modifies this
      ensures Valid()
      ensures ok ==>
                && Cleared(old(tab), tab, old(use), root, va / 4096, EndPage(va, npages))
                && Freed(old(tab), old(use), use, root, va / 4096, EndPage(va, npages), doFree)
                && Kept(use, old(ram), ram)
                && (forall r :: IsRoot(old(use), r) ==> IsRoot(use, r))
                && Step(old(Now()), Unmap(root, va / 4096, EndPage(va, npages), doFree), Now())
      ensures ok <==> va % PGSIZE == 0 && Unmappable(old(tab), root, va / 4096, EndPage(va, npages))
    {
      hide FreeOk, PagesOk, Lookup, Wf, Pte2Pa, PteFlags, Step;
      if va % PGSIZE != 0 { return false; }
      var a, end := va, (va + npages * PGSIZE) % U64;
      ghost var lo, hi, v := va / 4096, EndPage(va, npages), va / 4096;
      AlignedEnd(va, npages);
      PageNumber(va, lo);
      while a < end
        invariant lo <= v && a == v * PGSIZE && (v <= hi || v == lo)
        invariant Valid() && (forall r :: IsRoot(old(use), r) ==> IsRoot(use, r))
        invariant Cleared(old(tab), tab, old(use), root, lo, v)
        invariant Freed(old(tab), old(use), use, root, lo, v, doFree)
        invariant Kept(use, old(ram), ram)
        invariant Unmappable(old(tab), root, lo, v)
      {
        PageNumber(a, v);
        if doFree && v < MAXPAGE {
          StillOwned(old(tab), tab, old(use), use, root, lo, v, if hi < MAXPAGE then hi else MAXPAGE);
        }
        assert v < MAXPAGE ==> Lookup(tab, root, v) == Lookup(old(tab), root, v);
        ghost var tab0, use0, ram0 := tab, use, ram;
        ok := UnmapOne(root, a, doFree);
        if !ok { return; }
        KeptTrans(use0, use, old(ram), ram0, ram);
        UnmapStep(old(tab), tab0, tab, old(use), use0, use, root, lo, v, doFree);
        a, v := a + PGSIZE, v + 1;
      }
      UnmapIsStep(old(Now()), Now(), first, limit, root, lo, hi, doFree);
      return true;
    }

    method UserDealloc(root: nat, oldsz: nat, newsz: nat) returns (ok: bool, sz: nat)
      requires Valid() && IsRoot(use, root) && newsz < U64 && oldsz < U64 && (newsz < oldsz ==> oldsz <= MAXVA)
      requires newsz < oldsz ==> OwnsRange(tab, use, root, PgRoundUp(newsz) / 4096, PgRoundUp(oldsz) / 4096)
      modifies this
      ensures Valid() && sz == if newsz < oldsz then newsz else oldsz
      ensures newsz >= oldsz ==> ok && tab == old(tab) && use == old(use) && ram == old(ram)
      ensures newsz < oldsz && ok ==>
                && Cleared(old(tab), tab, old(use), root, PgRoundUp(newsz) / 4096, PgRoundUp(oldsz) / 4096)
                && Freed(old(tab), old(use), use, root, PgRoundUp(newsz) / 4096, PgRoundUp(oldsz) / 4096, true)
                && Kept(use, old(ram), ram)
                && Step(old(Now()), Unmap(root, PgRoundUp(newsz) / 4096, PgRoundUp(oldsz) / 4096, true), Now())
      ensures newsz < oldsz ==> (ok <==> Unmappable(old(tab), root, PgRoundUp(newsz) / 4096, PgRoundUp(oldsz) / 4096))
    {
      hide Lookup, Wf, Pte2Pa, PteFlags, FreeOk, PagesOk, PgRoundUp, Step, Cleared, Freed, Kept, Unmappable;
      RoundUpPage(newsz);
      RoundUpPage(oldsz);
      if newsz >= oldsz {
        return true, oldsz;
      }
      ok := true;
      if PgRoundUp(newsz) < PgRoundUp(oldsz) {
        var npages := (PgRoundUp(oldsz) - PgRoundUp(newsz)) / PGSIZE;
        ok := UserUnmap(root, PgRoundUp(newsz), npages, true);
      } else {
        NothingInRange(tab, use, ram, root, PgRoundUp(newsz) / 4096, PgRoundUp(oldsz) / 4096);
        UnmapIsStep(Now(), Now(), first, limit, root, PgRoundUp(newsz) / 4096, PgRoundUp(oldsz) / 4096, true);
      }
      return ok, newsz;
    }

    // One round of the loop of userAlloc.
    method GrantPage(root: nat, a: nat, flags: nat) returns (res: MapResult, ghost p: nat)
      requires Valid() && IsRoot(use, root) && a % PGSIZE == 0 && a < U64 && flags < 1024
      modifies this
      ensures Valid() && (!res.Panicked? ==> Kept(old(use), old(ram), ram))
      ensures res.Mapped? ==> a < MAXVA && Granted(old(tab), tab, old(use), use, ram, root, a / 4096, p, flags)
      ensures res.NoMemory? ==> Same(old(tab), tab, old(use)) && Grown(old(use), use, root) && |old(freeList)| <= 2
      ensures res.Mapped? ==> |old(freeList)| <= |freeList| + 3
      ensures res.Panicked? ==> a >= MAXVA || Lookup(old(tab), root, a / 4096) != 0
    {
      hide FreeOk, PagesOk, Lookup, Wf, MakePte, Bytes;
      var mem := NewFrame();
      p := mem;
      if mem == 0 { return NoMemory, p; }
      ghost var tab0 := tab;
      res := MapPage(root, a, mem, flags);
      if res.Mapped? {
        GrantDone(old(tab), tab0, tab, old(use), use, root, a / 4096, p, flags, old(ram), ram);
      } else if res.NoMemory? {
        ghost var tab1, use1, ram1 := tab, use, ram;
        FreePage(mem);
        GrantFailed(old(tab), tab0, tab1, tab, old(use), use1, root, p, old(ram), ram1);
      }
    }

    // The error exit of userAlloc: give back the pages mapped so far.
    method UndoAlloc(root: nat, lo: nat, v: nat, ghost tab0: Mem, ghost use0: Uses, ghost ram0: map<nat, seq<Byte>>)
      requires Valid() && lo <= v && v * PGSIZE < U64 && (lo < v ==> v <= MAXPAGE) && IsRoot(use0, root)
      requires (forall r :: IsRoot(use0, r) ==> IsRoot(use, r)) && Unmapped(tab0, root, lo, v - lo)
      requires Outside(tab0, tab, use0, root, lo, v) && GrownBy(tab, use0, use, root, lo, v)
      requires Backed(tab, use0, use, ram, root, lo, v, 31) && Kept(use0, ram0, ram)
      modifies this
      ensures Valid() && Same(tab0, tab, use0) && Grown(use0, use, root) && Kept(use0, ram0, ram)
    {
      hide FreeOk, PagesOk, Lookup, Wf, PteFlags, Pte2Pa, Bytes, Unmappable, FrameIn, PgRoundUp, Step;
      RoundUpAligned(lo);
      RoundUpAligned(v);
      BackedIsOwned(tab, use0, use, ram, root, lo, v);
      ghost var tab1, use1, ram1 := tab, use, ram;
      var ok, sz := UserDealloc(root, v * PGSIZE, lo * PGSIZE);
      if lo < v {
        AllocUndo(tab0, tab1, tab, use0, use1, use, ram0, ram1, ram, root, lo, v);
      } else {
        NothingMapped(tab0, tab1, use0, use1, root, lo);
      }
    }

    // All or nothing: on success the new pages are mapped to zeroed frames of
    // their own; on failure every translation and frame is as before, and at most
    // empty tables were added.
    method UserAlloc(root: nat, oldsz: nat, newsz: nat) returns (res: AllocResult)
      requires Valid() && IsRoot(use, root) && oldsz < U64 && newsz < U64
      modifies this
      ensures Valid()
      ensures newsz < oldsz ==> res == Grew(oldsz) && tab == old(tab) && use == old(use) && ram == old(ram)
      ensures newsz >= oldsz && res.Grew? ==>
                && res.sz == newsz
                && Outside(old(tab), tab, old(use), root, FirstNew(oldsz), EndNew(oldsz, newsz))
                && GrownBy(tab, old(use), use, root, FirstNew(oldsz), EndNew(oldsz, newsz))
                && Backed(tab, old(use), use, ram, root, FirstNew(oldsz), EndNew(oldsz, newsz), 31)
                && Kept(old(use), old(ram), ram)
                && Step(old(Now()), Alloc(root, FirstNew(oldsz), EndNew(oldsz, newsz)), Now())
      ensures res.Failed? ==>
                && Same(old(tab), tab, old(use)) && Grown(old(use), use, root)
                && Kept(old(use), old(ram), ram)
                && Step(old(Now()), Tables(root), Now())
                && |old(freeList)| < 3 * (EndNew(oldsz, newsz) - FirstNew(oldsz))
      ensures res.Crashed? ==>
                newsz > MAXVA || !Unmapped(old(tab), root, FirstNew(oldsz), EndNew(oldsz, newsz) - FirstNew(oldsz))
    {
      hide FreeOk, PagesOk, Lookup, Wf, PteFlags, Pte2Pa, Bytes, FrameIn, PgRoundUp, MakePte, Step;
      if newsz < oldsz { return Grew(oldsz); }
      RoundUpPage(oldsz);
      var lo := FirstNew(oldsz);
      var v := lo;
      while v * PGSIZE < newsz
        invariant lo <= v <= EndNew(oldsz, newsz) && (lo < v ==> v <= MAXPAGE)
        invariant Valid() && (forall r :: IsRoot(old(use), r) ==> IsRoot(use, r))
        invariant Unmapped(old(tab), root, lo, v - lo)
        invariant Outside(old(tab), tab, old(use), root, lo, v) && GrownBy(tab, old(use), use, root, lo, v)
        invariant Backed(tab, old(use), use, ram, root, lo, v, 31) && Kept(old(use), old(ram), ram)
        invariant |old(freeList)| <= |freeList| + 3 * (v - lo)
      {
        ghost var tab0, use0, ram0 := tab, use, ram;
        assert v < MAXPAGE ==> Lookup(tab, root, v) == Lookup(old(tab), root, v);
        PageNumber(v * PGSIZE, v);
        var r, p := GrantPage(root, v * PGSIZE, 31);
        if r.Panicked? { return Crashed; }
        if r.NoMemory? {
          GrantUndone(old(tab), tab0, tab, old(use), use0, use, old(ram), ram0, ram, root, lo, v);
          UndoAlloc(root, lo, v, old(tab), old(use), old(ram));
          TablesIsStep(old(Now()), Now(), first, limit, root);
          return Failed;
        }
        AllocStep(old(tab), tab0, tab, old(use), use0, use, ram0, ram, root, lo, v, p, 31);
        KeptAfterGrant(old(tab), tab0, old(use), use0, old(ram), ram0, ram, root, lo, v);
        v := v + 1;
      }
      AllocIsStep(old(Now()), Now(), first, limit, root, lo, EndNew(oldsz, newsz));
      return Grew(newsz);
    }

    // memAllocator.free on a table page that no table lies below.
    method FreeTable(p: nat, ghost open: set<nat>)
      requires Pool() && Forest(tab, use, open) && IsTable(use, p) && ParentOpen(use, open, p)
      requires forall q :: IsTable(use, q) && q != p && use[q].root == use[p].root ==> !use[q].node.Under(use[p].node)
      modifies this
      ensures Pool() && Forest(tab, use, open)
      ensures use == old(use)[p := Free] && tab == old(tab)[p := Junk()] && ram == old(ram)[p := Bytes(5)]
    {
      hide FreeOk;
      Drop(tab, use, open, p, Junk());
      Push(freeList, use, p);
      freeList := [p] + freeList;
      npage := npage + 1;
      tab := tab[p := Junk()];
      ram := ram[p := Bytes(5)];
      use := use[p := Free];
    }

    // freewalk, below a set of open tables whose entry for p is about to be cleared;
    // false stands for the panic on a leaf.
    method FreeWalk(p: nat, ghost open: set<nat>) returns (ok: bool)
      requires Pool() && Forest(tab, use, open) && IsTable(use, p)
      requires OpenAbove(use, open, p) && ParentOpen(use, open, p)
      requires LowLeaves(tab, use, use[p].root)
      modifies this
      ensures ok <==> Leafless(old(tab), old(use), old(use)[p].root, old(use)[p].node)
      ensures ok ==> Pool() && Forest(tab, use, open)
      ensures ok ==> Torn(old(use), use, old(use)[p].root, old(use)[p].node)
      ensures ok ==> Spared(old(use), use, old(tab), tab, old(ram), ram, p)
      decreases if use[p].node.Root? then 3 else if use[p].node.Mid? then 2 else 1
    {
      hide Forest, FreeOk, LowLeaves, Leafless, LeaflessTo, Spared, Torn, TornTo, OpenAbove, ParentOpen, Pte2Pa;
      ghost var root, n := use[p].root, use[p].node;
      TornStart(tab, use, ram, root, n, p);
      var i := 0;
      while i < 512
        invariant 0 <= i <= 512
        invariant Pool() && Forest(tab, use, open) && IsTable(use, p) && use[p] == Table(root, n)
        invariant OpenAbove(use, open, p) && ParentOpen(use, open, p)
        invariant LowLeaves(tab, use, root)
        invariant LeaflessTo(old(tab), old(use), root, n, i)
        invariant n.Low? ==> tab[p] == old(tab)[p] && EmptyTo(old(tab), p, i)
        invariant TornTo(old(use), use, root, n, i)
        invariant Spared(old(use), use, old(tab), tab, old(ram), ram, p)
      {
        var pte := tab[p][i];
        EntryKind(tab, use, open, p, i);
        if IsValid(pte) && !IsLeaf(pte) {
          LeaflessChild(old(tab), tab, old(use), use, old(ram), ram, p, root, n, i);
          ghost var tab0, use0, ram0 := tab, use, ram;
          ok := FreeChild(p, i, open);
          if !ok { return; }
          TornChild(old(use), use0, use, root, n, i);
          SparedTrans(old(use), use0, use, old(tab), tab0, tab, old(ram), ram0, ram, p, root, n, i);
        } else if IsValid(pte) {
          LeafFound(old(tab), old(use), root, n, p, i);
          return false;
        } else {
          TornSkip(tab, old(use), use, open, p, i);
          LeaflessSkip(old(tab), old(use), use, root, n, i);
        }
        i := i + 1;
      }
      AllTorn(old(tab), tab, old(use), use, open, p, root, n);
      ghost var tab0, use0, ram0 := tab, use, ram;
      FreeTable(p, open);
      SparedDrop(old(use), use0, old(tab), tab0, old(ram), ram0, p);
      return true;
    }

    method FreeChild(p: nat, i: nat, ghost open: set<nat>) returns (ok: bool)
      requires Pool() && Forest(tab, use, open) && IsTable(use, p) && !use[p].node.Low?
      requires OpenAbove(use, open, p) && ParentOpen(use, open, p)
      requires i < 512 && IsValid(Entry(tab, p, i)) && LowLeaves(tab, use, use[p].root)
      modifies this
      ensures ok <==> Leafless(old(tab), old(use), old(use)[p].root, old(use)[p].node.Child(i))
      ensures ok ==>
                && Pool() && Forest(tab, use, open) && IsTable(use, p) && use[p] == old(use)[p]
                && OpenAbove(use, open, p) && ParentOpen(use, open, p)
                && LowLeaves(tab, use, use[p].root)
                && Torn(old(use), use, use[p].root, use[p].node.Child(i))
                && Spared(old(use), use, old(tab), tab, old(ram), ram, p)
      decreases if use[p].node.Root? then 3 else if use[p].node.Mid? then 2 else 1, 0
    {
      hide Pte2Pa, Forest, FreeOk, LowLeaves, Leafless, Spared, Torn, OpenAbove, ParentOpen, SetEntry;
      ChildReady(tab, use, open, p, i);
      var child := Pte2Pa(tab[p][i]);
      ok := FreeWalk(child, open + {p});
      if ok {
        ChildTorn(old(tab), tab, old(use), use, old(ram), ram, open, p, i);
        Prune(tab, use, open, p, i);
        ClearEntry(first, limit, tab, ram, use, p, i);
        tab := SetEntry(tab, p, i, 0);
      }
    }

    // freewalk from a root: every table of the address space goes back to the pool.
    method FreeTables(root: nat) returns (ok: bool)
      requires Valid() && IsRoot(use, root) && MapsLeaves(tab, root)
      modifies this
      ensures ok <==> NothingMappedBy(old(tab), root)
      ensures ok ==> Valid() && Torn(old(use), use, root, Root)
      ensures ok ==> OthersTranslate(old(tab), tab, old(use), root)
      ensures ok ==> Kept(use, old(ram), ram)
    {
      hide Lookup, FreeOk, Leafless, LowLeaves, NothingMappedBy, MapsLeaves;
      FlatLeafless(tab, use, root);
      FlatLeaves(tab, use, root);
      ok := FreeWalk(root, {});
      if ok {
        forall r | IsRoot(old(use), r) && r != root
          ensures forall v: nat :: v < PAGES ==> Lookup(tab, r, v) == Lookup(old(tab), r, v)
        {
          OtherSpace(old(tab), tab, old(use), r);
        }
      }
    }

    method FreeUserPageTable(root: nat, sz: nat) returns (ok: bool, ghost mid: Uses)
      requires Valid() && IsRoot(use, root) && MapsLeaves(tab, root) && sz < U64
      requires OwnsRange(tab, use, root, 0, FirstNew(sz)) && FirstNew(sz) <= MAXPAGE
      modifies this
      ensures ok <==> forall v: nat :: FirstNew(sz) <= v < PAGES ==> Lookup(old(tab), root, v) == 0
      ensures ok ==> Valid() && Kept(use, old(ram), ram)
      ensures ok ==> Freed(old(tab), old(use), mid, root, 0, FirstNew(sz), true) && Torn(mid, use, root, Root)
      ensures ok ==> OthersTranslate(old(tab), tab, old(use), root)
    {
      hide Lookup, FreeOk, PagesOk, Wf, MapsLeaves, OwnsRange, IsLeaf, Pte2Pa, PgRoundUp;
      RoundUpPage(sz);
      LeavesUnmappable(tab, root, 0, FirstNew(sz));
      if sz > 0 {
        EndOfUser(sz);
        ok := UserUnmap(root, 0, PgRoundUp(sz) / PGSIZE, true);
      }
      ghost var ram1 := ram;
      mid := use;
      ClearedLeaves(old(tab), tab, old(use), root, 0, FirstNew(sz));
      ok := FreeTables(root);
      if ok {
        KeptTrans(mid, use, old(ram), ram1, ram);
      }
    }

    // Tearing down a task's address space returns its user frames and all its
    // tables, once each, and reaches the leaf panic exactly when something else is mapped.
    method FreeTaskPagetable(root: nat, sz: nat) returns (ok: bool)
      requires Valid() && IsRoot(use, root) && MapsLeaves(tab, root) && sz < U64
      requires OwnsRange(tab, use, root, 0, FirstNew(sz)) && FirstNew(sz) <= MAXPAGE - 2
      modifies this
      ensures ok <==> OnlyUserPages(old(tab), root, FirstNew(sz))
      ensures ok ==> Valid() && TornDown(old(tab), old(use), use, root, FirstNew(sz))
      ensures ok ==> Kept(use, old(ram), ram)
      ensures ok ==> OthersTranslate(old(tab), tab, old(use), root)
      ensures ok ==> Step(old(Now()), TearDown(root, FirstNew(sz), None), Now())
    {
      hide Lookup, FreeOk, PagesOk, Wf, MapsLeaves, OwnsRange, IsLeaf, Pte2Pa, PgRoundUp, PteFlags, Step, Cleared,
          Freed, Torn, Kept, OnlyUserPages, TornDown, OthersTranslate, FrameIn;
      UnmapTop(root);
      ghost var tab2, ram2 := tab, ram;
      StillOwnsUser(old(tab), tab, old(use), use, root, FirstNew(sz));
      OnlyUserIff(old(tab), tab, old(use), root, FirstNew(sz));
      ghost var mid;
      ok, mid := FreeUserPageTable(root, sz);
      if ok {
        TearDownDone(old(tab), tab2, old(use), mid, use, root, FirstNew(sz));
        OthersStillTranslate(old(tab), tab2, tab, old(use), root);
        TearDownKept(old(tab), old(use), use, root, FirstNew(sz), old(ram), ram2, ram);
        TearDownIsStep(old(Now()), Now(), first, limit, root, FirstNew(sz), None);
      }
    }

    // The two pages above the user's: trampoline and trapframe.
    method UnmapTop(root: nat)
      requires Valid() && IsRoot(use, root) && MapsLeaves(tab, root)
      modifies this
      ensures Valid() && use == old(use) && MapsLeaves(tab, root) && Kept(use, old(ram), ram)
      ensures Cleared(old(tab), tab, old(use), root, MAXPAGE - 2, MAXPAGE)
    {
      hide Lookup, FreeOk, PagesOk, Wf, MapsLeaves, OwnsRange, IsLeaf, Pte2Pa, PgRoundUp, PteFlags, Step;
      LeavesUnmappable(tab, root, MAXPAGE - 1, MAXPAGE);
      var ok := UserUnmap(root, TRAMPOLINE, 1, false);
      ClearedLeaves(old(tab), tab, old(use), root, MAXPAGE - 1, MAXPAGE);
      LeavesUnmappable(tab, root, MAXPAGE - 2, MAXPAGE - 1);
      ghost var tab1 := tab;
      ok := UserUnmap(root, TRAPFRAME, 1, false);
      ClearedLeaves(tab1, tab, use, root, MAXPAGE - 2, MAXPAGE - 1);
    }

    // freeTask: the trapframe goes back to the pool first, then the address space.
    method FreeTask(root: nat, sz: nat, trapframe: nat) returns (ok: bool)
      requires Valid() && IsRoot(use, root) && Spaces(tab, use) && sz < U64 && FirstNew(sz) <= MAXPAGE - 2
      requires trapframe in use && use[trapframe] == Frame && Lookup(tab, root, MAXPAGE - 2) != 0
      requires Pte2Pa(Lookup(tab, root, MAXPAGE - 2)) == trapframe
      modifies this
      ensures ok <==> OnlyUserPages(old(tab), root, FirstNew(sz))
      ensures ok ==> Valid() && TornDown(old(tab), old(use)[trapframe := Free], use, root, FirstNew(sz))
      ensures ok ==> Step(old(Now()), TearDown(root, FirstNew(sz), Some(trapframe)), Now())
    {
      hide Lookup, FreeOk, PagesOk, Wf, MapsLeaves, OwnsRange, IsLeaf, Pte2Pa, PgRoundUp, PteFlags, Step, Spaces,
          Kept, FrameIn;
      TrapframeAlone(tab, use, root, FirstNew(sz), trapframe);
      FreePage(trapframe);
      AfterTrapframe(old(tab), tab, old(use), use, root, FirstNew(sz), trapframe);
      ghost var tab1, use1, ram1 := tab, use, ram;
      ok := FreeTaskPagetable(root, sz);
      if ok {
        TaskFreed(old(Now()), Snap(tab1, use1, ram1), Now(), first, limit, root, FirstNew(sz), trapframe);
      }
    }

    // walkAddr of the page of va, as the three copy routines use it.
    method UserFrame(root: nat, va: nat, va0: nat) returns (pa: nat)
      requires Valid() && IsRoot(use, root) && Private(tab, use) && va0 == PgRoundDown(va)
      modifies this
      ensures Valid() && tab == old(tab) && use == old(use) && ram == old(ram) && freeList == old(freeList)
      ensures va - va0 == va % 4096
      ensures pa == 0 ==> UserByte(tab, ram, root, va) == None
      ensures pa != 0 ==>
                && UserPage(tab, root, va / 4096) && pa == Pte2Pa(Lookup(tab, root, va / 4096))
                && pa in use && pa in ram && |ram[pa]| == PGSIZE
    {
      hide Lookup, FreeOk, Wf, Pte2Pa, IsUser;
      RoundDown(va);
      PageNumber(va0, va / 4096);
      pa := WalkAddr(root, va0);
      PaIsFrame(tab, use, root, va / 4096, first, limit, ram);
    }

    method CopyIn(root: nat, vsrc: nat, len: nat) returns (ok: bool, dst: seq<Byte>)
      requires Valid() && IsRoot(use, root) && Private(tab, use)
      modifies this
      ensures Valid() && tab == old(tab) && use == old(use) && ram == old(ram) && freeList == old(freeList)
      ensures |dst| <= len && Reads(tab, ram, root, vsrc, dst)
      ensures ok <==> |dst| == len
      ensures !ok ==> UserByte(tab, ram, root, vsrc + |dst|) == None
    {
      hide Lookup, FreeOk, Wf, Pte2Pa, IsUser, UserByte, UserPage, Private, PgRoundDown;
      dst := [];
      while |dst| < len
        invariant Valid() && tab == old(tab) && use == old(use) && ram == old(ram) && freeList == old(freeList)
        invariant |dst| <= len && Reads(tab, ram, root, vsrc, dst)
        decreases len - |dst|
      {
        var va := vsrc + |dst|;
        var va0 := PgRoundDown(va);
        var pa0 := UserFrame(root, va, va0);
        if pa0 == 0 { return false, dst; }
        var n := PGSIZE - (va - va0);
        if n > len - |dst| { n := len - |dst|; }
        PageRead(tab, ram, root, va, n);
        ReadsMore(tab, ram, root, vsrc, dst, ram[pa0][va % 4096..va % 4096 + n]);
        dst := dst + ram[pa0][va - va0..va - va0 + n];
      }
      return true, dst;
    }

    // The inner loop of copyinstr: at most n bytes of page p from offset off, up to a NUL.
    method CopyStr(p: nat, off: nat, n: nat) returns (gotNull: bool, got: seq<Byte>)
      requires p in ram && |ram[p]| == PGSIZE && off + n <= PGSIZE
      ensures |got| <= n && got == ram[p][off..off + |got|]
      ensures !gotNull ==> |got| == n && 0 !in got
      ensures gotNull ==> |got| > 0 && got[|got| - 1] == 0 && 0 !in got[..|got| - 1]
    {
      got := [];
      while |got| < n
        invariant |got| <= n && got == ram[p][off..off + |got|] && 0 !in got
        decreases n - |got|
      {
        var c := ram[p][off + |got|];
        if c == 0 { return true, got + [0]; }
        got := got + [c];
      }
      return false, got;
    }

    // copyinstr: true exactly when a NUL comes within maxsz readable bytes.
    method CopyInStr(root: nat, vsrc: nat, maxsz: int) returns (ok: bool, dst: seq<Byte>)
      requires Valid() && IsRoot(use, root) && Private(tab, use)
      modifies this
      ensures Valid() && tab == old(tab) && use == old(use) && ram == old(ram) && freeList == old(freeList)
      ensures Reads(tab, ram, root, vsrc, dst) && (|dst| <= maxsz || dst == [])
      ensures ok ==> |dst| > 0 && dst[|dst| - 1] == 0 && 0 !in dst[..|dst| - 1]
      ensures !ok ==> 0 !in dst && (maxsz <= |dst| || UserByte(tab, ram, root, vsrc + |dst|) == None)
    {
      hide Lookup, FreeOk, Wf, Pte2Pa, IsUser, UserByte, UserPage, Private, PgRoundDown;
      dst := [];
      while |dst| < maxsz
        invariant Valid() && tab == old(tab) && use == old(use) && ram == old(ram) && freeList == old(freeList)
        invariant (|dst| <= maxsz || dst == []) && Reads(tab, ram, root, vsrc, dst) && 0 !in dst
        decreases maxsz - |dst|
      {
        var va := vsrc + |dst|;
        var va0 := PgRoundDown(va);
        var pa0 := UserFrame(root, va, va0);
        if pa0 == 0 { return false, dst; }
        var n := PGSIZE - (va - va0);
        if n > maxsz - |dst| { n := maxsz - |dst|; }
        var gotNull, got := CopyStr(pa0, va - va0, n);
        PageRead(tab, ram, root, va, |got|);
        ReadsMore(tab, ram, root, vsrc, dst, got);
        if gotNull {
          assert (dst + got)[..|dst + got| - 1] == dst + got[..|got| - 1];
          return true, dst + got;
        }
        dst := dst + got;
      }
      return false, dst;
    }

    // One round of copyout: the part of data that lies on the page of va, or 0 bytes.
    method CopyChunk(root: nat, va: nat, data: seq<Byte>) returns (n: nat)
      requires Valid() && IsRoot(use, root) && Private(tab, use) && data != []
      modifies this
      ensures Valid() && tab == old(tab) && use == old(use) && freeList == old(freeList) && n <= |data|
      ensures n == 0 ==> ram == old(ram) && UserByte(tab, ram, root, va) == None
      ensures n != 0 ==> Written(tab, old(ram), ram, use, root, va, data[..n])
    {
      hide Lookup, FreeOk, Wf, Pte2Pa, IsUser, UserByte, UserPage, Private, PgRoundDown, Written;
      var va0 := PgRoundDown(va);
      var pa0 := UserFrame(root, va, va0);
      if pa0 == 0 { return 0; }
      n := PGSIZE - (va - va0);
      if n > |data| { n := |data|; }
      PageWritten(tab, ram, use, root, va, data[..n]);
      ram := WritePage(ram, pa0, va - va0, data[..n]);
    }

    method CopyOut(root: nat, vdst: nat, src: seq<Byte>, len: int) returns (ok: bool, ghost done: nat)
      requires Valid() && IsRoot(use, root) && Private(tab, use) && len <= |src|
      modifies this
      ensures Valid() && tab == old(tab) && use == old(use) && freeList == old(freeList)
      ensures done <= |src| && Written(tab, old(ram), ram, use, root, vdst, src[..done])
      ensures Step(old(Now()), Write(root, vdst, src[..done]), Now())
      ensures ok <==> len <= done
      ensures ok ==> done == if len < 0 then 0 else len
      ensures !ok ==> done < len && UserByte(tab, old(ram), root, vdst + done) == None
    {
      hide FreeOk, Wf, UserByte, UserPage, Private, Written, PagesOk, Step;
      var k := 0;
      WroteNothing(tab, ram, use, root, vdst);
      while k < len
        invariant Valid() && tab == old(tab) && use == old(use) && freeList == old(freeList)
        invariant 0 <= k <= |src| && (k <= len || k == 0)
        invariant Written(tab, old(ram), ram, use, root, vdst, src[..k])
        decreases len - k
      {
        ghost var ram0 := ram;
        var n := CopyChunk(root, vdst + k, src[k..len]);
        if n == 0 {
          BeyondWritten(tab, old(ram), ram, use, root, vdst, src[..k], vdst + k);
          WriteIsStep(old(Now()), Now(), first, limit, root, vdst, src[..k]);
          return false, k;
        }
        WrittenTrans(tab, old(ram), ram0, ram, use, root, vdst, src[..k], src[k..len][..n]);
        assert src[..k] + src[k..len][..n] == src[..k + n];
        k := k + n;
      }
      WriteIsStep(old(Now()), Now(), first, limit, root, vdst, src[..k]);
      return true, k;
    }

    // The allocating part of one round of userVmCopy: a fresh copy of frame src.
    method CopyFrame(child: nat, a: nat, src: nat, flags: nat) returns (ok: bool, ghost p: nat)
      requires Valid() && IsRoot(use, child) && a % PGSIZE == 0 && a < MAXVA && flags < 1024
      requires src in use && use[src] == Frame
      modifies this
      ensures Valid()
      ensures ok ==> CopiedOne(old(tab), tab, old(use), use, old(ram), ram, child, a / 4096, p, flags, src)
      ensures ok ==> |old(freeList)| <= |freeList| + 3
      ensures !ok ==> |old(freeList)| <= 2 || Lookup(old(tab), child, a / 4096) != 0
    {
      hide FreeOk, Lookup, Wf, MakePte;
      var mem := AllocPage();
      p := mem;
      if mem == 0 { return false, p; }
      ram := ram[mem := ram[src]];
      ghost var tab1, use1, ram1 := tab, use, ram;
      var res := MapPage(child, a, mem, flags);
      if !res.Mapped? { return false, p; }
      CopyFrameDone(old(tab), tab1, tab, old(use), use, old(ram), ram1, ram, child, a / 4096, p, flags, src);
      return true, p;
    }

    // One round of userVmCopy.
    method CopyPage(parent: nat, child: nat, a: nat) returns (ok: bool, ghost p: nat)
      requires Valid() && IsRoot(use, parent) && IsRoot(use, child) && a % PGSIZE == 0
      requires a < MAXVA && Lookup(tab, parent, a / 4096) != 0 ==>
                 Pte2Pa(Lookup(tab, parent, a / 4096)) in use && use[Pte2Pa(Lookup(tab, parent, a / 4096))] == Frame
      modifies this
      ensures Valid()
      ensures ok ==> a < MAXVA && PteFlags(Lookup(old(tab), parent, a / 4096)) < 1024
      ensures ok && Lookup(old(tab), parent, a / 4096) == 0 ==> tab == old(tab) && use == old(use) && ram == old(ram)
      ensures ok && Lookup(old(tab), parent, a / 4096) != 0 ==>
                && PteFlags(Lookup(old(tab), parent, a / 4096)) % 2 == 1
                && CopiedOne(old(tab), tab, old(use), use, old(ram), ram, child, a / 4096, p,
                             PteFlags(Lookup(old(tab), parent, a / 4096)), Pte2Pa(Lookup(old(tab), parent, a / 4096)))
      ensures ok ==> |old(freeList)| <= |freeList| + 3
      ensures !ok ==> a >= MAXVA || |old(freeList)| <= 2 || NotCopyable(old(tab), parent, child, a / 4096)
    {
      hide FreeOk, PagesOk, CopiedOne, Pte2Pa;
      p := 0;
      var s := Walk(parent, a, false);
      if !s.Slot? { return false, p; }
      assert Linked(tab, use, s.page);
      var pte := tab[s.page][s.index];
      if !IsValid(pte) { return true, p; }
      OddFlags(pte);
      ok, p := CopyFrame(child, a, Pte2Pa(pte), PteFlags(pte));
    }

    // false stands for one of the panics of userVmCopy.
    method UserVmCopy(parent: nat, child: nat, sz: int) returns (ok: bool)
      requires Valid() && IsRoot(use, parent) && IsRoot(use, child)
      requires sz <= 0x7fff_f000 && HasFrames(tab, use, parent, PagesOf(sz))
      modifies this
      ensures Valid()
      ensures ok ==>
                && Copied(old(tab), tab, old(use), use, old(ram), ram, parent, child, PagesOf(sz))
                && Outside(old(tab), tab, old(use), child, 0, PagesOf(sz))
                && GrownBy(tab, old(use), use, child, 0, PagesOf(sz))
                && Kept(old(use), old(ram), ram)
                && Step(old(Now()), Fork(parent, child, PagesOf(sz)), Now())
      ensures !ok ==>
                || |old(freeList)| < 3 * PagesOf(sz)
                || exists v: nat :: v < PagesOf(sz) && NotCopyable(old(tab), parent, child, v)
    {
      hide FreeOk, Lookup, Wf, Pte2Pa, PteFlags, CopiedOne, FrameIn, Step, NotCopyable;
      var k := 0;
      while k * PGSIZE < sz
        invariant 0 <= k <= PagesOf(sz) && Valid() && (forall r :: IsRoot(old(use), r) ==> IsRoot(use, r))
        invariant Outside(old(tab), tab, old(use), child, 0, k) && GrownBy(tab, old(use), use, child, 0, k)
        invariant Kept(old(use), old(ram), ram)
        invariant Copied(old(tab), tab, old(use), use, old(ram), ram, parent, child, k)
        invariant |old(freeList)| <= |freeList| + 3 * k
      {
        PageNumber(k * PGSIZE, k);
        assert Lookup(tab, parent, k) == Lookup(old(tab), parent, k);
        ghost var tab0, use0, ram0 := tab, use, ram;
        ghost var p;
        ok, p := CopyPage(parent, child, k * PGSIZE);
        if !ok {
          if NotCopyable(tab0, parent, child, k) {
            NeverCopyable(old(tab), tab0, old(use), use0, parent, child, k);
          }
          return;
        }
        if Lookup(old(tab), parent, k) == 0 {
          CopySkip(old(tab), tab, old(use), use, old(ram), ram, parent, child, k);
        } else {
          CopyStep(old(tab), tab0, tab, old(use), use0, use, old(ram), ram0, ram, parent, child, k, p,
                   PteFlags(Lookup(old(tab), parent, k)));
        }
        k := k + 1;
      }
      ForkIsStep(old(Now()), Now(), first, limit, parent, child, k);
      return true;
    }
  }

  /** A client of the contracts: fork, write anything into the parent, and read the child.
      What comes back is what the parent held when it forked. */
  method ForkWriteRead(vm: Vm, parent: nat, child: nat, sz: int, va: nat, data: seq<Byte>, vb: nat, len: nat)
    returns (forked: bool, got: seq<Byte>)
    requires vm.Valid() && Spaces(vm.tab, vm.use) && IsRoot(vm.use, parent) && IsRoot(vm.use, child) && parent != child
    requires sz <= 0x7fff_f000
    modifies vm
    ensures forked ==> vm.Valid() && Spaces(vm.tab, vm.use)
    ensures forked ==> forall j: nat :: j < |got| && WasMapped(old(vm.tab), parent, vb + j, sz) ==>
              UserByte(old(vm.tab), old(vm.ram), parent, vb + j) == Some(got[j])
  {
    hide Spaces, Step, UserByte, Lookup, Private, PagesOk, FreeOk, Wf, Copied, Outside, GrownBy, Kept, NotCopyable,
        IsRoot;
    got := [];
    ghost var s := vm.Now();
    SpacesOwns(vm.tab, vm.use, parent, 0, PagesOf(sz));
    forked := vm.UserVmCopy(parent, child, sz);
    if !forked { return; }
    ghost var s0 := vm.Now();
    StepKeeps(s, Fork(parent, child, PagesOf(sz)), s0);
    ForkRoots(s, parent, child, PagesOf(sz), s0);
    SpacesPrivate(vm.tab, vm.use);
    var _, done := vm.CopyOut(parent, va, data, |data|);
    ghost var s1, op := vm.Now(), Write(parent, va, data[..done]);
    StepKeeps(s0, op, s1);
    SpacesPrivate(vm.tab, vm.use);
    var ok;
    ok, got := vm.CopyIn(child, vb, len);
    forall j: nat | j < |got| && WasMapped(s.m, parent, vb + j, sz)
      ensures UserByte(s.m, s.ram, parent, vb + j) == Some(got[j])
    {
      ForkIsolation(s, parent, child, PagesOf(sz), [s0, s1], [op], child, vb + j, 1);
    }
  }

  predicate WasMapped(m: Mem, r: nat, a: nat, sz: int) {
    a / 4096 < PagesOf(sz) && Lookup(m, r, a / 4096) != 0
  }
}
