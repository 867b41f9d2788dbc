/** Loading pages on their first fault over the page tables: vma::LoadIfContain
    (kernel/memory/mmap.cpp) and Task::LoadIfValid (kernel/os/task.cpp). */
module VmLoad {
  import opened Common
  import opened Riscv
  import opened PageTable
  import opened VmSpec
  import opened VmRuns
  import opened VmManager
  import D = DemandLoad

  /** A fault is not for this region, is served, maps nothing because no page was left for a
      table (the result of mappages is not looked at, and the frame is lost), or ends in a
      panic or a write through a null pointer. */
  datatype LoadResult = NotLoaded | Loaded | Leaked | Stopped

  // PTE_V, PTE_U and the rights of the region.
  function Bits(perm: D.Perm): nat {
    17 + (if perm.read then 2 else 0) + (if perm.write then 4 else 0) + (if perm.exec then 8 else 0)
  }

  predicate HasRight(perm: D.Perm) { perm.read || perm.write || perm.exec }

  // The region lies below the trapframe, in the part of the space that users map.
  predicate UserRegion(v: D.Vma) { D.VmaOk(v) && v.addr + v.length <= TRAPFRAME && HasRight(v.perm) }

  // What an entry lets the user do: bits R, W and X of a valid user entry.
  predicate Rights(e: nat, perm: D.Perm) {
    && IsValid(e) && IsUser(e)
    && (e / 2 % 2 == 1 <==> perm.read) && (e / 4 % 2 == 1 <==> perm.write) && (e / 8 % 2 == 1 <==> perm.exec)
  }

  // Page p of the address space is mapped for the user with these rights and these bytes.
  ghost predicate PageShows(m: Mem, ram: Ram, root: nat, p: nat, page: D.Page) {
    && UserPage(m, root, p) && Rights(Lookup(m, root, p), page.perm) && |page.bytes| == PGSIZE
    && forall i: nat :: i < PGSIZE ==> UserByte(m, ram, root, p * PGSIZE + i) == Some(page.bytes[i])
  }

  // Every entry and every user byte but those of page p of root is as before.
  ghost predicate OthersKeep(s: Snap, s': Snap, root: nat, p: nat) {
    && (forall r, q: nat :: IsRoot(s.use, r) && q < PAGES && !(r == root && q == p) ==>
          Lookup(s'.m, r, q) == Lookup(s.m, r, q))
    && forall r, a: nat :: IsRoot(s.use, r) && !(r == root && a / 4096 == p) ==>
         UserByte(s'.m, s'.ram, r, a) == UserByte(s.m, s.ram, r, a)
  }

  ghost predicate NothingSeen(s: Snap, s': Snap) {
    forall r, a: nat :: IsRoot(s.use, r) ==> UserByte(s'.m, s'.ram, r, a) == UserByte(s.m, s.ram, r, a)
  }

  // ---- Lemmas on values --------------------------------------------------------------------------

  lemma BitsParts(perm: D.Perm)
    ensures Bits(perm) < 32 && Bits(perm) % 2 == 1 && Bits(perm) / 16 % 2 == 1
    ensures Bits(perm) / 2 % 8 != 0 <==> HasRight(perm)
  {
  }

  // The flags of an entry are its low bits.
  lemma FlagsGive(e: nat, perm: D.Perm)
    requires PteFlags(e) == Bits(perm)
    ensures Rights(e, perm)
  {
    var q, f := e / 1024, e % 1024;
    Split1024(q, f);
    Split16(q, f);
    ReadBit(q, f);
    WriteBit(q, f);
    ExecBit(q, f);
  }

  lemma ReadBit(q: nat, f: nat)
    ensures (q * 1024 + f) / 2 % 2 == f / 2 % 2
  {
    Half(q * 512 + f / 2, f % 2);
    DropTwos(q * 256, f / 2);
  }

  lemma WriteBit(q: nat, f: nat)
    ensures (q * 1024 + f) / 4 % 2 == f / 4 % 2
  {
    Quarter(q * 256 + f / 4, f % 4);
    DropTwos(q * 128, f / 4);
  }

  lemma ExecBit(q: nat, f: nat)
    ensures (q * 1024 + f) / 8 % 2 == f / 8 % 2
  {
    Eighth(q * 128 + f / 8, f % 8);
    DropTwos(q * 64, f / 8);
  }

  lemma Quarter(y: nat, b: nat)
    requires b < 4
    ensures (4 * y + b) / 4 == y
  {
  }

  lemma Eighth(y: nat, b: nat)
    requires b < 8
    ensures (8 * y + b) / 8 == y
  {
  }

  lemma DropTwos(k: nat, h: nat)
    ensures (2 * k + h) % 2 == h % 2
  {
  }

  // A free page is mapped by nobody.
  lemma FreeUnmapped(m: Mem, use: Uses, p: nat)
    requires Spaces(m, use) && p in use && use[p] == Free
    ensures NobodyMaps(m, use, p)
  {
    hide Lookup, Pte2Pa, IsLeaf, IsUser;
  }

  lemma StillUnmapped(m: Mem, m': Mem, use: Uses, p: nat, q: nat)
    requires NobodyMaps(m, use, p) && Same(m, m', use) && q in use && use[q] == Free
    ensures NobodyMaps(m', use[q := Frame], p)
  {
    hide Lookup, Pte2Pa;
  }

  // The frame just allocated may be mapped.
  lemma FrameMappable(s: Snap, s1: Snap, p: nat, mem: nat, perm: D.Perm)
    requires Spaces(s.m, s.use) && mem in s.use && s.use[mem] == Free && mem % PGSIZE == 0
    requires s1.use == s.use[mem := Frame] && Same(s.m, s1.m, s.use) && HasRight(perm)
    ensures Bits(perm) < 1024 && Mappable(s1.m, s1.use, p, 1, mem, Bits(perm))
  {
    hide Lookup, Pte2Pa, NobodyMaps, Bits, PgRoundDown;
    FreeUnmapped(s.m, s.use, mem);
    StillUnmapped(s.m, s1.m, s.use, mem, mem);
    BitsParts(perm);
    PageRoundsToItself(mem);
    assert NthPa(mem, 0) == mem;
  }

  lemma MapOneIsStep(s: Snap, s': Snap, first: nat, limit: nat, root: nat, v: nat, pa: nat, perm: nat)
    requires PagesOk(first, limit, s.m, s.ram, s.use) && PagesOk(first, limit, s'.m, s'.ram, s'.use)
    requires IsRoot(s.use, root) && pa < U64 && perm < 1024 && v < MAXPAGE && Mappable(s.m, s.use, v, 1, pa, perm)
    requires MappedOne(s.m, s'.m, s.use, root, v, MakePte(pa, perm))
    requires Grown(s.use, s'.use, root) && Kept(s.use, s.ram, s'.ram)
    ensures Step(s, Map(root, v, 1, pa, perm), s')
  {
    hide Lookup, MakePte, Mappable, Grown, Kept, PagesOk, Step;
    assert NthPa(pa, 0) == pa;
    assert MappedRange(s.m, s'.m, s.use, root, v, 1, pa, perm);
    assert Unmapped(s.m, root, v, 1);
    MapIsStep(s, s', first, limit, root, v, 1, pa, perm);
  }

  // A page mapped to a frame shows the bytes of the frame.
  lemma FrameShows(m: Mem, ram: Ram, root: nat, p: nat, mem: nat, page: D.Page)
    requires p < MAXPAGE && mem % PGSIZE == 0 && mem < U64 && Bits(page.perm) < 1024
    requires Lookup(m, root, p) == MakePte(mem, Bits(page.perm)) && mem in ram && ram[mem] == page.bytes
    requires |page.bytes| == PGSIZE
    ensures PageShows(m, ram, root, p, page)
  {
    hide Lookup, MakePte, Pte2Pa, PteFlags, IsUser, Bits, PgRoundDown, Rights;
    BitsParts(page.perm);
    MakePteParts(mem, Bits(page.perm));
    FlagsGive(MakePte(mem, Bits(page.perm)), page.perm);
    PageRoundsToItself(mem);
    forall i: nat | i < PGSIZE ensures UserByte(m, ram, root, p * PGSIZE + i) == Some(page.bytes[i]) {
      OnPage(p, i);
    }
  }

  lemma OnPage(p: nat, i: nat)
    requires i < PGSIZE
    ensures (p * PGSIZE + i) / 4096 == p && (p * PGSIZE + i) % 4096 == i
  {
  }

  // Frames in use before are as they were, so only the new page is seen.
  lemma OnlyNewPage(s: Snap, s': Snap, root: nat, p: nat, e: nat)
    requires Spaces(s.m, s.use) && RamOk(s.use, s.ram) && p < MAXPAGE
    requires MappedOne(s.m, s'.m, s.use, root, p, e) && Kept(s.use, s.ram, s'.ram)
    ensures OthersKeep(s, s', root, p)
  {
    hide Lookup, Pte2Pa, IsLeaf, IsUser;
    forall r, a: nat | IsRoot(s.use, r) && !(r == root && a / 4096 == p)
      ensures UserByte(s'.m, s'.ram, r, a) == UserByte(s.m, s.ram, r, a)
    {
      if a / 4096 < MAXPAGE { UserIsMapped(Lookup(s.m, r, a / 4096)); }
    }
  }

  lemma NoNewPage(s: Snap, s': Snap)
    requires Spaces(s.m, s.use) && RamOk(s.use, s.ram) && Same(s.m, s'.m, s.use) && Kept(s.use, s.ram, s'.ram)
    ensures NothingSeen(s, s')
  {
    hide Lookup, Pte2Pa, IsLeaf, IsUser;
    forall r, a: nat | IsRoot(s.use, r) ensures UserByte(s'.m, s'.ram, r, a) == UserByte(s.m, s.ram, r, a) {
      if a / 4096 < MAXPAGE { UserIsMapped(Lookup(s.m, r, a / 4096)); }
    }
  }

  // A page of a region lies below the trapframe.
  lemma RegionPage(v: D.Vma, p: nat)
    requires UserRegion(v) && D.Touches(v, p)
    ensures p < MAXPAGE - 2
  {
  }

  lemma KeptThrough(use: Uses, use1: Uses, ram: Ram, ram1: Ram, ram2: Ram, mem: nat, bytes: seq<Byte>)
    requires mem in use && use[mem] == Free && use1 == use[mem := Frame]
    requires Kept(use, ram, ram1) && Kept(use1, ram1, ram2) && RamOk(use, ram)
    ensures Kept(use, ram, ram2) && Kept(use, ram, ram2[mem := bytes])
  {
  }

  lemma SameAfterTake(m: Mem, m1: Mem, m2: Mem, use: Uses, mem: nat, root: nat, p: nat, e: nat)
    requires mem in use && use[mem] == Free && IsRoot(use, root) && p < MAXPAGE && Same(m, m1, use)
    ensures Same(m1, m2, use[mem := Frame]) ==> Same(m, m2, use)
    ensures MappedOne(m1, m2, use[mem := Frame], root, p, e) ==> MappedOne(m, m2, use, root, p, e)
  {
    hide Lookup;
  }

  // ---- The operations ------------------------------------------------------------------------------

  /** walkAddr as a test: 0 exactly when the page of va is no user page. */
  method Mapped(vm: Vm, root: nat, va: nat) returns (yes: bool)
    requires vm.Valid() && Spaces(vm.tab, vm.use) && IsRoot(vm.use, root)
    modifies vm
    ensures vm.Valid() && vm.Now() == old(vm.Now()) && vm.freeList == old(vm.freeList)
    ensures yes <==> UserPage(vm.tab, root, va / 4096)
  {
    hide Lookup, Pte2Pa, IsUser, FreeOk, Wf, Spaces, Private;
    SpacesPrivate(vm.tab, vm.use);
    PaIsFrame(vm.tab, vm.use, root, va / 4096, vm.first, vm.limit, vm.ram);
    var pa := vm.WalkAddr(root, va);
    return pa != 0;
  }

  /** A fresh frame for page p: zeroed, mapped, and then filled with data from at on. */
  method PutPage(vm: Vm, root: nat, p: nat, perm: D.Perm, at: nat, data: seq<Byte>, ghost page: D.Page)
    returns (r: LoadResult)
    requires vm.Valid() && Spaces(vm.tab, vm.use) && IsRoot(vm.use, root)
    requires p < MAXPAGE && HasRight(perm) && at + |data| <= PGSIZE == |D.ZeroPage().bytes|
    requires page == D.Page(D.Patch(D.ZeroPage().bytes, at, data), perm)
    modifies vm
    ensures r != NotLoaded
    ensures r.Loaded? ==>
              && vm.Valid() && Spaces(vm.tab, vm.use) && IsRoot(vm.use, root) && Lookup(old(vm.tab), root, p) == 0
              && PageShows(vm.tab, vm.ram, root, p, page) && OthersKeep(old(vm.Now()), vm.Now(), root, p)
    ensures r.Leaked? ==>
              && vm.Valid() && Spaces(vm.tab, vm.use) && IsRoot(vm.use, root) && |old(vm.freeList)| <= 2
              && Same(old(vm.tab), vm.tab, old(vm.use)) && NothingSeen(old(vm.Now()), vm.Now())
    ensures r.Stopped? <==> old(vm.freeList) == [] || Lookup(old(vm.tab), root, p) != 0
  {
    hide Lookup, Pte2Pa, IsUser, FreeOk, Wf, Spaces, Step, Same, Kept, MakePte, Bits, Mappable, MappedOne, Grown,
        PageShows, OthersKeep, NothingSeen, UserPage, PagesOk, WritePage, D.ZeroPage, D.Patch;
    ghost var s := vm.Now();
    PoolRam(vm);
    var mem := vm.NewFrame();
    if mem == 0 { return Stopped; }
    ghost var s1 := vm.Now();
    TakeKept(s, s1, mem);
    StepKeeps(s, TakeFrame(mem), s1);
    BitsParts(perm);
    PageNumber(p * PGSIZE, p);
    var res := vm.MapPage(root, p * PGSIZE, mem, Bits(perm));
    SameAfterTake(s.m, s1.m, vm.tab, s.use, mem, root, p, MakePte(mem, Bits(page.perm)));
    KeptThrough(s.use, s1.use, s.ram, s1.ram, vm.ram, mem, page.bytes);
    SameAt(s.m, s1.m, s.use, root, p);
    if res.Panicked? { return Stopped; }
    ghost var s2 := vm.Now();
    GrownRoots(s1.use, s2.use, root);
    PoolPages(vm, mem);
    FilledPage(s1, s2, mem, at, data);
    vm.ram := WritePage(vm.ram, mem, at, data);
    if res.NoMemory? {
      TablesIsStep(s1, s2, vm.first, vm.limit, root);
      StepKeeps(s1, Tables(root), s2);
      NoNewPage(s, vm.Now());
      return Leaked;
    }
    FrameMappable(s, s1, p, mem, page.perm);
    MapOneIsStep(s1, s2, vm.first, vm.limit, root, p, mem, Bits(page.perm));
    StepKeeps(s1, Map(root, p, 1, mem, Bits(page.perm)), s2);
    OnlyNewPage(s, vm.Now(), root, p, MakePte(mem, Bits(page.perm)));
    NewEntryIs(s.m, vm.tab, s.use, root, p, MakePte(mem, Bits(page.perm)));
    FrameShows(vm.tab, vm.ram, root, p, mem, page);
    return Loaded;
  }

  lemma PoolRam(vm: Vm)
    requires vm.Valid()
    ensures RamOk(vm.use, vm.ram)
  {
  }

  // A frame of the pool can be filled.
  lemma PoolPages(vm: Vm, mem: nat)
    requires vm.Valid() && mem in vm.use
    ensures mem in vm.ram
    ensures forall bytes: seq<Byte> :: |bytes| == PGSIZE ==>
              PagesOk(vm.first, vm.limit, vm.tab, vm.ram[mem := bytes], vm.use)
  {
  }

  // The zeroed frame, still zeroed after mapping, holds the page once data is written.
  lemma FilledPage(s1: Snap, s2: Snap, mem: nat, at: nat, data: seq<Byte>)
    requires mem in s1.use && s1.use[mem] == Frame && mem in s1.ram && s1.ram[mem] == Bytes(0)
    requires Kept(s1.use, s1.ram, s2.ram) && at + |data| <= PGSIZE == |D.ZeroPage().bytes|
    ensures mem in s2.ram && |s2.ram[mem]| == PGSIZE
    ensures WritePage(s2.ram, mem, at, data) == s2.ram[mem := D.Patch(D.ZeroPage().bytes, at, data)]
    ensures |D.Patch(D.ZeroPage().bytes, at, data)| == PGSIZE
  {
    D.ZeroPageIs();
    assert Bytes(0) == D.ZeroPage().bytes;
    D.PatchIs(D.ZeroPage().bytes, at, data);
  }

  lemma TakeKept(s: Snap, s1: Snap, mem: nat)
    requires mem in s.use && s.use[mem] == Free && s1.ram == s.ram[mem := Bytes(0)] && RamOk(s.use, s.ram)
    ensures Kept(s.use, s.ram, s1.ram)
  {
    hide Bytes;
  }

  lemma GrownRoots(use: Uses, use': Uses, root: nat)
    requires Grown(use, use', root)
    ensures use'.Keys == use.Keys && forall r :: IsRoot(use, r) ==> IsRoot(use', r)
    ensures forall q :: q in use && use[q] == Frame ==> use'[q] == Frame
  {
  }

  lemma SameAt(m: Mem, m': Mem, use: Uses, root: nat, p: nat)
    requires Same(m, m', use) && IsRoot(use, root) && p < MAXPAGE
    ensures Lookup(m', root, p) == Lookup(m, root, p)
  {
    hide Lookup;
  }

  lemma NewEntryIs(m: Mem, m': Mem, use: Uses, root: nat, p: nat, e: nat)
    requires MappedOne(m, m', use, root, p, e) && IsRoot(use, root) && p < MAXPAGE
    ensures Lookup(m', root, p) == e && Lookup(m, root, p) == 0
  {
    hide Lookup;
  }

  lemma ShownRights(m: Mem, ram: Ram, root: nat, p: nat, page: D.Page)
    requires PageShows(m, ram, root, p, page)
    ensures Rights(Lookup(m, root, p), page.perm)
  {
  }

  /** Loads the faulting page of a region: nothing happens if the page is not the region's or
      is there already; otherwise it is mapped once, for the user, with the rights of the
      region and its bytes, and nothing else is seen to change. */
  method LoadIfContain(vm: Vm, root: nat, v: D.Vma, va0: nat) returns (r: LoadResult)
    requires vm.Valid() && Spaces(vm.tab, vm.use) && IsRoot(vm.use, root) && UserRegion(v)
    modifies vm
    ensures r.NotLoaded? <==> !D.Touches(v, va0 / PGSIZE) || UserPage(old(vm.tab), root, va0 / PGSIZE)
    ensures r.NotLoaded? ==> vm.Valid() && vm.Now() == old(vm.Now()) && vm.freeList == old(vm.freeList)
    ensures r.Loaded? ==>
              && vm.Valid() && Spaces(vm.tab, vm.use) && IsRoot(vm.use, root)
              && PageShows(vm.tab, vm.ram, root, va0 / PGSIZE, D.Image(v, va0 / PGSIZE))
              && Rights(Lookup(vm.tab, root, va0 / PGSIZE), v.perm)
              && OthersKeep(old(vm.Now()), vm.Now(), root, va0 / PGSIZE)
    ensures r.Leaked? ==>
              && vm.Valid() && Spaces(vm.tab, vm.use) && IsRoot(vm.use, root) && |old(vm.freeList)| <= 2
              && Same(old(vm.tab), vm.tab, old(vm.use)) && NothingSeen(old(vm.Now()), vm.Now())
    ensures r.Stopped? <==> !r.NotLoaded? && (old(vm.freeList) == [] || Lookup(old(vm.tab), root, va0 / PGSIZE) != 0)
  {
    hide Lookup, Rights, FreeOk, Wf, PagesOk, Spaces, Same, PageShows, OthersKeep, NothingSeen, UserPage, IsRoot,
        D.Low, D.High,
        D.Touches, D.Clamp, D.ZeroPage, D.Patch, D.Image;
    var start, end := D.PageRoundDown(v.addr), D.PageRoundUp(v.addr + v.length);
    D.RangeIsTouches(v, va0);
    if va0 < start || va0 >= end { return NotLoaded; }
    var va := D.Clamp(v, va0);
    D.ClampStays(v, va0);
    var mapped := Mapped(vm, root, va);
    if mapped { return NotLoaded; }
    var p := va / PGSIZE;
    RegionPage(v, p);
    D.ZeroPageIs();
    if v.file.None? {
      D.NoFile(v, p);
      D.NoPatch();
      r := PutPage(vm, root, p, v.perm, 0, [], D.Image(v, p));
      if r.Loaded? { ShownRights(vm.tab, vm.ram, root, p, D.Image(v, p)); }
      return;
    }
    D.LoadedPage(v, p);
    D.OffsetFits(v, p);
    var lo := D.Low(v, p);
    var nread := D.High(v, p) - lo;
    var data := D.ReadFile(v.file.value, (v.offset + (lo - v.addr)) % U32, nread);
    r := PutPage(vm, root, p, v.perm, lo - p * PGSIZE, data, D.Image(v, p));
    if r.Loaded? { ShownRights(vm.tab, vm.ram, root, p, D.Image(v, p)); }
  }

  /** A fault brings in the page it wants, from its region or as zeros below the break, with
      every byte as loading everything at once would have it; or nothing happens, exactly when
      the page is there or none is wanted. */
  method LoadIfValid(vm: Vm, root: nat, vmas: seq<Option<D.Vma>>, sz: nat, va: nat) returns (r: LoadResult)
    requires vm.Valid() && Spaces(vm.tab, vm.use) && IsRoot(vm.use, root) && D.RegionsOk(vmas) && sz <= TRAPFRAME
    requires forall i :: 0 <= i < |vmas| && vmas[i].Some? ==> UserRegion(vmas[i].value)
    modifies vm
    ensures r.NotLoaded? <==> UserPage(old(vm.tab), root, va / PGSIZE) || D.Wanted(vmas, sz, va).None?
    ensures r.NotLoaded? ==> vm.Valid() && vm.Now() == old(vm.Now()) && vm.freeList == old(vm.freeList)
    ensures r.Loaded? ==>
              && vm.Valid() && Spaces(vm.tab, vm.use) && IsRoot(vm.use, root)
              && PageShows(vm.tab, vm.ram, root, va / PGSIZE, D.Wanted(vmas, sz, va).value)
              && OthersKeep(old(vm.Now()), vm.Now(), root, va / PGSIZE)
              && Rights(Lookup(vm.tab, root, va / PGSIZE), D.EagerPerm(vmas, va / PGSIZE))
              && forall x: nat :: x / 4096 == va / PGSIZE ==>
                   UserByte(vm.tab, vm.ram, root, x) == Some(D.EagerByte(vmas, x))
    ensures r.Leaked? ==>
              && vm.Valid() && Spaces(vm.tab, vm.use) && IsRoot(vm.use, root) && |old(vm.freeList)| <= 2
              && Same(old(vm.tab), vm.tab, old(vm.use)) && NothingSeen(old(vm.Now()), vm.Now())
    ensures r.Stopped? <==> !r.NotLoaded? && (old(vm.freeList) == [] || Lookup(old(vm.tab), root, va / PGSIZE) != 0)
  {
    hide Lookup, Rights, FreeOk, Wf, PagesOk, Spaces, Same, PageShows, OthersKeep, NothingSeen, UserPage, UserByte,
        IsRoot,
        D.Touches, D.ZeroPage, D.Patch, D.Image, D.EagerByte, D.RegionsOk;
    var mapped := Mapped(vm, root, va);
    if mapped { return NotLoaded; }
    var i := 0;
    while i < |vmas|
      invariant 0 <= i <= |vmas| && vm.Valid() && vm.Now() == old(vm.Now()) && vm.freeList == old(vm.freeList)
      invariant forall j :: 0 <= j < i ==> !D.Serves(vmas, j, va / PGSIZE)
    {
      if vmas[i].Some? {
        r := LoadIfContain(vm, root, vmas[i].value, va);
        if !r.NotLoaded? {
          D.WantedIs(vmas, sz, va, i);
          if r.Loaded? { SeenEager(vm.tab, vm.ram, root, vmas, sz, va); }
          return;
        }
      }
      i := i + 1;
    }
    if va < sz {
      D.ZeroPageIs();
      D.NoPatch();
      r := PutPage(vm, root, va / PGSIZE, D.Perm(true, true, false), 0, [], D.ZeroPage());
      if r.Loaded? { SeenEager(vm.tab, vm.ram, root, vmas, sz, va); }
      return;
    }
    return NotLoaded;
  }

  // What a page that is wanted shows, address by address.
  lemma SeenEager(m: Mem, ram: Ram, root: nat, vmas: seq<Option<D.Vma>>, sz: nat, va: nat)
    requires D.RegionsOk(vmas) && D.Wanted(vmas, sz, va).Some?
    requires PageShows(m, ram, root, va / PGSIZE, D.Wanted(vmas, sz, va).value)
    ensures forall x: nat :: x / 4096 == va / PGSIZE ==> UserByte(m, ram, root, x) == Some(D.EagerByte(vmas, x))
    ensures Rights(Lookup(m, root, va / PGSIZE), D.EagerPerm(vmas, va / PGSIZE))
  {
    hide Rights, D.EagerPerm, UserByte, D.EagerByte, D.RegionsOk, D.Wanted, Lookup, UserPage;
    D.WantedEager(vmas, sz, va);
    var p, page := va / PGSIZE, D.Wanted(vmas, sz, va).value;
    forall x: nat | x / 4096 == p ensures UserByte(m, ram, root, x) == Some(D.EagerByte(vmas, x)) {
      var i := x % 4096;
      assert x == p * PGSIZE + i;
      assert page.bytes[i] == D.EagerByte(vmas, p * PGSIZE + i);
      assert UserByte(m, ram, root, p * PGSIZE + i) == Some(page.bytes[i]);
    }
  }

  // ---- Faults over the tables are faults over the flat map ----------------------------------------------

  // The user pages of the address space are these, with these rights and bytes.
  ghost predicate Shows(m: Mem, ram: Ram, root: nat, pages: map<nat, D.Page>) {
    && (forall p: nat :: UserPage(m, root, p) <==> p in pages)
    && forall p: nat :: p in pages ==> PageShows(m, ram, root, p, pages[p])
  }

  /** A fault that is served or refused takes the flat map of pages where D.Fault says, so
      what is proved of runs of faults holds of the tables and frames. */
  lemma FaultShown(s: Snap, s': Snap, root: nat, pages: map<nat, D.Page>, vmas: seq<Option<D.Vma>>, sz: nat, va: nat)
    requires Shows(s.m, s.ram, root, pages) && IsRoot(s.use, root)
    requires if UserPage(s.m, root, va / PGSIZE) || D.Wanted(vmas, sz, va).None? then s' == s
             else
               && PageShows(s'.m, s'.ram, root, va / PGSIZE, D.Wanted(vmas, sz, va).value)
               && OthersKeep(s, s', root, va / PGSIZE)
    ensures Shows(s'.m, s'.ram, root, D.Fault(pages, vmas, sz, va))
  {
    hide UserByte, D.Wanted, Rights, Lookup, UserPage;
    var p := va / PGSIZE;
    var pages' := D.Fault(pages, vmas, sz, va);
    if !UserPage(s.m, root, p) && D.Wanted(vmas, sz, va).Some? {
      forall q: nat ensures UserPage(s'.m, root, q) <==> q in pages' {
        if q != p { EntrySameUser(s, s', root, p, q); }
      }
      forall q: nat | q in pages' ensures PageShows(s'.m, s'.ram, root, q, pages'[q]) {
        if q != p {
          assert PageShows(s.m, s.ram, root, q, pages[q]);
          PageStill(s, s', root, p, q, pages[q]);
        }
      }
    }
  }

  lemma EntrySameUser(s: Snap, s': Snap, root: nat, p: nat, q: nat)
    requires OthersKeep(s, s', root, p) && q != p && IsRoot(s.use, root)
    ensures UserPage(s'.m, root, q) <==> UserPage(s.m, root, q)
  {
    hide Lookup, IsUser, UserByte;
  }

  lemma PageStill(s: Snap, s': Snap, root: nat, p: nat, q: nat, page: D.Page)
    requires OthersKeep(s, s', root, p) && q != p && PageShows(s.m, s.ram, root, q, page) && IsRoot(s.use, root)
    ensures PageShows(s'.m, s'.ram, root, q, page)
  {
    hide Lookup, UserByte, Rights, IsUser;
    EntrySameUser(s, s', root, p, q);
    forall i: nat | i < PGSIZE ensures UserByte(s'.m, s'.ram, root, q * PGSIZE + i) == Some(page.bytes[i]) {
      OnPage(q, i);
    }
  }

  // What a run of faults shows at an address on a page it brought in.
  lemma ShownEager(m: Mem, ram: Ram, root: nat, pages: map<nat, D.Page>, vmas: seq<Option<D.Vma>>, sz: nat,
                   vas: seq<nat>, x: nat)
    requires D.RegionsOk(vmas) && Shows(m, ram, root, D.Faults(pages, vmas, sz, vas)) && x / 4096 !in pages
    ensures UserByte(m, ram, root, x) ==
            if D.Asked(vmas, sz, vas, x / 4096) then Some(D.EagerByte(vmas, x)) else None
  {
    hide UserByte, D.EagerByte, D.EagerPerm, D.RegionsOk, D.Asked, D.Faults, UserPage, Rights, Lookup;
    var p: nat, i: nat := x / 4096, x % 4096;
    D.FaultsAreEager(pages, vmas, sz, vas, p);
    if D.Asked(vmas, sz, vas, p) {
      var page := D.Faults(pages, vmas, sz, vas)[p];
      assert x == p * PGSIZE + i;
      assert page.bytes[i] == D.EagerByte(vmas, p * PGSIZE + i);
      assert UserByte(m, ram, root, p * PGSIZE + i) == Some(page.bytes[i]);
    } else {
      NotSeen(m, ram, root, x);
    }
  }

  lemma NotSeen(m: Mem, ram: Ram, root: nat, x: nat)
    requires !UserPage(m, root, x / 4096)
    ensures UserByte(m, ram, root, x) == None
  {
    hide UserPage;
  }

  /** A client of the operations: any faults, served one after the other, bring in what eager
      loading would have put there, and nothing else. */
  method FaultRun(vm: Vm, root: nat, vmas: seq<Option<D.Vma>>, sz: nat, vas: seq<nat>, ghost pages: map<nat, D.Page>)
    returns (served: bool)
    requires vm.Valid() && Spaces(vm.tab, vm.use) && IsRoot(vm.use, root) && D.RegionsOk(vmas) && sz <= TRAPFRAME
    requires forall i :: 0 <= i < |vmas| && vmas[i].Some? ==> UserRegion(vmas[i].value)
    requires Shows(vm.tab, vm.ram, root, pages)
    modifies vm
    ensures served ==> vm.Valid() && Spaces(vm.tab, vm.use) && IsRoot(vm.use, root)
    ensures served ==> Shows(vm.tab, vm.ram, root, D.Faults(pages, vmas, sz, vas))
    ensures served ==> forall x: nat :: x / 4096 !in pages ==>
              UserByte(vm.tab, vm.ram, root, x) ==
                if D.Asked(vmas, sz, vas, x / 4096) then Some(D.EagerByte(vmas, x)) else None
  {
    hide Lookup, Rights, FreeOk, Wf, PagesOk, Spaces, Same, PageShows, OthersKeep, NothingSeen, UserPage, UserByte,
        IsRoot,
        Shows, D.Wanted, D.EagerByte, D.RegionsOk, D.Asked, D.Fault, UserRegion;
    var k := 0;
    while k < |vas|
      invariant 0 <= k <= |vas| && vm.Valid() && Spaces(vm.tab, vm.use) && IsRoot(vm.use, root)
      invariant Shows(vm.tab, vm.ram, root, D.Faults(pages, vmas, sz, vas[..k]))
    {
      ghost var s := vm.Now();
      var r := LoadIfValid(vm, root, vmas, sz, vas[k]);
      if r.Leaked? || r.Stopped? { return false; }
      FaultShown(s, vm.Now(), root, D.Faults(pages, vmas, sz, vas[..k]), vmas, sz, vas[k]);
      assert vas[..k + 1][..k] == vas[..k];
      k := k + 1;
    }
    assert vas[..k] == vas;
    forall x: nat | x / 4096 !in pages
      ensures UserByte(vm.tab, vm.ram, root, x) ==
              if D.Asked(vmas, sz, vas, x / 4096) then Some(D.EagerByte(vmas, x)) else None
    {
      ShownEager(vm.tab, vm.ram, root, pages, vmas, sz, vas, x);
    }
    return true;
  }
}
