/** Runs of the operations of VmManager over many address spaces: the one invariant they
    all keep, and what it gives: no operation on one space is seen in another. */
module VmRuns {
  import opened Common
  import opened Riscv
  import opened PageTable
  import opened VmSpec

  // The tables, the uses and the bytes of the pages of the pool.
  datatype Snap = Snap(m: Mem, use: Uses, ram: Ram)

  // The page of the trampoline, the only one mapped to a page outside the pool.
  const TOP_PAGE: nat := MAXPAGE - 1

  // What an entry of page v may be: a leaf to a data frame, or the trampoline.
  predicate EntryOk(use: Uses, v: nat, e: nat) {
    && v < MAXPAGE && IsLeaf(e)
    && (Pte2Pa(e) in use ==> use[Pte2Pa(e)] == Frame)
    && (Pte2Pa(e) !in use ==> v == TOP_PAGE && !IsUser(e))
  }

  /** The address-space invariant: whatever any space maps is a leaf, and a page of the
      pool that is mapped anywhere is a data frame and mapped once. */
  ghost predicate Spaces(m: Mem, use: Uses) {
    && (forall r, v: nat :: IsRoot(use, r) && v < PAGES && Lookup(m, r, v) != 0 ==> EntryOk(use, v, Lookup(m, r, v)))
    && (forall r, v: nat, r', v': nat ::
          (IsRoot(use, r) && v < PAGES && Lookup(m, r, v) != 0 &&
           IsRoot(use, r') && v' < PAGES && Lookup(m, r', v') != 0 &&
           Pte2Pa(Lookup(m, r, v)) in use && Pte2Pa(Lookup(m, r, v)) == Pte2Pa(Lookup(m, r', v'))) ==>
               r == r' && v == v')
  }

  // ---- What the invariant gives the operations -------------------------------------------------

  lemma UserIsMapped(e: nat)
    ensures IsUser(e) ==> e != 0
  {
  }

  lemma SpacesPrivate(m: Mem, use: Uses)
    requires Spaces(m, use)
    ensures Private(m, use)
  {
    hide Lookup, Pte2Pa, IsLeaf, IsUser;
    forall r, v: nat | IsRoot(use, r) && UserPage(m, r, v)
      ensures Lookup(m, r, v) != 0 && Pte2Pa(Lookup(m, r, v)) in use && use[Pte2Pa(Lookup(m, r, v))] == Frame
    {
      UserIsMapped(Lookup(m, r, v));
    }
  }

  lemma SpacesOwns(m: Mem, use: Uses, root: nat, lo: nat, hi: nat)
    requires Spaces(m, use) && IsRoot(use, root) && hi <= TOP_PAGE
    ensures OwnsRange(m, use, root, lo, hi) && HasFrames(m, use, root, hi) && MapsLeaves(m, root)
  {
    hide Lookup, Pte2Pa, IsLeaf, IsUser;
  }

  // A pool without tables maps nothing.
  lemma SpacesAtStart(m: Mem, use: Uses)
    requires forall p :: p in use ==> use[p] == Free
    ensures Spaces(m, use)
  {
  }

  // ---- Operations ---------------------------------------------------------------------------------

  /** What can be done to the address spaces; each is what one operation promises. */
  datatype Op =
    | Create(root: nat)
    | Tables(root: nat)
    | Alloc(root: nat, lo: nat, hi: nat)
    | Map(root: nat, lo: nat, n: nat, pa: nat, perm: nat)
    | Unmap(root: nat, lo: nat, hi: nat, doFree: bool)
    | Fork(parent: nat, child: nat, k: nat)
    | Write(root: nat, lo: nat, data: seq<Byte>)
    | TakeFrame(p: nat)
    | GiveFrame(p: nat)
    | TearDown(root: nat, n: nat, frame: Option<nat>)

  ghost predicate NobodyMaps(m: Mem, use: Uses, p: nat) {
    forall r, v: nat :: IsRoot(use, r) && v < PAGES && Lookup(m, r, v) != 0 ==> Pte2Pa(Lookup(m, r, v)) != p
  }

  // The pages from pa on may be mapped at lo: data frames that nobody maps, or the
  // trampoline, and with rights that make a leaf.
  ghost predicate Mappable(m: Mem, use: Uses, lo: nat, n: nat, pa: nat, perm: nat)
    requires perm < 1024
  {
    && perm / 2 % 8 != 0
    && forall i: nat :: i < n ==>
         var p := PgRoundDown(NthPa(pa, i));
         if p in use then use[p] == Frame && NobodyMaps(m, use, p) else lo + i == TOP_PAGE && perm / 16 % 2 == 0
  }

  predicate RamOk(use: Uses, ram: Ram) { forall p :: p in use ==> p in ram && |ram[p]| == PGSIZE }

  // Taking a frame out of use, as freeTask does with the trapframe.
  function Released(use: Uses, frame: Option<nat>): Uses {
    if frame.Some? then use[frame.value := Free] else use
  }

  ghost predicate Step(s: Snap, op: Op, s': Snap) {
    && RamOk(s.use, s.ram) && RamOk(s'.use, s'.ram)
    && match op
       case Create(root) =>
         && root in s.use && s.use[root] == Free && s'.use == s.use[root := Table(root, Root)]
         && Same(s.m, s'.m, s.use) && NothingMappedBy(s'.m, root) && Kept(s.use, s.ram, s'.ram)
       case Tables(root) => Same(s.m, s'.m, s.use) && Grown(s.use, s'.use, root) && Kept(s.use, s.ram, s'.ram)
       case Alloc(root, lo, hi) =>
         && IsRoot(s.use, root) && (lo < hi ==> hi <= MAXPAGE)
         && Outside(s.m, s'.m, s.use, root, lo, hi) && GrownBy(s'.m, s.use, s'.use, root, lo, hi)
         && Backed(s'.m, s.use, s'.use, s'.ram, root, lo, hi, 31) && Kept(s.use, s.ram, s'.ram)
       case Map(root, lo, n, pa, perm) =>
         && IsRoot(s.use, root) && pa < U64 && perm < 1024 && Mappable(s.m, s.use, lo, n, pa, perm)
         && MappedRange(s.m, s'.m, s.use, root, lo, n, pa, perm) && Unmapped(s.m, root, lo, n)
         && Grown(s.use, s'.use, root) && Kept(s.use, s.ram, s'.ram)
       case Unmap(root, lo, hi, doFree) =>
         && IsRoot(s.use, root) && (lo < hi ==> hi <= MAXPAGE)
         && Cleared(s.m, s'.m, s.use, root, lo, hi) && Freed(s.m, s.use, s'.use, root, lo, hi, doFree)
         && Kept(s'.use, s.ram, s'.ram) && (forall r :: IsRoot(s.use, r) ==> IsRoot(s'.use, r))
       case Fork(parent, child, k) => Forked(s.m, s'.m, s.use, s'.use, s.ram, s'.ram, parent, child, k)
       case Write(root, lo, data) => s'.m == s.m && s'.use == s.use &&
           Written(s.m, s.ram, s'.ram, s.use, root, lo, data)
       case TakeFrame(p) =>
         && p in s.use && s.use[p] == Free && s'.use == s.use[p := Frame]
         && Same(s.m, s'.m, s.use) && Kept(s.use, s.ram, s'.ram)
       case GiveFrame(p) =>
         && p in s.use && s.use[p] == Frame && NobodyMaps(s.m, s.use, p) && s'.use == s.use[p := Free]
         && Same(s.m, s'.m, s.use) && Kept(s'.use, s.ram, s'.ram)
       case TearDown(root, n, frame) =>
         && IsRoot(s.use, root) && OnlyUserPages(s.m, root, n) && n <= TOP_PAGE
         && (frame.Some? ==> OwnFrame(s, root, frame.value))
         && TornDown(s.m, Released(s.use, frame), s'.use, root, n)
         && OthersTranslate(s.m, s'.m, s.use, root) && Kept(s'.use, s.ram, s'.ram)
  }

  // The frame is a data frame that only root maps, if any.
  ghost predicate OwnFrame(s: Snap, root: nat, p: nat) {
    && p in s.use && s.use[p] == Frame
    && forall r, v: nat :: IsRoot(s.use, r) && r != root && v < PAGES && Lookup(s.m, r, v) != 0 ==>
        Pte2Pa(Lookup(s.m, r, v)) != p
  }

  ghost predicate OthersTranslate(m: Mem, m': Mem, use: Uses, root: nat) {
    forall r, v: nat :: IsRoot(use, r) && r != root && v < PAGES ==> Lookup(m', r, v) == Lookup(m, r, v)
  }

  // ---- Every operation keeps the invariant ----------------------------------------------------------

  // An entry that was fine stays so while its frame stays in use.
  lemma SameKeeps(m: Mem, m': Mem, use: Uses, use': Uses)
    requires Spaces(m, use) && use'.Keys == use.Keys
    requires forall r, v: nat :: IsRoot(use', r) && v < PAGES && Lookup(m', r, v) != 0 ==>
               IsRoot(use, r) && Lookup(m', r, v) == Lookup(m, r, v)
    requires forall r, v: nat ::
               (IsRoot(use', r) && v < PAGES && Lookup(m', r, v) != 0 && Pte2Pa(Lookup(m', r, v)) in use) ==>
               use'[Pte2Pa(Lookup(m', r, v))] == use[Pte2Pa(Lookup(m', r, v))]
    ensures Spaces(m', use')
  {
    hide Lookup, Pte2Pa, IsLeaf, IsUser;
  }

  lemma CreateKeeps(s: Snap, op: Op, s': Snap)
    requires Spaces(s.m, s.use) && Step(s, op, s') && op.Create?
    ensures Spaces(s'.m, s'.use)
  {
    hide Lookup, Pte2Pa, IsLeaf, IsUser;
    assert s'.use.Keys == s.use.Keys;
    SameKeeps(s.m, s'.m, s.use, s'.use);
  }

  lemma TablesKeeps(s: Snap, op: Op, s': Snap)
    requires Spaces(s.m, s.use) && Step(s, op, s') && op.Tables?
    ensures Spaces(s'.m, s'.use)
  {
    hide Lookup, Pte2Pa, IsLeaf, IsUser;
    SameKeeps(s.m, s'.m, s.use, s'.use);
  }

  lemma FrameKeeps(s: Snap, op: Op, s': Snap)
    requires Spaces(s.m, s.use) && Step(s, op, s') && (op.TakeFrame? || op.GiveFrame?)
    ensures Spaces(s'.m, s'.use)
  {
    hide Lookup, Pte2Pa, IsLeaf, IsUser;
    assert s'.use.Keys == s.use.Keys;
    SameKeeps(s.m, s'.m, s.use, s'.use);
  }

  lemma UnmapKeeps(s: Snap, op: Op, s': Snap)
    requires Spaces(s.m, s.use) && Step(s, op, s') && op.Unmap?
    ensures Spaces(s'.m, s'.use)
  {
    hide Lookup, Pte2Pa, IsLeaf, IsUser;
    forall r, v: nat | IsRoot(s'.use, r) && v < PAGES && Lookup(s'.m, r, v) != 0
      ensures IsRoot(s.use, r) && Lookup(s'.m, r, v) == Lookup(s.m, r, v)
      ensures Pte2Pa(Lookup(s'.m, r, v)) in s.use ==>
                s'.use[Pte2Pa(Lookup(s'.m, r, v))] == s.use[Pte2Pa(Lookup(s'.m, r, v))]
    {
      NotInRange(s, op, s', r, v);
    }
    SameKeeps(s.m, s'.m, s.use, s'.use);
  }

  // What is still mapped is not among the frames freed.
  lemma NotInRange(s: Snap, op: Op, s': Snap, r: nat, v: nat)
    requires Spaces(s.m, s.use) && Step(s, op, s') && op.Unmap?
    requires IsRoot(s'.use, r) && v < PAGES && Lookup(s'.m, r, v) != 0
    ensures IsRoot(s.use, r) && Lookup(s'.m, r, v) == Lookup(s.m, r, v)
    ensures Pte2Pa(Lookup(s.m, r, v)) in s.use ==> !FrameIn(s.m, op.root, op.lo, op.hi, Pte2Pa(Lookup(s.m, r, v)))
  {
    hide Lookup, Pte2Pa, IsLeaf, IsUser;
    assert IsRoot(s.use, r);
  }

  lemma TearDownKeeps(s: Snap, op: Op, s': Snap)
    requires Spaces(s.m, s.use) && Step(s, op, s') && op.TearDown?
    ensures Spaces(s'.m, s'.use)
  {
    hide Lookup, Pte2Pa, IsLeaf, IsUser;
    assert s'.use.Keys == s.use.Keys;
    forall r, v: nat | IsRoot(s'.use, r) && v < PAGES && Lookup(s'.m, r, v) != 0
      ensures IsRoot(s.use, r) && Lookup(s'.m, r, v) == Lookup(s.m, r, v)
      ensures Pte2Pa(Lookup(s'.m, r, v)) in s.use ==>
                s'.use[Pte2Pa(Lookup(s'.m, r, v))] == s.use[Pte2Pa(Lookup(s'.m, r, v))]
    {
      NotTorn(s, op, s', r, v);
    }
    SameKeeps(s.m, s'.m, s.use, s'.use);
  }

  lemma NotTorn(s: Snap, op: Op, s': Snap, r: nat, v: nat)
    requires Spaces(s.m, s.use) && Step(s, op, s') && op.TearDown?
    requires IsRoot(s'.use, r) && v < PAGES && Lookup(s'.m, r, v) != 0
    ensures IsRoot(s.use, r) && r != op.root && Lookup(s'.m, r, v) == Lookup(s.m, r, v)
    ensures Pte2Pa(Lookup(s.m, r, v)) in s.use ==>
              s'.use[Pte2Pa(Lookup(s.m, r, v))] == s.use[Pte2Pa(Lookup(s.m, r, v))]
  {
    hide Lookup, Pte2Pa, IsLeaf, IsUser;
    assert IsRoot(s.use, r) && r != op.root;
  }

  // A page of root that now has a frame of its own, free before.
  ghost predicate Fresh(m': Mem, use: Uses, use': Uses, root: nat, v: nat) {
    var e := Lookup(m', root, v);
    e != 0 && IsLeaf(e) && Pte2Pa(e) in use && use[Pte2Pa(e)] == Free && Pte2Pa(e) in use' && use'[Pte2Pa(e)] == Frame
  }

  lemma FreshKeeps(m: Mem, m': Mem, use: Uses, use': Uses, root: nat, lo: nat, hi: nat)
    requires Spaces(m, use) && IsRoot(use, root) && (lo < hi ==> hi <= MAXPAGE)
    requires Outside(m, m', use, root, lo, hi) && GrownBy(m', use, use', root, lo, hi)
    requires forall v: nat :: lo <= v < hi ==>
               Lookup(m', root, v) == Lookup(m, root, v) || Fresh(m', use, use', root, v)
    requires forall v: nat, w: nat ::
               (lo <= v < w < hi && Fresh(m', use, use', root, v) && Fresh(m', use, use', root, w)) ==>
               Pte2Pa(Lookup(m', root, v)) != Pte2Pa(Lookup(m', root, w))
    ensures Spaces(m', use')
  {
    hide Lookup, Pte2Pa, IsLeaf, IsUser, FrameIn;
    forall r, v: nat | IsRoot(use', r) && v < PAGES && Lookup(m', r, v) != 0
      ensures OldOrFresh(m, m', use, use', root, lo, hi, r, v)
    {
      assert IsRoot(use, r);
    }
    forall r, v: nat, r', v': nat |
      IsRoot(use', r) && v < PAGES && Lookup(m', r, v) != 0 && IsRoot(use', r') && v' < PAGES &&
          Lookup(m', r', v') != 0 &&
      Pte2Pa(Lookup(m', r, v)) in use' && Pte2Pa(Lookup(m', r, v)) == Pte2Pa(Lookup(m', r', v'))
      ensures r == r' && v == v'
    {
      assert OldOrFresh(m, m', use, use', root, lo, hi, r, v);
      assert OldOrFresh(m, m', use, use', root, lo, hi, r', v');
    }
  }

  // Where the entry of page v of r comes from.
  ghost predicate OldOrFresh(m: Mem, m': Mem, use: Uses, use': Uses, root: nat, lo: nat, hi: nat, r: nat, v: nat) {
    && IsRoot(use, r) && EntryOk(use', v, Lookup(m', r, v))
    && if Lookup(m', r, v) == Lookup(m, r, v) then EntryOk(use, v, Lookup(m, r, v))
       else r == root && lo <= v < hi && Fresh(m', use, use', root, v)
  }

  lemma AllocKeeps(s: Snap, op: Op, s': Snap)
    requires Spaces(s.m, s.use) && Step(s, op, s') && op.Alloc?
    ensures Spaces(s'.m, s'.use)
  {
    hide Lookup, Pte2Pa, IsLeaf, IsUser, PteFlags, Bytes, FrameIn;
    forall v: nat | op.lo <= v < op.hi ensures Fresh(s'.m, s.use, s'.use, op.root, v) {
      FlagsDecide(Lookup(s'.m, op.root, v));
    }
    FreshKeeps(s.m, s'.m, s.use, s'.use, op.root, op.lo, op.hi);
  }

  lemma FlagsDecide(e: nat)
    ensures IsLeaf(e) <==> PteFlags(e) / 2 % 8 != 0
  {
  }

  lemma ForkKeeps(s: Snap, op: Op, s': Snap)
    requires Spaces(s.m, s.use) && Step(s, op, s') && op.Fork?
    ensures Spaces(s'.m, s'.use)
  {
    hide Lookup, Pte2Pa, IsLeaf, IsUser, PteFlags, FrameIn, Kept;
    forall v: nat | v < op.k
      ensures if Lookup(s.m, op.parent, v) == 0 then Lookup(s'.m, op.child, v) == Lookup(s.m, op.child, v)
              else Fresh(s'.m, s.use, s'.use, op.child, v)
    {
      assert CopiedPage(s.m, s'.m, s.use, s'.use, s.ram, s'.ram, op.parent, op.child, v);
      FlagsDecide(Lookup(s'.m, op.child, v));
      FlagsDecide(Lookup(s.m, op.parent, v));
    }
    forall v: nat | v < op.k && Fresh(s'.m, s.use, s'.use, op.child, v) ensures Lookup(s.m, op.parent, v) != 0 {
      assert Lookup(s.m, op.child, v) != 0 ==> EntryOk(s.use, v, Lookup(s.m, op.child, v));
    }
    FreshKeeps(s.m, s'.m, s.use, s'.use, op.child, 0, op.k);
  }

  // The page a mapped entry leads to, and that n pages from pa on are distinct.
  lemma NthDistinct(pa: nat, i: nat, j: nat)
    requires pa < U64 && i < j < MAXPAGE
    ensures PgRoundDown(NthPa(pa, i)) != PgRoundDown(NthPa(pa, j))
  {
    NthPaClosed(pa, i);
    NthPaClosed(pa, j);
    StepsApart((pa + i * PGSIZE) % U64, j - i);
    Reassociate(pa + i * PGSIZE, (j - i) * PGSIZE);
  }

  lemma Reassociate(x: nat, y: nat)
    ensures (x % U64 + y) % U64 == (x + y) % U64
  {
  }

  lemma StepsApart(x: nat, d: nat)
    requires x < U64 && 0 < d < MAXPAGE
    ensures PgRoundDown(x) != PgRoundDown((x + d * PGSIZE) % U64)
  {
    var y := x + d * PGSIZE;
    if y < U64 {
      assert y % U64 == y;
    } else {
      assert y % U64 == y - U64;
    }
  }

  lemma {:induction false} NthBelow(pa: nat, i: nat)
    requires pa < U64
    ensures NthPa(pa, i) < U64
  {
    if i > 0 { NthBelow(pa, i - 1); }
  }

  lemma MapKeeps(s: Snap, op: Op, s': Snap)
    requires Spaces(s.m, s.use) && Step(s, op, s') && op.Map?
    ensures Spaces(s'.m, s'.use)
  {
    hide Lookup, Pte2Pa, IsLeaf, IsUser, MakePte, NthPa, PgRoundDown;
    forall r, v: nat | IsRoot(s'.use, r) && v < PAGES && Lookup(s'.m, r, v) != 0
      ensures OldOrMapped(s, op, s', r, v)
    {
      NewEntry(s, op, s', r, v);
    }
    forall r, v: nat, r', v': nat |
      IsRoot(s'.use, r) && v < PAGES && Lookup(s'.m, r, v) != 0 && IsRoot(s'.use, r') && v' < PAGES &&
          Lookup(s'.m, r', v') != 0 &&
      Pte2Pa(Lookup(s'.m, r, v)) in s'.use && Pte2Pa(Lookup(s'.m, r, v)) == Pte2Pa(Lookup(s'.m, r', v'))
      ensures r == r' && v == v'
    {
      assert OldOrMapped(s, op, s', r, v) && OldOrMapped(s, op, s', r', v');
      if Lies(op, r, v) && Lies(op, r', v') && v != v' {
        if v < v' { NthDistinct(op.pa, v - op.lo, v' - op.lo); } else { NthDistinct(op.pa, v' - op.lo, v - op.lo); }
      }
    }
  }

  predicate Lies(op: Op, r: nat, v: nat) { op.Map? && r == op.root && op.lo <= v < op.lo + op.n }

  ghost predicate OldOrMapped(s: Snap, op: Op, s': Snap, r: nat, v: nat) {
    && IsRoot(s.use, r) && EntryOk(s'.use, v, Lookup(s'.m, r, v))
    && if Lies(op, r, v) then
         && op.lo + op.n <= MAXPAGE
         && Pte2Pa(Lookup(s'.m, r, v)) == PgRoundDown(NthPa(op.pa, v - op.lo))
         && (Pte2Pa(Lookup(s'.m, r, v)) in s.use ==> NobodyMaps(s.m, s.use, Pte2Pa(Lookup(s'.m, r, v))))
       else Lookup(s'.m, r, v) == Lookup(s.m, r, v)
  }

  lemma NewEntry(s: Snap, op: Op, s': Snap, r: nat, v: nat)
    requires Spaces(s.m, s.use) && Step(s, op, s') && op.Map?
    requires IsRoot(s'.use, r) && v < PAGES && Lookup(s'.m, r, v) != 0
    ensures OldOrMapped(s, op, s', r, v)
  {
    hide Lookup, Pte2Pa, IsLeaf, IsUser, MakePte, NthPa, PgRoundDown, NobodyMaps;
    assert IsRoot(s.use, r);
    if Lies(op, r, v) {
      var pa := NthPa(op.pa, v - op.lo);
      NthBelow(op.pa, v - op.lo);
      MakePteParts(pa, op.perm);
    }
  }

  /** Every operation keeps the address-space invariant. */
  lemma StepKeeps(s: Snap, op: Op, s': Snap)
    requires Spaces(s.m, s.use) && Step(s, op, s')
    ensures Spaces(s'.m, s'.use)
  {
    hide Spaces, Step;
    match op
    case Create(_) => CreateKeeps(s, op, s');
    case Tables(_) => TablesKeeps(s, op, s');
    case Alloc(_, _, _) => AllocKeeps(s, op, s');
    case Map(_, _, _, _, _) => MapKeeps(s, op, s');
    case Unmap(_, _, _, _) => UnmapKeeps(s, op, s');
    case Fork(_, _, _) => ForkKeeps(s, op, s');
    case Write(_, _, _) => WriteKeeps(s, op, s');
    case TakeFrame(_) => FrameKeeps(s, op, s');
    case GiveFrame(_) => FrameKeeps(s, op, s');
    case TearDown(_, _, _) => TearDownKeeps(s, op, s');
  }

  lemma WriteKeeps(s: Snap, op: Op, s': Snap)
    requires Spaces(s.m, s.use) && Step(s, op, s') && op.Write?
    ensures Spaces(s'.m, s'.use)
  {
  }

  // ---- No operation on one space is seen in another ----------------------------------------------------

  // The operation may change what address space r has at address a.
  predicate Touches(op: Op, r: nat, a: nat) {
    match op
    case Create(root) => r == root
    case Tables(_) => false
    case Alloc(root, lo, hi) => r == root && lo <= a / 4096 < hi
    case Map(root, lo, n, _, _) => r == root && lo <= a / 4096 < lo + n
    case Unmap(root, lo, hi, _) => r == root && lo <= a / 4096 < hi
    case Fork(_, child, k) => r == child && a / 4096 < k
    case Write(root, lo, data) => r == root && lo <= a < lo + |data|
    case TakeFrame(_) => false
    case GiveFrame(_) => false
    case TearDown(root, _, _) => r == root
  }

  // The entry of an untouched page stays, and so does its frame.
  lemma UntouchedEntry(s: Snap, op: Op, s': Snap, r: nat, a: nat)
    requires Spaces(s.m, s.use) && Step(s, op, s') && !op.Write?
    requires IsRoot(s.use, r) && !Touches(op, r, a) && a / 4096 < MAXPAGE
    ensures var e := Lookup(s.m, r, a / 4096);
            && Lookup(s'.m, r, a / 4096) == e
            && (IsUser(e) ==> Pte2Pa(e) in s.use && s.use[Pte2Pa(e)] == Frame && s'.ram[Pte2Pa(e)] == s.ram[Pte2Pa(e)])
  {
    hide Lookup, Pte2Pa, IsLeaf, IsUser;
    var e := Lookup(s.m, r, a / 4096);
    UserIsMapped(e);
    if op.Unmap? && e != 0 {
      NotInRange(s, op, s', r, a / 4096);
    } else if op.TearDown? {
      assert IsRoot(s'.use, r);
      if e != 0 { NotTorn(s, op, s', r, a / 4096); }
    }
  }

  lemma UntouchedByte(s: Snap, op: Op, s': Snap, r: nat, a: nat)
    requires Spaces(s.m, s.use) && Step(s, op, s') && IsRoot(s.use, r) && !Touches(op, r, a)
    ensures IsRoot(s'.use, r) && UserByte(s'.m, s'.ram, r, a) == UserByte(s.m, s.ram, r, a)
  {
    hide Lookup, Pte2Pa, IsUser, Spaces;
    RootStays(s, op, s', r, a);
    if op.Write? {
    } else if a / 4096 < MAXPAGE {
      UntouchedEntry(s, op, s', r, a);
    }
  }

  lemma RootStays(s: Snap, op: Op, s': Snap, r: nat, a: nat)
    requires Spaces(s.m, s.use) && Step(s, op, s') && IsRoot(s.use, r) && !Touches(op, r, a)
    ensures IsRoot(s'.use, r)
  {
    hide Lookup, Pte2Pa, Same, Kept, Outside;
  }

  // States and the operations between them.
  ghost predicate IsRun(states: seq<Snap>, ops: seq<Op>) {
    && |states| == |ops| + 1 && Spaces(states[0].m, states[0].use)
    && forall i :: 0 <= i < |ops| ==> Step(states[i], ops[i], states[i + 1])
  }

  /** Whole runs keep the address-space invariant. */
  lemma {:induction false} RunKeeps(states: seq<Snap>, ops: seq<Op>, i: nat)
    requires IsRun(states, ops) && i < |states|
    ensures Spaces(states[i].m, states[i].use)
  {
    hide Spaces, Step;
    if i > 0 {
      RunKeeps(states, ops, i - 1);
      StepKeeps(states[i - 1], ops[i - 1], states[i]);
    }
  }

  /** Over any run, what space r reads at a is changed only by operations on r at a. */
  lemma {:induction false} RunIsolation(states: seq<Snap>, ops: seq<Op>, r: nat, a: nat, i: nat)
    requires IsRun(states, ops) && i < |states| && IsRoot(states[0].use, r)
    requires forall j :: 0 <= j < i ==> !Touches(ops[j], r, a)
    ensures IsRoot(states[i].use, r)
    ensures UserByte(states[i].m, states[i].ram, r, a) == UserByte(states[0].m, states[0].ram, r, a)
  {
    hide Spaces, Step, UserByte, Touches, IsRoot;
    if i > 0 {
      RunIsolation(states, ops, r, a, i - 1);
      RunKeeps(states, ops, i - 1);
      UntouchedByte(states[i - 1], ops[i - 1], states[i], r, a);
    }
  }

  /** Fork isolation: after a fork, through any run of operations on any spaces, the parent
      and the child each go on reading the byte of the time of the fork at every address
      that no operation on that same space touches. */
  lemma ForkIsolation(s: Snap, parent: nat, child: nat, k: nat, states: seq<Snap>, ops: seq<Op>, reader: nat, a: nat,
                      i: nat)
    requires IsRun(states, ops) && Spaces(s.m, s.use) && parent != child && Step(s, Fork(parent, child, k), states[0])
    requires i < |states| && a / 4096 < k && Lookup(s.m, parent, a / 4096) != 0
    requires reader == parent || reader == child
    requires forall j :: 0 <= j < i ==> !Touches(ops[j], reader, a)
    ensures UserByte(states[i].m, states[i].ram, reader, a) == UserByte(s.m, s.ram, parent, a)
  {
    hide Spaces, UserByte, Touches, Lookup;
    var s0 := states[0];
    SpacesPrivate(s.m, s.use);
    ForkReads(s.m, s0.m, s.use, s0.use, s.ram, s0.ram, parent, child, k);
    ForkRoots(s, parent, child, k, s0);
    RunIsolation(states, ops, reader, a, i);
  }

  lemma ForkRoots(s: Snap, parent: nat, child: nat, k: nat, s': Snap)
    requires Step(s, Fork(parent, child, k), s')
    ensures IsRoot(s'.use, parent) && IsRoot(s'.use, child) && IsRoot(s.use, parent)
  {
    hide FrameIn, Lookup;
  }

  // ---- The contracts of the operations are steps ------------------------------------------------------

  lemma TablesIsStep(s: Snap, s': Snap, first: nat, limit: nat, root: nat)
    requires PagesOk(first, limit, s.m, s.ram, s.use) && PagesOk(first, limit, s'.m, s'.ram, s'.use)
    requires Same(s.m, s'.m, s.use) && Grown(s.use, s'.use, root) && Kept(s.use, s.ram, s'.ram)
    ensures Step(s, Tables(root), s')
  {
  }

  lemma AllocIsStep(s: Snap, s': Snap, first: nat, limit: nat, root: nat, lo: nat, hi: nat)
    requires PagesOk(first, limit, s.m, s.ram, s.use) && PagesOk(first, limit, s'.m, s'.ram, s'.use)
    requires IsRoot(s.use, root) && (lo < hi ==> hi <= MAXPAGE)
    requires Outside(s.m, s'.m, s.use, root, lo, hi) && GrownBy(s'.m, s.use, s'.use, root, lo, hi)
    requires Backed(s'.m, s.use, s'.use, s'.ram, root, lo, hi, 31) && Kept(s.use, s.ram, s'.ram)
    ensures Step(s, Alloc(root, lo, hi), s')
  {
    hide Outside, GrownBy, Backed, Kept;
  }

  lemma MapIsStep(s: Snap, s': Snap, first: nat, limit: nat, root: nat, lo: nat, n: nat, pa: nat, perm: nat)
    requires PagesOk(first, limit, s.m, s.ram, s.use) && PagesOk(first, limit, s'.m, s'.ram, s'.use)
    requires IsRoot(s.use, root) && pa < U64 && perm < 1024
    requires MappedRange(s.m, s'.m, s.use, root, lo, n, pa, perm) && Unmapped(s.m, root, lo, n)
    requires Grown(s.use, s'.use, root) && Kept(s.use, s.ram, s'.ram)
    ensures Mappable(s.m, s.use, lo, n, pa, perm) ==> Step(s, Map(root, lo, n, pa, perm), s')
  {
    hide MappedRange, Mappable, Grown, Kept, Unmapped;
  }

  lemma UnmapIsStep(s: Snap, s': Snap, first: nat, limit: nat, root: nat, lo: nat, hi: nat, doFree: bool)
    requires PagesOk(first, limit, s.m, s.ram, s.use) && PagesOk(first, limit, s'.m, s'.ram, s'.use)
    requires IsRoot(s.use, root) && (lo < hi ==> hi <= MAXPAGE)
    requires Cleared(s.m, s'.m, s.use, root, lo, hi) && Freed(s.m, s.use, s'.use, root, lo, hi, doFree)
    requires Kept(s'.use, s.ram, s'.ram) && (forall r :: IsRoot(s.use, r) ==> IsRoot(s'.use, r))
    ensures Step(s, Unmap(root, lo, hi, doFree), s')
  {
    hide Cleared, Freed, Kept;
  }

  lemma WriteIsStep(s: Snap, s': Snap, first: nat, limit: nat, root: nat, lo: nat, data: seq<Byte>)
    requires PagesOk(first, limit, s.m, s.ram, s.use) && PagesOk(first, limit, s'.m, s'.ram, s'.use)
    requires s'.m == s.m && s'.use == s.use && Written(s.m, s.ram, s'.ram, s.use, root, lo, data)
    ensures Step(s, Write(root, lo, data), s')
  {
    hide Written;
  }

  lemma ForkIsStep(s: Snap, s': Snap, first: nat, limit: nat, parent: nat, child: nat, k: nat)
    requires PagesOk(first, limit, s.m, s.ram, s.use) && PagesOk(first, limit, s'.m, s'.ram, s'.use)
    requires IsRoot(s.use, parent) && IsRoot(s.use, child) && k <= MAXPAGE
    requires Copied(s.m, s'.m, s.use, s'.use, s.ram, s'.ram, parent, child, k)
    requires Outside(s.m, s'.m, s.use, child, 0, k) && GrownBy(s'.m, s.use, s'.use, child, 0, k)
    requires Kept(s.use, s.ram, s'.ram)
    ensures Step(s, Fork(parent, child, k), s')
  {
    hide Copied, Outside, Kept, FrameIn;
  }

  lemma TearDownIsStep(s: Snap, s': Snap, first: nat, limit: nat, root: nat, n: nat, frame: Option<nat>)
    requires PagesOk(first, limit, s.m, s.ram, s.use) && PagesOk(first, limit, s'.m, s'.ram, s'.use)
    requires IsRoot(s.use, root) && OnlyUserPages(s.m, root, n) && n <= TOP_PAGE
    requires frame.Some? ==> OwnFrame(s, root, frame.value)
    requires TornDown(s.m, Released(s.use, frame), s'.use, root, n)
    requires OthersTranslate(s.m, s'.m, s.use, root) && Kept(s'.use, s.ram, s'.ram)
    ensures Step(s, TearDown(root, n, frame), s')
  {
    hide OnlyUserPages, TornDown, OthersTranslate, Kept, OwnFrame;
  }

  // ---- freeTask: the trapframe is freed while it is still mapped -----------------------------------------

  lemma TrapframeAlone(m: Mem, use: Uses, root: nat, n: nat, trapframe: nat)
    requires Spaces(m, use) && IsRoot(use, root) && n <= MAXPAGE - 2 && trapframe in use
    requires Lookup(m, root, MAXPAGE - 2) != 0 && Pte2Pa(Lookup(m, root, MAXPAGE - 2)) == trapframe
    ensures OwnsRange(m, use, root, 0, n) && MapsLeaves(m, root) && !FrameIn(m, root, 0, n, trapframe)
    ensures forall ram :: OwnFrame(Snap(m, use, ram), root, trapframe) <==> use[trapframe] == Frame
  {
    hide Lookup, Pte2Pa, IsLeaf, IsUser;
    SpacesOwns(m, use, root, 0, n);
  }

  lemma AfterTrapframe(m: Mem, m': Mem, use: Uses, use': Uses, root: nat, n: nat, trapframe: nat)
    requires OwnsRange(m, use, root, 0, n) && MapsLeaves(m, root) && !FrameIn(m, root, 0, n, trapframe)
    requires IsRoot(use, root) && n <= MAXPAGE && trapframe in use && use[trapframe] == Frame
    requires Same(m, m', use) && use' == use[trapframe := Free]
    ensures IsRoot(use', root) && OwnsRange(m', use', root, 0, n) && MapsLeaves(m', root)
    ensures OnlyUserPages(m', root, n) <==> OnlyUserPages(m, root, n)
  {
    hide Lookup, Pte2Pa, IsLeaf, IsUser;
    assert forall v: nat :: v < PAGES ==> Lookup(m', root, v) == Lookup(m, root, v);
  }

  lemma TaskFreed(s: Snap, s1: Snap, s': Snap, first: nat, limit: nat, root: nat, n: nat, trapframe: nat)
    requires PagesOk(first, limit, s.m, s.ram, s.use) && PagesOk(first, limit, s'.m, s'.ram, s'.use)
    requires IsRoot(s.use, root) && n <= MAXPAGE - 2 && OnlyUserPages(s.m, root, n) && OwnFrame(s, root, trapframe)
    requires trapframe in s.use && s.use[trapframe] == Frame
    requires Same(s.m, s1.m, s.use) && s1.use == s.use[trapframe := Free] && s1.ram == s.ram[trapframe := Bytes(5)]
    requires TornDown(s1.m, s1.use, s'.use, root, n) && OthersTranslate(s1.m, s'.m, s1.use, root)
    requires Kept(s'.use, s1.ram, s'.ram)
    ensures TornDown(s.m, s.use[trapframe := Free], s'.use, root, n)
    ensures Step(s, TearDown(root, n, Some(trapframe)), s')
  {
    hide Lookup, Pte2Pa, Bytes, OnlyUserPages, OwnFrame, PagesOk;
    assert forall v: nat :: v < PAGES ==> Lookup(s1.m, root, v) == Lookup(s.m, root, v);
    forall q ensures FrameIn(s1.m, root, 0, n, q) <==> FrameIn(s.m, root, 0, n, q) {
      if FrameIn(s1.m, root, 0, n, q) {
        var v: nat :| v < n && v < PAGES && Lookup(s1.m, root, v) != 0 && Pte2Pa(Lookup(s1.m, root, v)) == q;
        assert Lookup(s.m, root, v) == Lookup(s1.m, root, v);
      }
      if FrameIn(s.m, root, 0, n, q) {
        var v: nat :| v < n && v < PAGES && Lookup(s.m, root, v) != 0 && Pte2Pa(Lookup(s.m, root, v)) == q;
        assert Lookup(s1.m, root, v) == Lookup(s.m, root, v);
      }
    }
    TornDownSame(s.m, s1.m, s1.use, s'.use, root, n);
    OthersStill(s, s1, s', root, trapframe);
    TearDownIsStep(s, s', first, limit, root, n, Some(trapframe));
  }

  lemma TornDownSame(m: Mem, m1: Mem, use: Uses, use': Uses, root: nat, n: nat)
    requires TornDown(m1, use, use', root, n) && forall q :: FrameIn(m1, root, 0, n, q) <==> FrameIn(m, root, 0, n, q)
    ensures TornDown(m, use, use', root, n)
  {
    hide FrameIn;
  }

  lemma OthersStill(s: Snap, s1: Snap, s': Snap, root: nat, trapframe: nat)
    requires trapframe in s.use && s.use[trapframe] == Frame
    requires Same(s.m, s1.m, s.use) && s1.use == s.use[trapframe := Free] && s1.ram == s.ram[trapframe := Bytes(5)]
    requires OthersTranslate(s1.m, s'.m, s1.use, root) && Kept(s'.use, s1.ram, s'.ram)
    requires trapframe in s'.use && s'.use[trapframe] == Free
    ensures OthersTranslate(s.m, s'.m, s.use, root) && Kept(s'.use, s.ram, s'.ram)
  {
    hide Lookup, Bytes;
    forall r, v: nat | IsRoot(s.use, r) && r != root && v < PAGES ensures Lookup(s'.m, r, v) == Lookup(s.m, r, v) {
      assert IsRoot(s1.use, r);
    }
  }

  // ---- The pieces of tearing down -------------------------------------------------------------------

  lemma OnlyUserIff(m: Mem, m': Mem, use: Uses, root: nat, n: nat)
    requires IsRoot(use, root) && n <= MAXPAGE - 2 && Cleared(m, m', use, root, MAXPAGE - 2, MAXPAGE)
    ensures OnlyUserPages(m, root, n) <==> forall v: nat :: n <= v < PAGES ==> Lookup(m', root, v) == 0
  {
    hide Lookup;
    assert forall v: nat :: v < PAGES ==>
        Lookup(m', root, v) == if MAXPAGE - 2 <= v < MAXPAGE then 0 else Lookup(m, root, v);
  }

  lemma OthersStillTranslate(m: Mem, m1: Mem, m': Mem, use: Uses, root: nat)
    requires Cleared(m, m1, use, root, MAXPAGE - 2, MAXPAGE) && OthersTranslate(m1, m', use, root)
    ensures OthersTranslate(m, m', use, root)
  {
    hide Lookup;
  }

  lemma TearDownKept(m: Mem, use: Uses, use': Uses, root: nat, n: nat, ram: Ram, ram1: Ram, ram': Ram)
    requires Kept(use, ram, ram1) && Kept(use', ram1, ram') && TornDown(m, use, use', root, n)
    ensures Kept(use', ram, ram')
  {
    hide FrameIn;
  }

  lemma TakeIsStep(s: Snap, s': Snap, first: nat, limit: nat, p: nat)
    requires PagesOk(first, limit, s.m, s.ram, s.use) && PagesOk(first, limit, s'.m, s'.ram, s'.use)
    requires p in s.use && s.use[p] == Free && s'.use == s.use[p := Frame] && Same(s.m, s'.m, s.use)
    requires p in s'.ram && s'.ram == s.ram[p := s'.ram[p]]
    ensures Step(s, TakeFrame(p), s')
  {
    hide Same;
  }

  lemma GiveIsStep(s: Snap, s': Snap, first: nat, limit: nat, p: nat)
    requires PagesOk(first, limit, s.m, s.ram, s.use) && PagesOk(first, limit, s'.m, s'.ram, s'.use)
    requires p in s.use && s.use[p] == Frame && s'.use == s.use[p := Free]
    requires Same(s.m, s'.m, s.use) && p in s'.ram && s'.ram == s.ram[p := s'.ram[p]]
    ensures NobodyMaps(s.m, s.use, p) ==> Step(s, GiveFrame(p), s')
  {
    hide Same, NobodyMaps;
  }

  lemma CreateIsStep(s: Snap, s': Snap, first: nat, limit: nat, root: nat)
    requires PagesOk(first, limit, s.m, s.ram, s.use) && PagesOk(first, limit, s'.m, s'.ram, s'.use)
    requires root in s.use && s.use[root] == Free && s'.use == s.use[root := Table(root, Root)]
    requires Same(s.m, s'.m, s.use) && NothingMappedBy(s'.m, root) && Kept(s.use, s.ram, s'.ram)
    ensures Step(s, Create(root), s')
  {
    hide Same, NothingMappedBy, Kept;
  }
}
