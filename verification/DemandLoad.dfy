/** What loading pages on their first fault should do (kernel/memory/mmap.cpp,
    kernel/os/task.cpp): the page a fault wants, runs of faults over a flat map of pages, and
    the memory that loading everything at once would give. VmLoad has the operations. */
module DemandLoad {
  import opened Common

  // Every page loaded is a user page.
  datatype Perm = Perm(read: bool, write: bool, exec: bool)

  datatype Page = Page(bytes: seq<Byte>, perm: Perm)

  /** A region of addr .. addr + length, backed by a file from offset on, or by nothing. */
  datatype Vma = Vma(addr: nat, length: nat, perm: Perm, file: Option<seq<Byte>>, offset: nat)

  // A region is not empty and its part of the file is below 4 GB.
  predicate VmaOk(v: Vma) { v.length > 0 && v.offset + v.length <= U32 }

  function PageRoundDown(x: nat): nat { x / PGSIZE * PGSIZE }

  function PageRoundUp(x: nat): nat { (x + PGSIZE - 1) / PGSIZE * PGSIZE }

  // ---- What memory should hold ---------------------------------------------------------------

  // Reading past the end of the file leaves zeros.
  function FileByte(f: seq<Byte>, k: nat): Byte { if k < |f| then f[k] else 0 }

  function ByteAt(v: Vma, x: nat): Byte {
    if v.addr <= x < v.addr + v.length && v.file.Some? then FileByte(v.file.value, v.offset + (x - v.addr)) else 0
  }

  predicate Touches(v: Vma, p: nat) {
    v.addr / PGSIZE <= p && p * PGSIZE < v.addr + v.length
  }

  // Page p of the region, as if the whole region had been loaded at once.
  function Image(v: Vma, p: nat): (r: Page)
    ensures |r.bytes| == PGSIZE && forall i: nat :: i < PGSIZE ==> r.bytes[i] == ByteAt(v, p * PGSIZE + i)
  {
    Page(Bytes(v, p * PGSIZE, PGSIZE), v.perm)
  }

  function Bytes(v: Vma, x: nat, n: nat): (r: seq<Byte>)
    ensures |r| == n && forall i: nat :: i < n ==> r[i] == ByteAt(v, x + i)
  {
    if n == 0 then [] else Bytes(v, x, n - 1) + [ByteAt(v, x + n - 1)]
  }

  function Zeros(n: nat): (r: seq<Byte>)
    ensures |r| == n && forall i: nat :: i < n ==> r[i] == 0
  {
    if n == 0 then [] else Zeros(n - 1) + [0]
  }

  function ZeroPage(): Page { Page(Zeros(PGSIZE), Perm(true, true, false)) }

  ghost predicate Apart(v: Vma, w: Vma) { forall p: nat :: !(Touches(v, p) && Touches(w, p)) }

  // No two regions share a page.
  ghost predicate RegionsOk(vmas: seq<Option<Vma>>) {
    && (forall i :: 0 <= i < |vmas| && vmas[i].Some? ==> VmaOk(vmas[i].value))
    && forall i, j :: 0 <= i < j < |vmas| && vmas[i].Some? && vmas[j].Some? ==> Apart(vmas[i].value, vmas[j].value)
  }

  ghost predicate Serves(vmas: seq<Option<Vma>>, i: int, p: nat) {
    0 <= i < |vmas| && vmas[i].Some? && Touches(vmas[i].value, p)
  }

  ghost function Owner(vmas: seq<Option<Vma>>, p: nat): (i: int)
    requires exists i :: Serves(vmas, i, p)
    ensures Serves(vmas, i, p)
  {
    var i :| Serves(vmas, i, p); i
  }

  // The page a fault at va calls for: a page of a region, a zero page below the break, or none.
  ghost function Wanted(vmas: seq<Option<Vma>>, sz: nat, va: nat): Option<Page> {
    if exists i :: Serves(vmas, i, va / PGSIZE) then
      Some(Image(vmas[Owner(vmas, va / PGSIZE)].value, va / PGSIZE))
    else if va < sz then Some(ZeroPage())
    else None
  }

  lemma WantedIs(vmas: seq<Option<Vma>>, sz: nat, va: nat, i: int)
    requires RegionsOk(vmas) && Serves(vmas, i, va / PGSIZE)
    ensures Wanted(vmas, sz, va) == Some(Image(vmas[i].value, va / PGSIZE))
  {
    var p := va / PGSIZE;
    var j := Owner(vmas, p);
    assert Touches(vmas[i].value, p) && Touches(vmas[j].value, p);
  }

  // ---- The arithmetic of one fault -------------------------------------------------------------

  // The address the code settles on, inside the region and on the page of the fault.
  function Clamp(v: Vma, va: nat): nat
    requires v.length > 0
  {
    var va1 := if va < v.addr then v.addr else va;
    if va1 >= v.addr + v.length then v.addr + v.length - 1 else va1
  }

  lemma RangeIsTouches(v: Vma, va: nat)
    requires v.length > 0
    ensures PageRoundDown(v.addr) <= va < PageRoundUp(v.addr + v.length) <==> Touches(v, va / PGSIZE)
  {
    var e := v.addr + v.length;
    var q := (e + 4095) / 4096;
    assert va < 4096 * q <==> va / 4096 < q;
    assert 4096 * (v.addr / 4096) <= va <==> v.addr / 4096 <= va / 4096;
    assert 4096 * (va / 4096) < e <==> va / 4096 < q;
  }

  lemma ClampStays(v: Vma, va: nat)
    requires v.length > 0 && Touches(v, va / PGSIZE)
    ensures Clamp(v, va) / PGSIZE == va / PGSIZE && v.addr <= Clamp(v, va) < v.addr + v.length
  {
    var e := v.addr + v.length - 1;
    assert e / 4096 >= va / 4096;
  }

  // The bytes read from the file and where they go, as the code computes them for page p.
  function Low(v: Vma, p: nat): nat { if v.addr > p * PGSIZE then v.addr else p * PGSIZE }

  function High(v: Vma, p: nat): nat {
    var high := PageRoundUp(Low(v, p) + 1);
    if high > v.addr + v.length then v.addr + v.length else high
  }

  function ReadFile(f: seq<Byte>, off: nat, n: nat): (r: seq<Byte>)
    ensures |r| <= n
  {
    if off >= |f| then [] else if off + n <= |f| then f[off..off + n] else f[off..]
  }

  // Overwriting part of a page.
  function Patch(bytes: seq<Byte>, at: nat, data: seq<Byte>): seq<Byte>
    requires at + |data| <= |bytes|
  {
    bytes[..at] + data + bytes[at + |data|..]
  }

  lemma Bounds(v: Vma, p: nat)
    requires v.length > 0 && Touches(v, p)
    ensures p * PGSIZE <= Low(v, p) < High(v, p) <= p * PGSIZE + PGSIZE
    ensures High(v, p) <= v.addr + v.length
    ensures Low(v, p) / PGSIZE == p
    ensures High(v, p) == p * PGSIZE + PGSIZE || High(v, p) == v.addr + v.length
  {
    var lo := Low(v, p);
    assert 4096 * p <= lo < 4096 * p + 4096;
    assert (lo + 1 + 4095) / 4096 == p + 1;
  }

  /** The zeroed page with the bytes read patched in is the page of the region. */
  lemma LoadedPage(v: Vma, p: nat)
    requires VmaOk(v) && Touches(v, p) && v.file.Some?
    ensures var lo, hi := Low(v, p), High(v, p);
            && lo >= v.addr && p * PGSIZE <= lo <= hi <= p * PGSIZE + PGSIZE
            && var data := ReadFile(v.file.value, v.offset + (lo - v.addr), hi - lo);
               Patch(ZeroPage().bytes, lo - p * PGSIZE, data) == Image(v, p).bytes
    ensures Image(v, p).perm == v.perm
  {
    hide Low, High, ZeroPage, Bytes, ReadFile, ByteAt, Patch;
    Bounds(v, p);
    LowIs(v, p);
    var lo, hi := Low(v, p), High(v, p);
    var data := ReadFile(v.file.value, v.offset + (lo - v.addr), hi - lo);
    ZeroPageIs();
    PatchIs(ZeroPage().bytes, lo - p * PGSIZE, data);
    var got := Patch(ZeroPage().bytes, lo - p * PGSIZE, data);
    forall i: nat | i < PGSIZE ensures got[i] == ByteAt(v, p * PGSIZE + i) {
      ByteIs(v, p, lo, hi, i);
    }
  }

  lemma ZeroPageIs()
    ensures |ZeroPage().bytes| == PGSIZE && forall i: nat :: i < PGSIZE ==> ZeroPage().bytes[i] == 0
  {
  }

  lemma PatchIs(bytes: seq<Byte>, at: nat, data: seq<Byte>)
    requires at + |data| <= |bytes|
    ensures |Patch(bytes, at, data)| == |bytes|
    ensures forall i: nat :: i < |bytes| ==>
              Patch(bytes, at, data)[i] == if at <= i < at + |data| then data[i - at] else bytes[i]
  {
  }

  // The byte at place i of page p: in the part of the file that was read, or zero.
  lemma ByteIs(v: Vma, p: nat, lo: nat, hi: nat, i: nat)
    requires v.file.Some? && i < PGSIZE && v.addr <= lo <= hi <= v.addr + v.length
    requires lo == v.addr || lo == p * PGSIZE
    requires hi == v.addr + v.length || hi == p * PGSIZE + PGSIZE
    ensures var x := p * PGSIZE + i;
            var data := ReadFile(v.file.value, v.offset + (lo - v.addr), hi - lo);
            ByteAt(v, x) == if lo <= x < lo + |data| then data[x - lo] else 0
  {
  }

  lemma LowIs(v: Vma, p: nat)
    ensures Low(v, p) >= v.addr && (Low(v, p) == v.addr || Low(v, p) == p * PGSIZE)
  {
  }

  // Nothing read is nothing changed.
  lemma NoPatch()
    requires |ZeroPage().bytes| == PGSIZE
    ensures Patch(ZeroPage().bytes, 0, []) == ZeroPage().bytes
    ensures ZeroPage().perm == Perm(true, true, false)
  {
    hide Zeros;
  }

  lemma NoFile(v: Vma, p: nat)
    requires v.file.None?
    ensures ZeroPage().bytes == Image(v, p).bytes && Image(v, p).perm == v.perm
  {
    ZeroPageIs();
    var image := Image(v, p).bytes;
    forall i: nat | i < PGSIZE ensures image[i] == 0 {
      assert ByteAt(v, p * PGSIZE + i) == 0;
    }
  }

  lemma OffsetFits(v: Vma, p: nat)
    requires VmaOk(v) && Touches(v, p)
    ensures Low(v, p) >= v.addr && (v.offset + (Low(v, p) - v.addr)) % U32 == v.offset + (Low(v, p) - v.addr)
  {
    Bounds(v, p);
  }

  // ---- Runs of faults ----------------------------------------------------------------------------

  ghost function Fault(pages: map<nat, Page>, vmas: seq<Option<Vma>>, sz: nat, va: nat): map<nat, Page> {
    if va / PGSIZE !in pages && Wanted(vmas, sz, va).Some?
    then pages[va / PGSIZE := Wanted(vmas, sz, va).value] else pages
  }

  ghost function Faults(pages: map<nat, Page>, vmas: seq<Option<Vma>>, sz: nat, vas: seq<nat>): map<nat, Page> {
    if vas == [] then pages else Fault(Faults(pages, vmas, sz, vas[..|vas| - 1]), vmas, sz, vas[|vas| - 1])
  }

  // Some fault of the run asks for page p.
  ghost predicate Asked(vmas: seq<Option<Vma>>, sz: nat, vas: seq<nat>, p: nat) {
    exists k :: 0 <= k < |vas| && vas[k] / PGSIZE == p && Wanted(vmas, sz, vas[k]).Some?
  }

  // ---- Memory as eager loading makes it, address by address ------------------------------------------

  // Address x lies in region i.
  ghost predicate Contains(vmas: seq<Option<Vma>>, i: int, x: nat) {
    0 <= i < |vmas| && vmas[i].Some? && vmas[i].value.addr <= x < vmas[i].value.addr + vmas[i].value.length
  }

  ghost function Holder(vmas: seq<Option<Vma>>, x: nat): (i: int)
    requires exists i :: Contains(vmas, i, x)
    ensures Contains(vmas, i, x)
  {
    var i :| Contains(vmas, i, x); i
  }

  // The byte at x: its place in the file of the region x lies in, and 0 outside all regions.
  ghost function EagerByte(vmas: seq<Option<Vma>>, x: nat): Byte {
    if exists i :: Contains(vmas, i, x) then
      var v := vmas[Holder(vmas, x)].value;
      if v.file.Some? then FileByte(v.file.value, v.offset + (x - v.addr)) else 0
    else 0
  }

  // The rights of a page: those of the region with an address on it, else read and write.
  ghost function EagerPerm(vmas: seq<Option<Vma>>, p: nat): Perm {
    if exists x: nat, i :: x / PGSIZE == p && Contains(vmas, i, x) then
      var x: nat, i :| x / PGSIZE == p && Contains(vmas, i, x);
      vmas[i].value.perm
    else Perm(true, true, false)
  }

  ghost predicate EagerPage(vmas: seq<Option<Vma>>, p: nat, page: Page) {
    && |page.bytes| == PGSIZE && page.perm == EagerPerm(vmas, p)
    && forall i: nat :: i < PGSIZE ==> page.bytes[i] == EagerByte(vmas, p * PGSIZE + i)
  }

  // A region with an address on a page touches the page.
  lemma ContainsTouches(v: Vma, x: nat)
    requires v.addr <= x < v.addr + v.length
    ensures Touches(v, x / PGSIZE)
  {
  }

  lemma OnlyHolder(vmas: seq<Option<Vma>>, i: int, j: int, p: nat)
    requires RegionsOk(vmas) && Serves(vmas, i, p) && Serves(vmas, j, p)
    ensures i == j
  {
    hide Touches;
    assert Touches(vmas[i].value, p) && Touches(vmas[j].value, p);
  }

  lemma ByteEager(vmas: seq<Option<Vma>>, i: int, p: nat, x: nat)
    requires RegionsOk(vmas) && Serves(vmas, i, p) && x / PGSIZE == p
    ensures ByteAt(vmas[i].value, x) == EagerByte(vmas, x)
  {
    hide Touches, RegionsOk;
    if exists j :: Contains(vmas, j, x) {
      var j := Holder(vmas, x);
      ContainsTouches(vmas[j].value, x);
      OnlyHolder(vmas, i, j, p);
    } else {
      assert !Contains(vmas, i, x);
    }
  }

  lemma ByteNowhere(vmas: seq<Option<Vma>>, p: nat, x: nat)
    requires (forall i :: !Serves(vmas, i, p)) && x / PGSIZE == p
    ensures EagerByte(vmas, x) == 0
  {
    hide Touches;
    forall j ensures !Contains(vmas, j, x) {
      assert !Serves(vmas, j, p);
      if Contains(vmas, j, x) { ContainsTouches(vmas[j].value, x); }
    }
  }

  // A region that touches a page has an address on it.
  lemma TouchedAt(v: Vma, p: nat) returns (x: nat)
    requires v.length > 0 && Touches(v, p)
    ensures x / PGSIZE == p && v.addr <= x < v.addr + v.length
  {
    x := if v.addr > p * PGSIZE then v.addr else p * PGSIZE;
  }

  lemma PermEager(vmas: seq<Option<Vma>>, i: int, p: nat)
    requires RegionsOk(vmas) && Serves(vmas, i, p)
    ensures EagerPerm(vmas, p) == vmas[i].value.perm
  {
    assert VmaOk(vmas[i].value);
    var y := TouchedAt(vmas[i].value, p);
    assert y / PGSIZE == p && Contains(vmas, i, y);
    forall x: nat, j | x / PGSIZE == p && Contains(vmas, j, x) ensures j == i {
      ContainsTouches(vmas[j].value, x);
      OnlyHolder(vmas, i, j, p);
    }
  }

  lemma PermNowhere(vmas: seq<Option<Vma>>, p: nat)
    requires forall i :: !Serves(vmas, i, p)
    ensures EagerPerm(vmas, p) == Perm(true, true, false)
  {
    forall x: nat, j | x / PGSIZE == p ensures !Contains(vmas, j, x) {
      assert !Serves(vmas, j, p);
      if Contains(vmas, j, x) { ContainsTouches(vmas[j].value, x); }
    }
  }

  lemma OnPage(p: nat, i: nat)
    requires i < PGSIZE
    ensures (p * PGSIZE + i) / PGSIZE == p
  {
  }

  // The page that a fault wants is the eager one.
  lemma WantedEager(vmas: seq<Option<Vma>>, sz: nat, va: nat)
    requires RegionsOk(vmas) && Wanted(vmas, sz, va).Some?
    ensures EagerPage(vmas, va / PGSIZE, Wanted(vmas, sz, va).value)
  {
    hide Touches, EagerByte, EagerPerm, RegionsOk, ByteAt;
    var p, page := va / PGSIZE, Wanted(vmas, sz, va).value;
    if exists i :: Serves(vmas, i, p) {
      var i := Owner(vmas, p);
      WantedIs(vmas, sz, va, i);
      PermEager(vmas, i, p);
      forall k: nat | k < PGSIZE ensures page.bytes[k] == EagerByte(vmas, p * PGSIZE + k) {
        OnPage(p, k);
        ByteEager(vmas, i, p, p * PGSIZE + k);
      }
    } else {
      PermNowhere(vmas, p);
      ZeroPageIs();
      forall k: nat | k < PGSIZE ensures page.bytes[k] == EagerByte(vmas, p * PGSIZE + k) {
        OnPage(p, k);
        ByteNowhere(vmas, p, p * PGSIZE + k);
      }
    }
  }

  lemma EagerUnique(vmas: seq<Option<Vma>>, p: nat, a: Page, b: Page)
    requires EagerPage(vmas, p, a) && EagerPage(vmas, p, b)
    ensures a == b
  {
    hide EagerByte, EagerPerm;
    assert forall i: nat :: i < PGSIZE ==> a.bytes[i] == b.bytes[i];
  }

  /** Demand loading is eager loading: after any faults in any order, the pages that were
      mapped are untouched, exactly the pages asked for are added, and each of them holds at
      every address what loading everything beforehand would have put there. */
  lemma {:induction false} FaultsAreEager(pages: map<nat, Page>, vmas: seq<Option<Vma>>, sz: nat, vas: seq<nat>, p: nat)
    requires RegionsOk(vmas)
    ensures p in Faults(pages, vmas, sz, vas) <==> p in pages || Asked(vmas, sz, vas, p)
    ensures p in pages ==> Faults(pages, vmas, sz, vas)[p] == pages[p]
    ensures p in Faults(pages, vmas, sz, vas) && p !in pages ==> EagerPage(vmas, p, Faults(pages, vmas, sz, vas)[p])
  {
    hide RegionsOk, Wanted, EagerPage;
    if vas != [] {
      var init, va := vas[..|vas| - 1], vas[|vas| - 1];
      FaultsAreEager(pages, vmas, sz, init, p);
      assert Asked(vmas, sz, vas, p) <==>
          Asked(vmas, sz, init, p) || (va / PGSIZE == p && Wanted(vmas, sz, va).Some?) by {
        LastAsked(vmas, sz, vas, p);
      }
      if Wanted(vmas, sz, va).Some? { WantedEager(vmas, sz, va); }
    }
  }

  lemma LastAsked(vmas: seq<Option<Vma>>, sz: nat, vas: seq<nat>, p: nat)
    requires vas != []
    ensures var va := vas[|vas| - 1];
            Asked(vmas, sz, vas, p) <==>
                Asked(vmas, sz, vas[..|vas| - 1], p) || (va / PGSIZE == p && Wanted(vmas, sz, va).Some?)
  {
    hide Wanted;
    var init := vas[..|vas| - 1];
    if k :| 0 <= k < |init| && init[k] / PGSIZE == p && Wanted(vmas, sz, init[k]).Some? {
      assert vas[k] == init[k];
    }
    if k :| 0 <= k < |vas| && vas[k] / PGSIZE == p && Wanted(vmas, sz, vas[k]).Some? {
      if k < |init| { assert init[k] == vas[k]; }
    }
  }

  /** The order of the faults, and how often each comes, does not matter. */
  lemma OrderFree(pages: map<nat, Page>, vmas: seq<Option<Vma>>, sz: nat, a: seq<nat>, b: seq<nat>)
    requires RegionsOk(vmas) && forall va :: va in a <==> va in b
    ensures Faults(pages, vmas, sz, a) == Faults(pages, vmas, sz, b)
  {
    hide RegionsOk, Wanted, EagerPage;
    var fa, fb := Faults(pages, vmas, sz, a), Faults(pages, vmas, sz, b);
    forall p: nat ensures (p in fa <==> p in fb) && (p in fa && p in fb ==> fa[p] == fb[p]) {
      FaultsAreEager(pages, vmas, sz, a, p);
      FaultsAreEager(pages, vmas, sz, b, p);
      SameAsked(vmas, sz, a, b, p);
      SameAsked(vmas, sz, b, a, p);
      if p in fa && p in fb && p !in pages { EagerUnique(vmas, p, fa[p], fb[p]); }
    }
  }

  lemma SameAsked(vmas: seq<Option<Vma>>, sz: nat, a: seq<nat>, b: seq<nat>, p: nat)
    requires forall va :: va in a ==> va in b
    ensures Asked(vmas, sz, a, p) ==> Asked(vmas, sz, b, p)
  {
    hide Wanted;
    if k :| 0 <= k < |a| && a[k] / PGSIZE == p && Wanted(vmas, sz, a[k]).Some? {
      assert a[k] in b;
      var j :| 0 <= j < |b| && b[j] == a[k];
    }
  }
}
