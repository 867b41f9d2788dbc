/** The kernel buddy allocator of kernel/memory/BuddyAllocator.cpp. */
module Buddy {
  import opened Common

  const MIN_LEVEL: nat := 4
  const MAX_LEVEL: nat := 12

  predicate IsLevel(l: int) { MIN_LEVEL <= l <= MAX_LEVEL }

  // LEVEL_2_SIZE
  function Size(l: int): (s: nat)
    requires IsLevel(l)
    ensures s >= 16
  {
    if l == 4 then 16 else 2 * Size(l - 1)
  }

  predicate Aligned(a: nat, l: int)
    requires IsLevel(l)
  {
    a % Size(l) == 0
  }

  // The exclusive or of a with the single bit Size(l).
  function BuddyOf(a: nat, l: int): nat
    requires IsLevel(l)
  {
    if a / Size(l) % 2 == 0 then a + Size(l) else a - Size(l)
  }

  function PageOf(a: nat): nat { a - a % PGSIZE }

  /** A block is free (on the list of its level) or held: live, or in the hands of
      the running operation. */
  datatype Block = Block(lv: int, free: bool)
  type Heap = map<nat, Block>

  // ---- Address arithmetic -------------------------------------------------

  lemma MulGe(d: int, s: int)
    requires d >= 1 && s >= 0
    ensures d * s >= s
  {
    assert d * s - s == (d - 1) * s;
  }

  lemma Quotient(q: int, s: int, r: int)
    requires 0 <= r < s
    ensures (q * s + r) / s == q && (q * s + r) % s == r
  {
    var e := q * s + r;
    var k := e / s;
    assert e == k * s + e % s;
    assert (k - q) * s == r - e % s;
    if k > q { MulGe(k - q, s); } else if k < q { MulGe(q - k, s); }
  }

  lemma EvenMultiple(a: nat, s: nat)
    requires s > 0 && a % (2 * s) == 0
    ensures a % s == 0 && a / s % 2 == 0
  {
    var k := a / (2 * s);
    assert a == (2 * k) * s + 0 by { assert a == k * (2 * s); assert k * (2 * s) == (2 * k) * s; }
    Quotient(2 * k, s, 0);
  }

  lemma OddMultiple(a: nat, s: nat)
    requires s > 0 && a % (2 * s) == 0
    ensures (a + s) % s == 0 && (a + s) / s % 2 == 1 && (a + s) % (2 * s) == s
  {
    var k := a / (2 * s);
    assert a + s == (2 * k + 1) * s + 0 by { assert a == k * (2 * s); assert k * (2 * s) == (2 * k) * s; }
    Quotient(2 * k + 1, s, 0);
    Quotient(k, 2 * s, s);
  }

  lemma TwiceMultiple(h: nat, s: nat)
    requires s > 0
    ensures ((2 * h) * s) % (2 * s) == 0 && (2 * h + 1) * s - s == (2 * h) * s
  {
    assert (2 * h) * s == h * (2 * s) + 0;
    Quotient(h, 2 * s, 0);
  }

  lemma Parity(a: nat, s: nat)
    requires s > 0 && a % s == 0
    ensures a / s % 2 == 0 ==> a % (2 * s) == 0
    ensures a / s % 2 != 0 ==> a >= s && (a - s) % (2 * s) == 0
  {
    var h := a / s / 2;
    TwiceMultiple(h, s);
    if a / s % 2 == 0 {
      assert a == (2 * h) * s by { assert a / s == 2 * h; }
    } else {
      assert a == (2 * h + 1) * s by { assert a / s == 2 * h + 1; }
    }
  }

  lemma Halves(a: nat, l: int)
    requires IsLevel(l) && IsLevel(l + 1) && Aligned(a, l + 1)
    ensures Size(l + 1) == 2 * Size(l)
    ensures Aligned(a, l) && Aligned(a + Size(l), l) && !Aligned(a + Size(l), l + 1)
    ensures BuddyOf(a, l) == a + Size(l) && BuddyOf(a + Size(l), l) == a
  {
    EvenMultiple(a, Size(l));
    OddMultiple(a, Size(l));
  }

  lemma Pair(a: nat, l: int)
    requires IsLevel(l) && IsLevel(l + 1) && Aligned(a, l)
    ensures var b := BuddyOf(a, l);
            && b >= 0 && Aligned(b, l) && BuddyOf(b, l) == a && b != a
            && Aligned(if a < b then a else b, l + 1)
            && (if a < b then b == a + Size(l) else a == b + Size(l))
  {
    var s := Size(l);
    Parity(a, s);
    if a / s % 2 == 0 {
      Halves(a, l);
    } else {
      Halves(a - s, l);
    }
  }

  lemma MultiplesApart(q: int, m: int, s: nat)
    requires q * s < m * s
    ensures q * s + s <= m * s
  {
    var d := m - q;
    assert d * s == m * s - q * s;
    if d < 1 { MulGe(1 - d, s); } else { MulGe(d, s); }
  }

  lemma Gap(a: nat, e: nat, l: int)
    requires IsLevel(l) && Aligned(a, l) && Aligned(e, l) && a < e
    ensures a + Size(l) <= e
  {
    hide Size;
    var s := Size(l);
    WholeTimes(a, s);
    WholeTimes(e, s);
    MultiplesApart(a / s, e / s, s);
  }

  lemma WholeTimes(a: nat, s: nat)
    requires s > 0 && a % s == 0
    ensures a == (a / s) * s
  {
  }

  lemma NextMultiple(c: nat, s: nat)
    requires s > 0 && c % s == 0
    ensures (c + s) % s == 0
  {
    assert c + s == (c / s + 1) * s + 0;
    Quotient(c / s + 1, s, 0);
  }

  lemma PageSize()
    ensures Size(MAX_LEVEL) == PGSIZE
  {
    assert Size(4) == 16 && Size(6) == 64 && Size(8) == 256 && Size(10) == 1024;
  }

  lemma AlignedDown(c: nat, k: int, l: int)
    requires IsLevel(l) && IsLevel(k) && l <= k && Aligned(c, k)
    ensures Aligned(c, l) && Aligned(c + Size(k), l)
    decreases k
  {
    if l == k {
      NextMultiple(c, Size(k));
    } else {
      Halves(c, k - 1);
      AlignedDown(c, k - 1, l);
      AlignedDown(c + Size(k - 1), k - 1, l);
    }
  }

  // A block that starts inside an aligned block of at least its size lies inside it.
  lemma Nested(a: nat, l: int, c: nat, k: int)
    requires IsLevel(l) && IsLevel(k) && l <= k && Aligned(a, l) && Aligned(c, k) && c <= a < c + Size(k)
    ensures a + Size(l) <= c + Size(k)
  {
    AlignedDown(c, k, l);
    Gap(a, c + Size(k), l);
  }

  lemma PageStart(a: nat)
    ensures PageOf(a) <= a < PageOf(a) + PGSIZE && PageOf(a) % PGSIZE == 0
  {
  }

  // A block lies inside its page.
  lemma InPage(a: nat, l: int)
    requires IsLevel(l) && Aligned(a, l)
    ensures PageOf(a) >= 0 && Aligned(PageOf(a), MAX_LEVEL)
    ensures PageOf(a) <= a && a + Size(l) <= PageOf(a) + PGSIZE && Size(MAX_LEVEL) == PGSIZE
  {
    hide Size, PageOf;
    PageSize();
    PageStart(a);
    Nested(a, l, PageOf(a), MAX_LEVEL);
  }

  // ---- The heap of blocks --------------------------------------------------

  function End(h: Heap, a: nat): nat
    requires a in h && IsLevel(h[a].lv)
  {
    a + Size(h[a].lv)
  }

  /** The owned pages are exactly tiled: blocks are aligned, disjoint, start at
      every page start and follow each other without gaps. */
  ghost predicate Tiled(h: Heap, owned: set<nat>) {
    Shaped(h) && Homed(h, owned) && Apart(h) && Gapless(h)
  }

  ghost predicate Shaped(h: Heap) {
    forall a :: a in h ==> IsLevel(h[a].lv) && Aligned(a, h[a].lv)
  }

  ghost predicate Homed(h: Heap, owned: set<nat>) {
    && (forall a {:trigger PageOf(a)} :: a in h ==> PageOf(a) in owned)
    && (forall p :: p in owned ==> p % PGSIZE == 0 && p in h)
  }

  ghost predicate Apart(h: Heap)
    requires Shaped(h)
  {
    forall a, b :: a in h && b in h && a < b ==> End(h, a) <= b
  }

  ghost predicate Gapless(h: Heap)
    requires Shaped(h)
  {
    forall a {:trigger Followed(h, a)} :: a in h ==> Followed(h, a)
  }

  // A block ends its page or is followed by another block.
  predicate Followed(h: Heap, a: nat)
    requires a in h && IsLevel(h[a].lv)
  {
    End(h, a) % PGSIZE == 0 || End(h, a) in h
  }

  // No block and its buddy are free at the same level, and no whole page is free.
  ghost predicate Coalesced(h: Heap)
    requires Shaped(h)
  {
    forall a {:trigger Single(h, a)} :: a in h && h[a].free ==> Single(h, a)
  }

  predicate Single(h: Heap, a: nat)
    requires a in h && IsLevel(h[a].lv)
  {
    h[a].lv < MAX_LEVEL && (BuddyOf(a, h[a].lv) in h ==> h[BuddyOf(a, h[a].lv)] != h[a])
  }

  ghost predicate Inv(h: Heap, owned: set<nat>) {
    Tiled(h, owned) && Coalesced(h)
  }

  // Every address of an owned page is in a block.
  lemma Covered(h: Heap, owned: set<nat>, x: nat, from: nat) returns (c: nat)
    requires Tiled(h, owned) && from in h && from <= x && PageOf(x) == PageOf(from)
    ensures c in h && c <= x < End(h, c)
    decreases x - from
  {
    if x < End(h, from) {
      c := from;
    } else {
      InPage(from, h[from].lv);
      assert Followed(h, from);
      SamePage(from, End(h, from), x);
      c := Covered(h, owned, x, End(h, from));
    }
  }

  lemma SamePage(a: nat, e: nat, x: nat)
    requires a < e <= x && PageOf(x) == PageOf(a) && e <= PageOf(a) + PGSIZE
    ensures e % PGSIZE != 0 && PageOf(e) == PageOf(a)
  {
  }

  // No held block meets the region of level l at a.
  ghost predicate NoneHeld(h: Heap, a: nat, l: int)
    requires IsLevel(l) && Shaped(h)
  {
    forall c :: c in h && !h[c].free ==> End(h, c) <= a || a + Size(l) <= c
  }

  lemma SmallestInBlock(h: Heap, owned: set<nat>, a: nat) returns (c: nat)
    requires Tiled(h, owned) && Aligned(a, MIN_LEVEL) && PageOf(a) in owned && NoneHeld(h, a, MIN_LEVEL)
    ensures c in h && h[c].free && c <= a && a + Size(MIN_LEVEL) <= End(h, c)
  {
    hide Aligned, Size;
    InPage(a, MIN_LEVEL);
    c := Covered(h, owned, a, PageOf(a));
    Nested(a, MIN_LEVEL, c, h[c].lv);
  }

  lemma RightHalf(a: nat, l: int)
    requires IsLevel(l) && IsLevel(l - 1) && Aligned(a, l)
    ensures PageOf(a + Size(l - 1)) == PageOf(a)
  {
    hide Aligned;
    InPage(a, l);
  }

  /** Maximal coalescing: an aligned region that meets no held block lies inside a
      single free block. */
  lemma Collapse(h: Heap, owned: set<nat>, a: nat, l: int) returns (c: nat)
    requires Inv(h, owned) && IsLevel(l) && Aligned(a, l) && PageOf(a) in owned && NoneHeld(h, a, l)
    ensures c in h && h[c].free && c <= a && a + Size(l) <= End(h, c)
    decreases l
  {
    hide Aligned, Size, PageOf, BuddyOf, Coalesced, Homed, Apart, Gapless;
    if l == MIN_LEVEL {
      c := SmallestInBlock(h, owned, a);
    } else {
      Halves(a, l - 1);
      RightHalf(a, l);
      c := Collapse(h, owned, a, l - 1);
      HasLevel(h, owned, c);
      if h[c].lv >= l {
        Nested(a, l, c, h[c].lv);
      } else {
        ExactHalf(h, owned, a, l - 1, c);
        c := Collapse(h, owned, a + Size(l - 1), l - 1);
        if h[c].lv < l {
          ExactHalf(h, owned, a + Size(l - 1), l - 1, c);
          TwoHalves(h, a, l - 1);
        } else {
          HalfOfBlock(a, l - 1, c, h[c].lv);
        }
      }
    }
  }

  // A block no larger than the region it contains is that region.
  lemma ExactHalf(h: Heap, owned: set<nat>, a: nat, l: int, c: nat)
    requires Tiled(h, owned) && IsLevel(l) && c in h && c <= a && a + Size(l) <= End(h, c) && h[c].lv <= l
    ensures c == a && h[c].lv == l
  {
    SizesGrow(h[c].lv, l);
  }

  // Buddies are never both free.
  lemma TwoHalves(h: Heap, a: nat, l: int)
    requires Shaped(h)
    requires Coalesced(h) && IsLevel(l) && IsLevel(l + 1) && Aligned(a, l + 1)
    requires a in h && a + Size(l) in h && h[a] == Block(l, true)
    ensures h[a + Size(l)] != Block(l, true)
  {
    Halves(a, l);
    assert Single(h, a);
  }

  // The block around the right half of a region is around the region, when larger.
  lemma HalfOfBlock(a: nat, l: int, c: nat, k: int)
    requires IsLevel(l) && IsLevel(l + 1) && IsLevel(k) && l < k && Aligned(a, l + 1) && Aligned(c, k)
    requires c <= a + Size(l) && a + 2 * Size(l) <= c + Size(k)
    ensures c <= a && a + Size(l + 1) <= c + Size(k) && Size(l + 1) == 2 * Size(l)
  {
    AlignedDown(c, k, l + 1);
    Halves(a, l);
    hide Aligned;
    if a < c { Gap(a, c, l + 1); }
  }

  lemma SizesGrow(k: int, l: int)
    requires IsLevel(k) && IsLevel(l) && k <= l
    ensures Size(k) <= Size(l)
    ensures k < l ==> Size(k) < Size(l)
  {
    if k < l { SizesGrow(k, l - 1); }
  }

  // ---- The steps of alloc and free -----------------------------------------

  function SplitHeap(h: Heap, a: nat): Heap
    requires a in h && IsLevel(h[a].lv) && IsLevel(h[a].lv - 1)
  {
    var l := h[a].lv - 1;
    h[a := Block(l, false)][BuddyOf(a, l) := Block(l, true)]
  }

  // Splitting a held block: the right half becomes free, the left half is held.
  lemma SplitOk(h: Heap, owned: set<nat>, a: nat)
    requires Inv(h, owned) && a in h && !h[a].free && h[a].lv > MIN_LEVEL
    ensures BuddyOf(a, h[a].lv - 1) == a + Size(h[a].lv - 1) && BuddyOf(a, h[a].lv - 1) !in h
    ensures Inv(SplitHeap(h, a), owned)
  {
    hide Aligned, Size, PageOf, BuddyOf, Single, Followed, Homed, Apart, Gapless;
    var l := h[a].lv - 1;
    Halves(a, l);
    RightHalf(a, l + 1);
    var b := a + Size(l);
    var h' := SplitHeap(h, a);
    SplitApart(h, a, l);
    SplitHomed(h, owned, a, l);
    SplitGapless(h, a, l);
    forall c {:trigger Single(h', c)} | c in h' && h'[c].free ensures Single(h', c) {
      assert c != b ==> Single(h, c);
      SplitSingle(h, owned, a, l, c);
    }
  }

  lemma SplitHomed(h: Heap, owned: set<nat>, a: nat, l: int)
    requires Homed(h, owned) && a in h && IsLevel(l) && h[a].lv == l + 1
    requires BuddyOf(a, l) == a + Size(l) && PageOf(a + Size(l)) == PageOf(a)
    ensures Homed(SplitHeap(h, a), owned)
  {
    hide Size, PageOf, BuddyOf;
    assert PageOf(a) in owned;
  }

  lemma SplitApart(h: Heap, a: nat, l: int)
    requires Shaped(h) && Apart(h) && a in h && IsLevel(l) && h[a].lv == l + 1 && Aligned(a, l)
    requires BuddyOf(a, l) == a + Size(l) && Aligned(a + Size(l), l) && Size(l + 1) == 2 * Size(l)
    ensures Shaped(SplitHeap(h, a)) && Apart(SplitHeap(h, a)) && a + Size(l) !in h
  {
    hide Aligned, Size, BuddyOf;
    var h' := SplitHeap(h, a);
    assert Shaped(h');
    forall c, d | c in h' && d in h' && c < d ensures End(h', c) <= d {
      assert c in h && d in h ==> End(h, c) <= d;
      assert c in h && c < a ==> End(h, c) <= a;
      assert d in h && a < d ==> End(h, a) <= d;
    }
  }

  lemma SplitGapless(h: Heap, a: nat, l: int)
    requires Shaped(h) && Gapless(h) && a in h && IsLevel(l) && h[a].lv == l + 1
    requires BuddyOf(a, l) == a + Size(l) && Size(l + 1) == 2 * Size(l) && Shaped(SplitHeap(h, a))
    ensures Gapless(SplitHeap(h, a))
  {
    hide Aligned, Size, BuddyOf;
    var h' := SplitHeap(h, a);
    forall c {:trigger Followed(h', c)} | c in h' ensures Followed(h', c) {
      assert c in h ==> Followed(h, c);
      assert Followed(h, a);
    }
  }

  lemma SplitSingle(h: Heap, owned: set<nat>, a: nat, l: int, c: nat)
    requires Tiled(h, owned) && a in h && IsLevel(l) && h[a].lv == l + 1
    requires c in SplitHeap(h, a) && SplitHeap(h, a)[c].free && (c == BuddyOf(a, l) || Single(h, c))
    ensures Single(SplitHeap(h, a), c)
  {
    hide Aligned, Size, PageOf;
    Halves(a, l);
    if c != BuddyOf(a, l) && IsLevel(h[c].lv + 1) { Pair(c, h[c].lv); }
  }

  function MergeHeap(h: Heap, a: nat, b: nat): Heap
    requires a in h && b in h
  {
    (h - {a, b})[(if a < b then a else b) := Block(h[a].lv + 1, false)]
  }

  // Merging a held block with its free buddy.
  lemma MergeOk(h: Heap, owned: set<nat>, a: nat, b: nat)
    requires Inv(h, owned) && a in h && !h[a].free && h[a].lv < MAX_LEVEL
    requires b == BuddyOf(a, h[a].lv) && b in h && h[b] == Block(h[a].lv, true)
    ensures Inv(MergeHeap(h, a, b), owned)
  {
    hide Aligned, Size, PageOf, BuddyOf, Apart, Gapless, Coalesced, Homed;
    var l := h[a].lv;
    Pair(a, l);
    var c, d := if a < b then a else b, if a < b then b else a;
    Halves(c, l);
    MergeApart(h, a, b, c, d);
    MergeHomed(h, owned, a, b, c, d, l);
    MergeGapless(h, a, b, c, d);
    MergeCoalesced(h, a, b, c);
  }

  lemma MergeHomed(h: Heap, owned: set<nat>, a: nat, b: nat, c: nat, d: nat, l: int)
    requires Homed(h, owned) && a in h && b in h && a != b
    requires c == (if a < b then a else b) && d == (if a < b then b else a)
    requires IsLevel(l) && IsLevel(l + 1) && Aligned(c, l + 1) && d == c + Size(l)
    ensures Homed(MergeHeap(h, a, b), owned)
  {
    hide Aligned, Size, PageOf;
    RightHalf(c, l + 1);
    NotPageStart(c, l);
    assert PageOf(c) == PageOf(d) && PageOf(a) in owned;
  }

  lemma MergeCoalesced(h: Heap, a: nat, b: nat, c: nat)
    requires Shaped(h) && Coalesced(h) && a in h && b in h && !h[a].free && Shaped(MergeHeap(h, a, b))
    requires c == if a < b then a else b
    ensures Coalesced(MergeHeap(h, a, b))
  {
    hide Aligned, Size, BuddyOf;
    var h' := MergeHeap(h, a, b);
    forall x {:trigger Single(h', x)} | x in h' && h'[x].free ensures Single(h', x) {
      assert Single(h, x);
      MergeSingle(h, h', c, x);
    }
  }

  // The right half of a pair does not start a page.
  lemma NotPageStart(c: nat, l: int)
    requires IsLevel(l) && IsLevel(l + 1) && Aligned(c, l + 1)
    ensures (c + Size(l)) % PGSIZE != 0
  {
    hide PageOf;
    Halves(c, l);
    InPage(c, l + 1);
    PageStart(c);
    NotMultiple(PageOf(c), c + Size(l));
  }

  lemma NotMultiple(p: nat, x: nat)
    requires p % PGSIZE == 0 && p < x < p + PGSIZE
    ensures x % PGSIZE != 0
  {
  }

  lemma MergeApart(h: Heap, a: nat, b: nat, c: nat, d: nat)
    requires Shaped(h) && Apart(h) && a in h && b in h && h[a].lv == h[b].lv && IsLevel(h[a].lv + 1)
    requires a != b && c == (if a < b then a else b) && d == (if a < b then b else a)
    requires d == c + Size(h[a].lv) && Size(h[a].lv + 1) == 2 * Size(h[a].lv) && Aligned(c, h[a].lv + 1)
    ensures Shaped(MergeHeap(h, a, b)) && Apart(MergeHeap(h, a, b))
  {
    hide Aligned, Size;
    var h' := MergeHeap(h, a, b);
    assert c in h && d in h && End(h, d) == End(h', c);
    forall x, y | x in h' && y in h' && x < y ensures End(h', x) <= y {
      assert End(h, x) <= y;
    }
  }

  lemma MergeGapless(h: Heap, a: nat, b: nat, c: nat, d: nat)
    requires Shaped(h) && Apart(h) && Gapless(h) && a in h && b in h && h[a].lv == h[b].lv && IsLevel(h[a].lv + 1)
    requires a != b && c == (if a < b then a else b) && d == (if a < b then b else a)
    requires d == c + Size(h[a].lv) && Size(h[a].lv + 1) == 2 * Size(h[a].lv) && Shaped(MergeHeap(h, a, b))
    ensures Gapless(MergeHeap(h, a, b))
  {
    hide Aligned, Size;
    var h' := MergeHeap(h, a, b);
    assert c in h && d in h;
    forall x {:trigger Followed(h', x)} | x in h' ensures Followed(h', x) {
      assert Followed(h, d) && x in h && Followed(h, x);
      MergeEnds(h, h', c, d, x);
    }
  }

  // Where a block of the merged heap ends, and that its successor is still there.
  lemma MergeEnds(h: Heap, h': Heap, c: nat, d: nat, x: nat)
    requires Shaped(h) && Shaped(h') && Apart(h) && c in h && d in h && h[c].lv == h[d].lv && c < d && d == End(h, c)
    requires c in h' && End(h', c) == End(h, d) && x in h && x in h' && (x != c ==> h'[x] == h[x])
    requires forall y :: y in h' <==> y in h && y != d
    ensures End(h', x) == if x == c then End(h, d) else End(h, x)
    ensures End(h', x) in h ==> End(h', x) in h'
  {
    hide Aligned, Size;
    assert x != c && x < d ==> x < c || c < x;
    assert x < c ==> End(h, x) <= c;
    assert c < x ==> End(h, c) <= x;
  }

  // A free block whose buddy starts elsewhere keeps its single state.
  lemma MergeSingle(h: Heap, h': Heap, c: nat, x: nat)
    requires Shaped(h) && Shaped(h') && x in h && x in h' && h[x] == h'[x] && Single(h, x)
    requires c in h' && !h'[c].free && forall y :: y in h' && y != c ==> y in h && h'[y] == h[y]
    requires h[x].free
    ensures Single(h', x)
  {
    hide Aligned, Size, BuddyOf;
  }

  // Putting a held block whose buddy is not free on the free list.
  lemma ReleaseOk(h: Heap, owned: set<nat>, a: nat)
    requires Inv(h, owned) && a in h && !h[a].free && h[a].lv < MAX_LEVEL
    requires BuddyOf(a, h[a].lv) in h ==> h[BuddyOf(a, h[a].lv)] != Block(h[a].lv, true)
    ensures Inv(h[a := Block(h[a].lv, true)], owned)
  {
    hide Aligned, Size, PageOf, Followed;
    var h' := h[a := Block(h[a].lv, true)];
    assert Shaped(h') && Homed(h', owned) && Apart(h');
    SameLevels(h, h');
    forall x {:trigger Single(h', x)} | x in h' && h'[x].free ensures Single(h', x) {
      if x != a {
        assert Single(h, x);
        Pair(x, h[x].lv);
      }
    }
  }

  // Taking a free block from its list.
  lemma GrabOk(h: Heap, owned: set<nat>, a: nat)
    requires Inv(h, owned) && a in h
    ensures Inv(h[a := Block(h[a].lv, false)], owned)
  {
    hide Aligned, Size, PageOf, BuddyOf, Followed;
    var h' := h[a := Block(h[a].lv, false)];
    assert Shaped(h') && Homed(h', owned) && Apart(h');
    SameLevels(h, h');
    forall x {:trigger Single(h', x)} | x in h' && h'[x].free ensures Single(h', x) {
      assert Single(h, x);
    }
  }

  lemma SameLevels(h: Heap, h': Heap)
    requires Shaped(h) && Shaped(h') && Gapless(h)
    requires h'.Keys == h.Keys && forall x :: x in h ==> h'[x].lv == h[x].lv
    ensures Gapless(h')
  {
    hide Aligned, Size;
    forall x {:trigger Followed(h', x)} | x in h' ensures Followed(h', x) {
      assert Followed(h, x);
    }
  }

  // A page taken from the page pool.
  lemma AddPageOk(h: Heap, owned: set<nat>, p: nat)
    requires Inv(h, owned) && p % PGSIZE == 0 && p !in owned
    ensures p !in h && Inv(h[p := Block(MAX_LEVEL, false)], owned + {p})
  {
    hide Aligned, Size, BuddyOf, PageOf, Gapless, Coalesced;
    PageAligned(p);
    PageSize();
    var h' := h[p := Block(MAX_LEVEL, false)];
    PageOfPage(p);
    forall a | a in h ensures a != p && (a < p ==> End(h, a) <= p) && (p < a ==> p + PGSIZE <= a) {
      OutsidePage(a, h[a].lv, p);
    }
    assert Shaped(h') && Homed(h', owned + {p}) && Apart(h');
    AddGapless(h, p);
  }

  lemma PageOfPage(p: nat)
    requires p % PGSIZE == 0
    ensures PageOf(p) == p
  {
  }

  lemma OutsidePage(a: nat, l: int, p: nat)
    requires IsLevel(l) && Aligned(a, l) && p % PGSIZE == 0 && PageOf(a) != p
    ensures a != p && (a < p ==> a + Size(l) <= p) && (p < a ==> p + PGSIZE <= a)
  {
    hide Aligned, Size;
    InPage(a, l);
    PageStart(a);
    PagesApart(PageOf(a), p);
  }

  lemma AddGapless(h: Heap, p: nat)
    requires Shaped(h) && Gapless(h) && Coalesced(h) && p !in h && p % PGSIZE == 0
    requires Shaped(h[p := Block(MAX_LEVEL, false)]) && Size(MAX_LEVEL) == PGSIZE
    ensures Gapless(h[p := Block(MAX_LEVEL, false)]) && Coalesced(h[p := Block(MAX_LEVEL, false)])
  {
    hide Aligned, Size, BuddyOf;
    var h' := h[p := Block(MAX_LEVEL, false)];
    forall x {:trigger Followed(h', x)} | x in h' ensures Followed(h', x) {
      if x != p { assert Followed(h, x); }
    }
    forall x {:trigger Single(h', x)} | x in h' && h'[x].free ensures Single(h', x) {
      assert Single(h, x);
    }
  }

  lemma PagesApart(p: nat, q: nat)
    requires p % PGSIZE == 0 && q % PGSIZE == 0 && p != q
    ensures p + PGSIZE <= q || q + PGSIZE <= p
  {
  }

  lemma DropGapless(h: Heap, p: nat)
    requires Shaped(h) && Gapless(h) && p % PGSIZE == 0
    ensures Gapless(h - {p})
  {
    hide Aligned, Size;
    var h' := h - {p};
    forall x {:trigger Followed(h', x)} | x in h' ensures Followed(h', x) {
      assert Followed(h, x) && End(h', x) == End(h, x);
    }
  }

  // A page given back to the page pool.
  lemma DropPageOk(h: Heap, owned: set<nat>, p: nat)
    requires Inv(h, owned) && p in h && h[p] == Block(MAX_LEVEL, false)
    ensures p in owned && Inv(h - {p}, owned - {p})
  {
    hide Size, BuddyOf;
    PageSize();
    InPage(p, MAX_LEVEL);
    assert PageOf(p) == p && p % PGSIZE == 0;
    var h' := h - {p};
    forall a | a in h' ensures PageOf(a) != p && End(h, a) != p + PGSIZE {
      PageStart(a);
      InPage(a, h[a].lv);
    }
    hide PageOf;
    assert Shaped(h') && Homed(h', owned - {p}) && Apart(h');
    DropGapless(h, p);
    DropCoalesced(h, p);
  }

  lemma DropCoalesced(h: Heap, p: nat)
    requires Shaped(h) && Shaped(h - {p}) && Coalesced(h)
    ensures Coalesced(h - {p})
  {
    hide Size, BuddyOf, Aligned;
    var h' := h - {p};
    forall x {:trigger Single(h', x)} | x in h' && h'[x].free ensures Single(h', x) {
      assert Single(h, x);
    }
  }

  // ---- What the invariant gives over whole runs ----------------------------

  predicate Held(h: Heap, a: nat, l: int) { a in h && h[a] == Block(l, false) }

  // An owned page has a held block.
  lemma PageHasHeld(h: Heap, owned: set<nat>, p: nat) returns (a: nat)
    requires Inv(h, owned) && p in owned
    ensures a in h && !h[a].free && PageOf(a) == p
  {
    hide Aligned, Size, BuddyOf, Followed;
    PageSize();
    assert PageOf(p) == p && p in h;
    if NoneHeld(h, p, MAX_LEVEL) {
      assert Aligned(p, MAX_LEVEL) by { PageAligned(p); }
      var c := Collapse(h, owned, p, MAX_LEVEL);
      assert Single(h, c);
      SizesGrow(h[c].lv, MAX_LEVEL);
      assert false;
    } else {
      a :| a in h && !h[a].free && End(h, a) > p && p + PGSIZE > a;
      InPage(a, h[a].lv);
      PageStart(a);
      assert PageOf(a) != p ==> PageOf(a) + PGSIZE <= p || p + PGSIZE <= PageOf(a) by {
        if PageOf(a) != p { PagesApart(PageOf(a), p); }
      }
    }
  }

  lemma PageAligned(p: nat)
    requires p % PGSIZE == 0
    ensures Aligned(p, MAX_LEVEL)
  {
    PageSize();
  }

  /** No leak: once no block is held, every free list is empty and every page is
      back in the page pool. */
  lemma AllFreed(h: Heap, owned: set<nat>)
    requires Inv(h, owned) && forall a :: a in h ==> h[a].free
    ensures owned == {} && h == map[]
  {
    hide Aligned, Size, BuddyOf, Followed, Single;
    if owned != {} {
      var p :| p in owned;
      var a := PageHasHeld(h, owned, p);
    }
    assert forall a {:trigger a in h} :: a in h ==> PageOf(a) in owned;
  }

  ghost predicate SameHeld(h: Heap, h': Heap) {
    forall a, l :: Held(h, a, l) <==> Held(h', a, l)
  }

  // A region disjoint from the held blocks of one heap is so for another with the same ones.
  lemma NoneHeldTransfer(h: Heap, owned: set<nat>, h': Heap, owned': set<nat>, a: nat)
    requires Inv(h, owned) && Inv(h', owned') && SameHeld(h, h') && a in h && h[a].free
    ensures NoneHeld(h', a, h[a].lv)
  {
    hide Aligned, Size, BuddyOf, Followed, Single;
    forall c | c in h' && !h'[c].free ensures End(h', c) <= a || a + Size(h[a].lv) <= c {
      assert Held(h', c, h'[c].lv) && Held(h, c, h'[c].lv);
      assert c != a;
    }
  }

  // A free block of one heap is a free block of any other with the same held blocks.
  lemma FreeAgrees(h: Heap, owned: set<nat>, h': Heap, owned': set<nat>, a: nat)
    requires Inv(h, owned) && Inv(h', owned') && SameHeld(h, h') && owned == owned' && a in h && h[a].free
    ensures a in h' && h'[a] == h[a]
  {
    hide Aligned, Size, BuddyOf, Followed, Single;
    assert PageOf(a) in owned;
    NoneHeldTransfer(h, owned, h', owned', a);
    var c := Collapse(h', owned', a, h[a].lv);
    NoneHeldTransfer(h', owned', h, owned, c);
    assert PageOf(c) in owned;
    var d := Collapse(h, owned, c, h'[c].lv);
    assert d == a;
    SameSize(h[a].lv, h'[c].lv);
  }

  lemma SameSize(k: int, l: int)
    requires IsLevel(k) && IsLevel(l) && Size(k) == Size(l)
    ensures k == l
  {
    if k < l { SizesGrow(k, l); } else if l < k { SizesGrow(l, k); }
  }

  // The held blocks other than the one at b are the same.
  ghost predicate HeldMoved(h: Heap, h': Heap, b: nat) {
    forall a, l :: a != b ==> (Held(h, a, l) <==> Held(h', a, l))
  }

  predicate NotHeld(h: Heap, a: nat) { a in h ==> h[a].free }

  // The held blocks of h are those of h0 except the one at b.
  ghost predicate HeldMinus(h0: Heap, h: Heap, b: nat) {
    forall a, l :: Held(h, a, l) <==> Held(h0, a, l) && a != b
  }

  ghost predicate HeldMinusBut(h0: Heap, h: Heap, b: nat, block: nat) {
    forall a, l :: a != block ==> (Held(h, a, l) <==> Held(h0, a, l) && a != b)
  }

  lemma NoLongerHeld(h0: Heap, h: Heap, h': Heap, b: nat, block: nat)
    requires HeldMinusBut(h0, h, b, block) && (block != b ==> NotHeld(h0, block)) && NotHeld(h', block)
    requires forall a :: a != block ==> (a in h' <==> a in h) && (a in h ==> h'[a] == h[a])
    ensures HeldMinus(h0, h', b)
  {
    forall a, l ensures Held(h', a, l) <==> Held(h0, a, l) && a != b {
      if a != block { assert Held(h', a, l) <==> Held(h, a, l); }
    }
  }

  lemma MergedHeld(h0: Heap, h: Heap, h': Heap, b: nat, block: nat, merged: nat)
    requires HeldMinusBut(h0, h, b, block) && (block != b ==> NotHeld(h0, block))
    requires forall a, l :: a != block && a != merged ==> (Held(h', a, l) <==> Held(h, a, l))
    requires merged != block ==> NotHeld(h, merged) && block !in h'
    ensures HeldMinusBut(h0, h', b, merged) && (merged != b ==> NotHeld(h0, merged))
  {
    if merged != block && merged != b && merged in h0 {
      assert Held(h0, merged, h0[merged].lv) <==> Held(h, merged, h0[merged].lv);
    }
    if merged != block {
      forall l ensures !Held(h', block, l) && !(Held(h0, block, l) && block != b) {}
    }
  }

  /** free undoes alloc: taking the block at b away again gives back the same heap. */
  lemma FreeUndoesAlloc(h0: Heap, owned0: set<nat>, h1: Heap, h2: Heap, owned2: set<nat>, b: nat)
    requires Inv(h0, owned0) && Inv(h2, owned2)
    requires HeldMoved(h0, h1, b) && (b in h0 ==> h0[b].free)
    requires HeldMinus(h1, h2, b)
    ensures h2 == h0 && owned2 == owned0
  {
    hide Inv;
    Canonical(h0, owned0, h2, owned2);
  }

  /** The free lists are canonical: the live blocks alone determine the owned pages
      and the free blocks. */
  lemma Canonical(h: Heap, owned: set<nat>, h': Heap, owned': set<nat>)
    requires Inv(h, owned) && Inv(h', owned') && SameHeld(h, h')
    ensures owned == owned' && h == h'
  {
    hide Aligned, Size, BuddyOf, Followed, Single, Shaped, Apart, Gapless, Coalesced;
    OwnedAgree(h, owned, h', owned');
    OwnedAgree(h', owned', h, owned);
    forall a | a in h ensures a in h' && h'[a] == h[a] {
      if h[a].free { FreeAgrees(h, owned, h', owned', a); } else { assert Held(h, a, h[a].lv) && Held(h', a, h[a].lv); }
    }
    forall a | a in h' ensures a in h {
      if h'[a].free {
        FreeAgrees(h', owned', h, owned, a);
      } else {
        assert Held(h', a, h'[a].lv) && Held(h, a, h'[a].lv);
      }
    }
  }

  lemma OwnedAgree(h: Heap, owned: set<nat>, h': Heap, owned': set<nat>)
    requires Inv(h, owned) && Inv(h', owned') && SameHeld(h, h')
    ensures owned <= owned'
  {
    hide Aligned, Size, BuddyOf, Followed, Single, Shaped, Apart, Gapless, Coalesced, PageOf;
    forall p | p in owned ensures p in owned' {
      var a := PageHasHeld(h, owned, p);
      assert Held(h, a, h[a].lv) && Held(h', a, h[a].lv);
      assert PageOf(a) in owned';
    }
  }

  // ---- The allocator ---------------------------------------------------------

  ghost predicate NoDup(s: seq<nat>) {
    forall i, j :: 0 <= i < j < |s| ==> s[i] != s[j]
  }

  // Each list holds exactly the free blocks of its level, once.
  ghost predicate Lists(fl: seq<seq<nat>>, h: Heap) {
    && |fl| == MAX_LEVEL + 1
    && (forall i :: 0 <= i <= MAX_LEVEL ==> NoDup(fl[i]))
    && (forall i, a :: 0 <= i <= MAX_LEVEL ==> (a in fl[i] <==> a in h && h[a] == Block(i, true)))
  }

  // The pages of the page pool and the owned pages are all the pages, without overlap.
  ghost predicate PoolOk(pool: seq<nat>, owned: set<nat>, pages: set<nat>) {
    && NoDup(pool)
    && (forall p :: p in pages ==> p % PGSIZE == 0)
    && (forall p :: p in pages <==> p in owned || p in pool)
    && (forall p :: p in pool ==> p !in owned)
  }

  // The level byte of every held block but one.
  ghost predicate Headers(hdr: map<nat, int>, h: Heap, but: int) {
    forall a :: a in h && !h[a].free && a != but ==> a in hdr && hdr[a] == h[a].lv
  }

  method CalcLevel(size: nat) returns (lv: int)
    requires size <= PGSIZE
    ensures IsLevel(lv) && size <= Size(lv)
    ensures lv > MIN_LEVEL ==> Size(lv - 1) < size
  {
    lv := MIN_LEVEL;
    var sz := 16;
    PageSize();
    while size > sz
      invariant IsLevel(lv) && sz == Size(lv)
      invariant lv > MIN_LEVEL ==> Size(lv - 1) < size
      decreases MAX_LEVEL - lv
    {
      sz := 2 * sz;
      lv := lv + 1;
    }
  }

  lemma HasLevel(h: Heap, owned: set<nat>, a: nat)
    requires Inv(h, owned) && a in h
    ensures IsLevel(h[a].lv)
  {
  }

  lemma PopList(fl: seq<seq<nat>>, h: Heap, i: int)
    requires Lists(fl, h) && 0 <= i <= MAX_LEVEL && fl[i] != []
    ensures fl[i][0] in h && h[fl[i][0]] == Block(i, true)
    ensures Lists(fl[i := fl[i][1..]], h[fl[i][0] := Block(i, false)])
  {
    var a := fl[i][0];
    assert a in fl[i] && fl[i] == [a] + fl[i][1..];
  }

  lemma PushList(fl: seq<seq<nat>>, h: Heap, h': Heap, i: int, a: nat)
    requires Lists(fl, h) && 0 <= i <= MAX_LEVEL && !(a in h && h[a].free)
    requires h' == h[a := Block(i, true)]
    ensures Lists(fl[i := [a] + fl[i]], h')
  {
    assert a !in fl[i];
  }

  // Held blocks may come, go and change level without touching the lists.
  lemma SameFree(fl: seq<seq<nat>>, h: Heap, h': Heap)
    requires Lists(fl, h)
    requires forall a, i :: (a in h && h[a] == Block(i, true)) <==> (a in h' && h'[a] == Block(i, true))
    ensures Lists(fl, h')
  {
  }

  lemma RemoveFromList(fl: seq<seq<nat>>, h: Heap, h': Heap, i: int, k: int)
    requires Lists(fl, h) && 0 <= i <= MAX_LEVEL && 0 <= k < |fl[i]|
    requires forall a, j :: (a in h' && h'[a] == Block(j, true)) <==>
               (a in h && h[a] == Block(j, true) && a != fl[i][k])
    ensures Lists(fl[i := fl[i][..k] + fl[i][k + 1..]], h')
  {
    var l := fl[i][..k] + fl[i][k + 1..];
    assert fl[i][k] in fl[i];
    forall a ensures a in l <==> a in fl[i] && a != fl[i][k] {
      if a in fl[i] && a != fl[i][k] {
        var j :| 0 <= j < |fl[i]| && fl[i][j] == a;
        assert if j < k then l[j] == a else l[j - 1] == a;
      }
    }
    assert NoDup(l) by {
      assert forall j :: 0 <= j < |l| ==> l[j] == if j < k then fl[i][j] else fl[i][j + 1];
    }
    var fl' := fl[i := l];
    forall j, a | 0 <= j <= MAX_LEVEL ensures a in fl'[j] <==> a in h' && h'[a] == Block(j, true) {
      assert a in fl[j] <==> a in h && h[a] == Block(j, true);
    }
  }

  // A free block of level lv or above, and a free block of at least n bytes.
  ghost predicate FreeFrom(h: Heap, lv: int) {
    exists a :: a in h && h[a].free && h[a].lv >= lv
  }

  ghost predicate FreeFits(h: Heap, n: nat) {
    exists a :: a in h && h[a].free && IsLevel(h[a].lv) && Size(h[a].lv) >= n
  }

  // The lists from lv up are empty, or the first that is not gives a block.
  lemma ListsEmpty(fl: seq<seq<nat>>, h: Heap, owned: set<nat>, lv: int, i: int)
    requires Lists(fl, h) && Inv(h, owned) && IsLevel(lv) && lv <= i <= MAX_LEVEL
    requires forall j :: lv <= j < i ==> fl[j] == []
    requires fl[i] != [] || i == MAX_LEVEL
    ensures FreeFrom(h, lv) <==> fl[i] != []
  {
    if fl[i] != [] {
      var a := fl[i][0];
      assert a in fl[i] && h[a] == Block(i, true);
    } else {
      forall a | a in h && h[a].free ensures h[a].lv < lv {
        HasLevel(h, owned, a);
        assert a in fl[h[a].lv];
      }
    }
  }

  // The level computed for n bytes is the border between blocks that hold them and blocks that do not.
  lemma LevelFits(h: Heap, owned: set<nat>, lv: int, n: nat)
    requires Inv(h, owned) && IsLevel(lv) && n <= Size(lv) && (lv > MIN_LEVEL ==> Size(lv - 1) < n)
    ensures FreeFrom(h, lv) <==> FreeFits(h, n)
  {
    hide Size;
    forall a | a in h ensures IsLevel(h[a].lv) && (h[a].lv >= lv <==> Size(h[a].lv) >= n) {
      HasLevel(h, owned, a);
      if h[a].lv > lv { SizesGrow(lv, h[a].lv); }
      if h[a].lv < lv - 1 { SizesGrow(h[a].lv, lv - 1); }
    }
  }

  class BuddyAllocator {
    var freelist: seq<seq<nat>>
    var pool: seq<nat>
    var hdr: map<nat, int>
    ghost var heap: Heap
    ghost var owned: set<nat>
    ghost const pages: set<nat>

    ghost predicate ValidBut(block: int)
      reads this
    {
      && |freelist| == MAX_LEVEL + 1
      && Inv(heap, owned) && Lists(freelist, heap) && PoolOk(pool, owned, pages) && Headers(hdr, heap, block)
    }

    ghost predicate Valid()
      reads this
    {
      ValidBut(-1)
    }

    constructor (free: seq<nat>)
      requires NoDup(free) && forall p :: p in free ==> p % PGSIZE == 0
      ensures Valid() && heap == map[] && pool == free
    {
      freelist := seq(MAX_LEVEL + 1, _ => []);
      pool, hdr, heap, owned := free, map[], map[], {};
      pages := set p | p in free;
    }

    // Take the first block of the smallest non-empty list from lv up, or a page.
    method Take(lv: int) returns (ok: bool, block: nat, i: int)
      requires Valid() && IsLevel(lv)
      modifies this
      ensures ok <==> old(pool) != [] || FreeFrom(old(heap), lv)
      ensures !ok ==> Valid() && heap == old(heap) && owned == old(owned) && pool == old(pool)
      ensures ok ==> lv <= i <= MAX_LEVEL && ValidBut(block) && Held(heap, block, i)
      ensures ok ==> (block in old(heap) ==> old(heap)[block] == Block(i, true))
      ensures ok ==> heap == old(heap)[block := Block(i, false)]
    {
      hide Aligned, Size, Tiled, Coalesced;
      i := lv;
      while freelist[i] == [] && i < MAX_LEVEL
        invariant lv <= i <= MAX_LEVEL && forall j :: lv <= j < i ==> freelist[j] == []
        decreases MAX_LEVEL - i
      {
        i := i + 1;
      }
      ListsEmpty(freelist, heap, owned, lv, i);
      if freelist[i] != [] {
        block := freelist[i][0];
        PopList(freelist, heap, i);
        GrabOk(heap, owned, block);
        freelist := freelist[i := freelist[i][1..]];
        heap := heap[block := Block(i, false)];
        return true, block, i;
      }
      if pool == [] { return false, 0, i; }
      block := pool[0];
      assert block in pool && pool == [block] + pool[1..];
      AddPageOk(heap, owned, block);
      SameFree(freelist, heap, heap[block := Block(MAX_LEVEL, false)]);
      pool := pool[1..];
      heap := heap[block := Block(MAX_LEVEL, false)];
      owned := owned + {block};
      return true, block, i;
    }

    // One round of the splitting loop of alloc.
    method SplitOnce(block: nat, i: int)
      requires ValidBut(block) && Held(heap, block, i) && IsLevel(i) && MIN_LEVEL < i
      modifies this
      ensures ValidBut(block) && Held(heap, block, i - 1) && owned == old(owned)
      ensures HeldMoved(old(heap), heap, block)
    {
      hide Aligned, Size, Tiled, Coalesced, BuddyOf;
      SplitOk(heap, owned, block);
      var buddy := BuddyOf(block, i - 1);
      SameFree(freelist, heap, heap[block := Block(i - 1, false)]);
      PushList(freelist, heap[block := Block(i - 1, false)], SplitHeap(heap, block), i - 1, buddy);
      freelist := freelist[i - 1 := [buddy] + freelist[i - 1]];
      heap := SplitHeap(heap, block);
    }

    method Alloc(sz: nat) returns (ok: bool, pa: nat)
      requires Valid() && sz + 8 <= PGSIZE
      modifies this
      ensures Valid()
      ensures ok <==> old(pool) != [] || FreeFits(old(heap), sz + 8)
      ensures !ok ==> heap == old(heap) && pool == old(pool)
      ensures ok ==>
                && pa >= 8 && pa - 8 in heap && !heap[pa - 8].free
                && sz + 8 <= Size(heap[pa - 8].lv)
                && (heap[pa - 8].lv > MIN_LEVEL ==> Size(heap[pa - 8].lv - 1) < sz + 8)
                && HeldMoved(old(heap), heap, pa - 8)
                && (pa - 8 in old(heap) ==> old(heap)[pa - 8].free)
    {
      hide Aligned, Size, Inv, Lists, PoolOk, BuddyOf;
      var lv := CalcLevel(sz + 8);
      LevelFits(heap, owned, lv, sz + 8);
      var block, i;
      ok, block, i := Take(lv);
      if !ok { return false, 0; }
      while i > lv
        invariant lv <= i <= MAX_LEVEL && ValidBut(block) && Held(heap, block, i)
        invariant HeldMoved(old(heap), heap, block)
      {
        SplitOnce(block, i);
        i := i - 1;
      }
      hdr := hdr[block := lv];
      return true, block + 8;
    }

    // One round of the merging loop of free: the position of the buddy in its list, or the length of the list.
    method FindBuddy(buddy: nat, i: int) returns (k: nat)
      requires |freelist| == MAX_LEVEL + 1 && 0 <= i <= MAX_LEVEL
      ensures k <= |freelist[i]| && (k < |freelist[i]| ==> freelist[i][k] == buddy)
      ensures k == |freelist[i]| <==> buddy !in freelist[i]
    {
      k := 0;
      while k < |freelist[i]| && freelist[i][k] != buddy
        invariant k <= |freelist[i]| && buddy !in freelist[i][..k]
      {
        k := k + 1;
      }
    }

    method MergeOnce(block: nat, i: int, buddy: nat, k: nat) returns (merged: nat)
      requires ValidBut(block) && Held(heap, block, i) && IsLevel(i) && i < MAX_LEVEL && buddy == BuddyOf(block, i)
      requires k < |freelist[i]| && freelist[i][k] == buddy
      modifies this
      ensures ValidBut(merged) && Held(heap, merged, i + 1) && owned == old(owned) && pool == old(pool)
      ensures forall a, l :: a != block && a != merged ==> (Held(heap, a, l) <==> Held(old(heap), a, l))
      ensures merged != block ==> NotHeld(old(heap), merged) && block !in heap
    {
      hide Aligned, Size, Tiled, Coalesced, BuddyOf;
      assert buddy in freelist[i];
      MergeOk(heap, owned, block, buddy);
      merged := if block < buddy then block else buddy;
      RemoveFromList(freelist, heap, MergeHeap(heap, block, buddy), i, k);
      freelist := freelist[i := freelist[i][..k] + freelist[i][k + 1..]];
      heap := MergeHeap(heap, block, buddy);
    }

    method Free(pa: nat)
      requires Valid() && pa >= 8 && pa - 8 in heap && !heap[pa - 8].free
      modifies this
      ensures Valid()
      ensures HeldMinus(old(heap), heap, pa - 8)
    {
      hide Aligned, Size, Inv, Lists, PoolOk, BuddyOf;
      HasLevel(heap, owned, pa - 8);
      var i := hdr[pa - 8];
      var block: nat := pa - 8;
      while true
        invariant IsLevel(i) && ValidBut(block) && Held(heap, block, i)
        invariant HeldMinusBut(old(heap), heap, pa - 8, block)
        invariant block != pa - 8 ==> NotHeld(old(heap), block)
        decreases MAX_LEVEL - i
      {
        if i == MAX_LEVEL {
          ghost var before := heap;
          GivePage(block);
          NoLongerHeld(old(heap), before, heap, pa - 8, block);
          return;
        }
        var buddy := BuddyOf(block, i);
        var k := FindBuddy(buddy, i);
        if k == |freelist[i]| {
          ghost var before := heap;
          PutBlock(block, i, buddy);
          NoLongerHeld(old(heap), before, heap, pa - 8, block);
          return;
        }
        ghost var before, held := heap, block;
        block := MergeOnce(block, i, buddy, k);
        MergedHeld(old(heap), before, heap, pa - 8, held, block);
        i := i + 1;
      }
    }

    // memAllocator.free of a whole page.
    method GivePage(block: nat)
      requires ValidBut(block) && Held(heap, block, MAX_LEVEL)
      modifies this
      ensures Valid() && pool == [block] + old(pool)
      ensures heap == old(heap) - {block}
    {
      hide Aligned, Size, Tiled, Coalesced, BuddyOf;
      DropPageOk(heap, owned, block);
      SameFree(freelist, heap, heap - {block});
      pool := [block] + pool;
      owned := owned - {block};
      heap := heap - {block};
    }

    method PutBlock(block: nat, i: int, buddy: nat)
      requires ValidBut(block) && Held(heap, block, i) && IsLevel(i) && i < MAX_LEVEL
      requires buddy == BuddyOf(block, i) && buddy !in freelist[i]
      modifies this
      ensures Valid() && heap == old(heap)[block := Block(i, true)]
    {
      hide Aligned, Size, Tiled, Coalesced, BuddyOf;
      ReleaseOk(heap, owned, block);
      PushList(freelist, heap, heap[block := Block(i, true)], i, block);
      freelist := freelist[i := [block] + freelist[i]];
      heap := heap[block := Block(i, true)];
    }
  }
}
