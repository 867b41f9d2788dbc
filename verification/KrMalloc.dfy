/** The user allocator of user/malloc.c: a circular, address-ordered, coalescing
    free list. Addresses are bytes; sizes count headers of 16 bytes. */
module KrMalloc {
  import opened Common

  const HEADER: nat := 16

  // One union header.
  datatype Header = Header(ptr: nat, size: nat)
  type Mem = map<nat, Header>

  function SetPtr(mem: Mem, a: nat, p: nat): Mem
    requires a in mem
  {
    mem[a := mem[a].(ptr := p)]
  }

  function SetSize(mem: Mem, a: nat, n: nat): Mem
    requires a in mem
  {
    mem[a := mem[a].(size := n)]
  }

  datatype Block = Block(size: nat, free: bool)
  type Blocks = map<nat, Block>

  function End(bs: Blocks, a: nat): nat
    requires a in bs
  {
    a + HEADER * bs[a].size
  }

  // ---- Blocks ------------------------------------------------------------

  ghost predicate Apart(bs: Blocks) {
    && (forall a :: a in bs ==> bs[a].size > 0)
    && (forall a, b :: a in bs && b in bs && a < b ==> End(bs, a) <= b)
  }

  // No two free blocks touch.
  ghost predicate Coalesced(bs: Blocks) {
    forall a, b :: a in bs && b in bs && bs[a].free && bs[b].free ==> End(bs, a) != b
  }

  ghost predicate Inside(bs: Blocks, a: nat, x: nat) {
    a in bs && a <= x < End(bs, a)
  }

  // The bytes of the blocks are exactly the bytes obtained from sbrk.
  ghost predicate Cover(bs: Blocks, units: set<nat>) {
    && (forall x :: x in units ==> exists a :: Inside(bs, a, x))
    && (forall x, a :: Inside(bs, a, x) ==> x in units)
  }

  function Joined(bs: Blocks, a: nat, b: nat): Blocks
    requires a in bs && b in bs
  {
    (bs - {b})[a := Block(bs[a].size + bs[b].size, bs[a].free)]
  }

  // Two touching blocks become one.
  lemma JoinOk(bs: Blocks, units: set<nat>, a: nat, b: nat)
    requires Apart(bs) && Cover(bs, units) && a in bs && b in bs && End(bs, a) == b
    ensures Apart(Joined(bs, a, b)) && Cover(Joined(bs, a, b), units)
    ensures End(Joined(bs, a, b), a) == End(bs, b)
  {
    hide Apart;
    JoinApart(bs, a, b);
    var bs' := Joined(bs, a, b);
    forall x: nat | x in units ensures exists c :: Inside(bs', c, x) {
      var c :| Inside(bs, c, x);
      if c == b { assert Inside(bs', a, x); } else { assert Inside(bs', c, x); }
    }
    forall x: nat, c: nat | Inside(bs', c, x) ensures x in units {
      if c == a && x >= b { assert Inside(bs, b, x); } else { assert Inside(bs, c, x); }
    }
  }

  lemma JoinApart(bs: Blocks, a: nat, b: nat)
    requires Apart(bs) && a in bs && b in bs && End(bs, a) == b
    ensures Apart(Joined(bs, a, b)) && a < b && End(Joined(bs, a, b), a) == End(bs, b)
  {
    var bs' := Joined(bs, a, b);
    assert End(bs', a) == End(bs, b);
    forall c, d | c in bs' && d in bs' && c < d ensures End(bs', c) <= d {
      assert c != a ==> End(bs', c) == End(bs, c);
      assert c == a ==> b < d;
    }
  }

  function Cut(bs: Blocks, a: nat, n: nat): Blocks
    requires a in bs && n < bs[a].size
  {
    bs[a := Block(bs[a].size - n, bs[a].free)][a + HEADER * (bs[a].size - n) := Block(n, false)]
  }

  // The tail of a block becomes a live block.
  lemma CutOk(bs: Blocks, units: set<nat>, a: nat, n: nat)
    requires Apart(bs) && Cover(bs, units) && a in bs && 0 < n < bs[a].size
    ensures a + HEADER * (bs[a].size - n) !in bs
    ensures Apart(Cut(bs, a, n)) && Cover(Cut(bs, a, n), units)
  {
    var q := a + HEADER * (bs[a].size - n);
    var bs' := Cut(bs, a, n);
    forall x: nat | x in units ensures exists c :: Inside(bs', c, x) {
      var c :| Inside(bs, c, x);
      if c == a && x >= q { assert Inside(bs', q, x); } else { assert Inside(bs', c, x); }
    }
    forall x: nat, c: nat | Inside(bs', c, x) ensures x in units {
      if c == q { assert Inside(bs, a, x); } else { assert Inside(bs, c, x); }
    }
  }

  lemma RetagOk(bs: Blocks, units: set<nat>, a: nat, free: bool)
    requires Apart(bs) && Cover(bs, units) && a in bs
    ensures Apart(bs[a := Block(bs[a].size, free)]) && Cover(bs[a := Block(bs[a].size, free)], units)
  {
    var bs' := bs[a := Block(bs[a].size, free)];
    forall x: nat | x in units ensures exists c :: Inside(bs', c, x) {
      var c :| Inside(bs, c, x);
      assert Inside(bs', c, x);
    }
    forall x: nat, c: nat | Inside(bs', c, x) ensures x in units {
      assert Inside(bs, c, x);
    }
  }

  // ---- The ring ------------------------------------------------------------

  function Nx(ring: seq<nat>, i: nat): nat {
    if i + 1 < |ring| then i + 1 else 0
  }

  ghost predicate Sorted(s: seq<nat>) {
    forall i, j :: 0 <= i < j < |s| ==> s[i] < s[j]
  }

  /** The free list, in address order from the base header on, closes on itself:
      the only link that goes down is the one from the last block to the base. */
  ghost predicate Linked(mem: Mem, ring: seq<nat>) {
    && |ring| > 0 && Sorted(ring)
    && forall i {:trigger Link(mem, ring, i)} :: 0 <= i < |ring| ==> Link(mem, ring, i)
  }

  predicate Link(mem: Mem, ring: seq<nat>, i: nat)
    requires i < |ring|
  {
    ring[i] in mem && mem[ring[i]].ptr == ring[Nx(ring, i)]
  }

  ghost predicate RingOf(ring: seq<nat>, bs: Blocks, base: nat) {
    && |ring| > 0 && ring[0] == base && base !in bs
    && (forall a :: a in bs ==> base < a)
    && (forall i :: 0 < i < |ring| ==> ring[i] in bs && bs[ring[i]].free)
    && (forall a :: a in bs && bs[a].free ==> a in ring)
  }

  ghost predicate Sizes(mem: Mem, bs: Blocks, base: nat) {
    && base in mem && mem[base].size == 0
    && forall a :: a in bs ==> a in mem && mem[a].size == bs[a].size
  }

  ghost predicate Inv(mem: Mem, ring: seq<nat>, bs: Blocks, units: set<nat>, base: nat) {
    && Linked(mem, ring) && RingOf(ring, bs, base) && Sizes(mem, bs, base)
    && Apart(bs) && Coalesced(bs) && Cover(bs, units)
  }

  // Taking ring[i] out of the list.
  lemma Unlink(mem: Mem, ring: seq<nat>, i: nat)
    requires Linked(mem, ring) && 0 < i < |ring|
    ensures Link(mem, ring, i - 1) && Link(mem, ring, i)
    ensures var p := ring[i - 1];
            Linked(SetPtr(mem, p, mem[ring[i]].ptr), ring[..i] + ring[i + 1..])
  {
    assert Link(mem, ring, i - 1) && Link(mem, ring, i);
    var p := ring[i - 1];
    var ring' := ring[..i] + ring[i + 1..];
    var mem' := SetPtr(mem, p, mem[ring[i]].ptr);
    forall k {:trigger Link(mem', ring', k)} | 0 <= k < |ring'| ensures Link(mem', ring', k) {
      assert Link(mem, ring, if k < i then k else k + 1);
      assert k != i - 1 ==> ring'[k] != p;
    }
  }

  // Putting a after ring[i].
  lemma Relink(mem: Mem, ring: seq<nat>, i: nat, a: nat)
    requires Linked(mem, ring) && i < |ring| && ring[i] < a && (i + 1 < |ring| ==> a < ring[i + 1]) && a in mem
    ensures Link(mem, ring, i)
    ensures var p := ring[i];
            Linked(SetPtr(SetPtr(mem, a, mem[p].ptr), p, a), ring[..i + 1] + [a] + ring[i + 1..])
  {
    assert Link(mem, ring, i);
    var p := ring[i];
    var ring' := ring[..i + 1] + [a] + ring[i + 1..];
    var mem' := SetPtr(SetPtr(mem, a, mem[p].ptr), p, a);
    assert a !in ring;
    forall k {:trigger Link(mem', ring', k)} | 0 <= k < |ring'| ensures Link(mem', ring', k) {
      if k != i + 1 { assert Link(mem, ring, if k <= i then k else k - 1); }
    }
  }

  // ---- The steps of free and malloc ------------------------------------------

  // bp is a live block between ring[t] and the next free block.
  ghost predicate Between(ring: seq<nat>, bs: Blocks, t: nat, bp: nat) {
    && t < |ring| && bp in bs && !bs[bp].free
    && ring[t] < bp && (t + 1 < |ring| ==> bp < ring[t + 1])
  }

  // No free block starts where bp ends.
  ghost predicate EndsAlone(bs: Blocks, bp: nat)
    requires bp in bs
  {
    forall b :: b in bs && bs[b].free ==> End(bs, bp) != b
  }

  lemma FreeNeighbours(ring: seq<nat>, bs: Blocks, base: nat, t: nat, bp: nat)
    requires RingOf(ring, bs, base) && Sorted(ring) && Apart(bs) && Between(ring, bs, t, bp)
    ensures (t + 1 < |ring| ==> End(bs, bp) != ring[t + 1]) ==> EndsAlone(bs, bp)
    ensures forall a :: a in bs && bs[a].free && End(bs, a) == bp ==> a == ring[t]
  {
    forall b | b in bs && bs[b].free && End(bs, bp) == b ensures t + 1 < |ring| && b == ring[t + 1] {
      var k :| 0 <= k < |ring| && ring[k] == b;
    }
    forall a | a in bs && bs[a].free && End(bs, a) == bp ensures a == ring[t] {
      var k :| 0 <= k < |ring| && ring[k] == a;
      assert ring[t] != base ==> ring[t] in bs;
    }
  }

  // Merging the next free block into the live block bp.
  lemma AbsorbRight(mem: Mem, ring: seq<nat>, bs: Blocks, units: set<nat>, base: nat, t: nat, bp: nat)
    requires Inv(mem, ring, bs, units, base) && Between(ring, bs, t, bp)
    requires t + 1 < |ring| && End(bs, bp) == ring[t + 1]
    ensures var nx := ring[t + 1]; var p := ring[t];
            && p in mem && nx in mem && bp in mem && nx in bs
            && var mem' := SetSize(SetPtr(mem, p, mem[nx].ptr), bp, mem[bp].size + mem[nx].size);
               var ring' := ring[..t + 1] + ring[t + 2..];
               && Inv(mem', ring', Joined(bs, bp, nx), units, base)
               && Between(ring', Joined(bs, bp, nx), t, bp) && EndsAlone(Joined(bs, bp, nx), bp)
  {
    hide Linked, Cover, Apart, Coalesced, EndsAlone, RingOf, Sizes;
    var nx, p := ring[t + 1], ring[t];
    RingMember(ring, bs, base, t + 1);
    Unlink(mem, ring, t + 1);
    Increasing(mem, ring);
    RightSizes(mem, bs, base, p, bp, nx, mem[nx].ptr);
    var ring' := ring[..t + 1] + ring[t + 2..];
    var mem1 := SetPtr(mem, p, mem[nx].ptr);
    JoinOk(bs, units, bp, nx);
    NotInRing(ring, bs, base, bp);
    LinkedElsewhere(mem1, SetSize(mem1, bp, mem[bp].size + mem[nx].size), ring', bp);
    RightRing(ring, bs, base, t + 1, bp);
    RightCoalesced(bs, bp, nx);
  }

  lemma RingMember(ring: seq<nat>, bs: Blocks, base: nat, i: nat)
    requires RingOf(ring, bs, base) && 0 < i < |ring|
    ensures ring[i] in bs && bs[ring[i]].free && base !in bs
  {
  }

  lemma RightSizes(mem: Mem, bs: Blocks, base: nat, p: nat, bp: nat, nx: nat, ptr: nat)
    requires Sizes(mem, bs, base) && p in mem && bp in bs && nx in bs && bp != nx && p != bp && base !in bs
    ensures bp in mem && nx in mem
    ensures Sizes(SetSize(SetPtr(mem, p, ptr), bp, mem[bp].size + mem[nx].size), Joined(bs, bp, nx), base)
  {
  }

  lemma RightRing(ring: seq<nat>, bs: Blocks, base: nat, i: nat, bp: nat)
    requires RingOf(ring, bs, base) && Sorted(ring) && 0 < i < |ring| && bp in bs && !bs[bp].free && ring[i] in bs
    ensures RingOf(ring[..i] + ring[i + 1..], Joined(bs, bp, ring[i]), base)
  {
    RingWithout(ring, bs, Joined(bs, bp, ring[i]), base, i);
  }

  lemma RightCoalesced(bs: Blocks, bp: nat, nx: nat)
    requires Apart(bs) && Coalesced(bs) && bp in bs && nx in bs && !bs[bp].free && bs[nx].free && End(bs, bp) == nx
    ensures Coalesced(Joined(bs, bp, nx)) && EndsAlone(Joined(bs, bp, nx), bp)
  {
    var bs' := Joined(bs, bp, nx);
    assert End(bs', bp) == End(bs, nx);
    forall b | b in bs' && bs'[b].free ensures End(bs', bp) != b {
      assert b in bs && bs[b].free;
    }
  }

  lemma Increasing(mem: Mem, ring: seq<nat>)
    requires Linked(mem, ring)
    ensures Sorted(ring)
  {
  }

  lemma NotInRing(ring: seq<nat>, bs: Blocks, base: nat, bp: nat)
    requires RingOf(ring, bs, base) && bp in bs && !bs[bp].free
    ensures bp !in ring
  {
  }

  // Links do not depend on sizes or on headers outside the ring.
  lemma LinkedElsewhere(mem: Mem, mem': Mem, ring: seq<nat>, a: nat)
    requires Linked(mem, ring) && a in mem && a in mem'
    requires a !in ring || mem'[a].ptr == mem[a].ptr
    requires mem' == mem[a := mem'[a]]
    ensures Linked(mem', ring)
  {
    forall k {:trigger Link(mem', ring, k)} | 0 <= k < |ring| ensures Link(mem', ring, k) {
      assert Link(mem, ring, k);
    }
  }

  lemma RingWithout(ring: seq<nat>, bs: Blocks, bs': Blocks, base: nat, i: nat)
    requires RingOf(ring, bs, base) && Sorted(ring) && 0 < i < |ring|
    requires forall a :: (a in bs' && bs'[a].free) <==> (a in bs && bs[a].free && a != ring[i])
    requires forall a :: a in bs' ==> base < a
    ensures RingOf(ring[..i] + ring[i + 1..], bs', base)
  {
    var ring' := ring[..i] + ring[i + 1..];
    forall a | a in bs' && bs'[a].free ensures a in ring' {
      var k :| 0 <= k < |ring| && ring[k] == a;
      assert ring'[if k < i then k else k - 1] == a;
    }
  }

  // Merging bp into the free block before it.
  lemma AbsorbLeft(mem: Mem, ring: seq<nat>, bs: Blocks, units: set<nat>, base: nat, t: nat, bp: nat)
    requires Inv(mem, ring, bs, units, base) && Between(ring, bs, t, bp) && EndsAlone(bs, bp)
    requires t > 0 && ring[t] in bs && End(bs, ring[t]) == bp
    ensures var p := ring[t];
            p in mem && bp in mem &&
            Inv(SetSize(mem, p, mem[p].size + mem[bp].size), ring, Joined(bs, p, bp), units, base)
  {
    hide Linked, Cover, Apart, Coalesced, EndsAlone;
    var p := ring[t];
    LinkMember(mem, ring, t);
    JoinOk(bs, units, p, bp);
    LinkedElsewhere(mem, SetSize(mem, p, mem[p].size + mem[bp].size), ring, p);
    LeftCoalesced(bs, p, bp);
  }

  lemma LinkMember(mem: Mem, ring: seq<nat>, i: nat)
    requires Linked(mem, ring) && i < |ring|
    ensures ring[i] in mem
  {
    assert Link(mem, ring, i);
  }

  lemma LeftCoalesced(bs: Blocks, p: nat, bp: nat)
    requires Apart(bs) && Coalesced(bs) && p in bs && bp in bs && bs[p].free && End(bs, p) == bp && EndsAlone(bs, bp)
    ensures Coalesced(Joined(bs, p, bp))
  {
    var bs' := Joined(bs, p, bp);
    assert End(bs', p) == End(bs, bp);
    forall a, b | a in bs' && b in bs' && bs'[a].free && bs'[b].free ensures End(bs', a) != b {
      assert a in bs && b in bs && bs[a].free && bs[b].free;
    }
  }

  // Putting bp on the list as a block of its own.
  lemma Insert(mem: Mem, ring: seq<nat>, bs: Blocks, units: set<nat>, base: nat, t: nat, bp: nat)
    requires Inv(mem, ring, bs, units, base) && Between(ring, bs, t, bp) && EndsAlone(bs, bp)
    requires ring[t] in bs ==> End(bs, ring[t]) != bp
    ensures var p := ring[t];
            p in mem && bp in mem &&
            Inv(SetPtr(SetPtr(mem, bp, mem[p].ptr), p, bp), ring[..t + 1] + [bp] + ring[t + 1..],
                bs[bp := Block(bs[bp].size, true)], units, base)
  {
    hide Linked, Cover;
    Increasing(mem, ring);
    Relink(mem, ring, t, bp);
    RetagOk(bs, units, bp, true);
    FreeNeighbours(ring, bs, base, t, bp);
    RingWith(ring, bs, base, t, bp);
    AloneCoalesced(bs, bp);
  }

  lemma RingWith(ring: seq<nat>, bs: Blocks, base: nat, t: nat, bp: nat)
    requires RingOf(ring, bs, base) && t < |ring| && bp in bs
    ensures RingOf(ring[..t + 1] + [bp] + ring[t + 1..], bs[bp := Block(bs[bp].size, true)], base)
  {
    var bs' := bs[bp := Block(bs[bp].size, true)];
    var ring' := ring[..t + 1] + [bp] + ring[t + 1..];
    forall a | a in bs' && bs'[a].free ensures a in ring' {
      if a != bp {
        var k :| 0 <= k < |ring| && ring[k] == a;
        assert ring'[if k <= t then k else k + 1] == a;
      } else {
        assert ring'[t + 1] == bp;
      }
    }
  }

  lemma AloneCoalesced(bs: Blocks, bp: nat)
    requires bp in bs && bs[bp].size > 0 && Coalesced(bs) && EndsAlone(bs, bp)
    requires forall a :: a in bs && bs[a].free ==> End(bs, a) != bp
    ensures Coalesced(bs[bp := Block(bs[bp].size, true)])
  {
  }

  // Taking the whole block ring[i].
  lemma TakeWhole(mem: Mem, ring: seq<nat>, bs: Blocks, units: set<nat>, base: nat, i: nat)
    requires Inv(mem, ring, bs, units, base) && 0 < i < |ring|
    ensures ring[i] in bs && bs[ring[i]].free && ring[i] in mem && ring[i - 1] in mem
    ensures Inv(SetPtr(mem, ring[i - 1], mem[ring[i]].ptr), ring[..i] + ring[i + 1..],
                bs[ring[i] := Block(bs[ring[i]].size, false)], units, base)
  {
    hide Linked, Cover, Apart, Coalesced, Sizes;
    Unlink(mem, ring, i);
    Increasing(mem, ring);
    RingMember(ring, bs, base, i);
    RetagOk(bs, units, ring[i], false);
    SizesRetag(mem, bs, base, ring[i], ring[i - 1], mem[ring[i]].ptr);
    RingWithout(ring, bs, bs[ring[i] := Block(bs[ring[i]].size, false)], base, i);
    TakenCoalesced(bs, ring[i]);
  }

  lemma SizesRetag(mem: Mem, bs: Blocks, base: nat, p: nat, q: nat, ptr: nat)
    requires Sizes(mem, bs, base) && p in bs && q in mem
    ensures Sizes(SetPtr(mem, q, ptr), bs[p := Block(bs[p].size, false)], base)
  {
  }

  lemma TakenCoalesced(bs: Blocks, p: nat)
    requires Coalesced(bs) && p in bs
    ensures Coalesced(bs[p := Block(bs[p].size, false)])
  {
    var bs' := bs[p := Block(bs[p].size, false)];
    forall a, b | a in bs' && b in bs' && bs'[a].free && bs'[b].free ensures End(bs', a) != b {
      assert a in bs && b in bs && bs[a].free && bs[b].free;
    }
  }

  // Cutting n units off the end of the free block ring[i].
  lemma TakeTail(mem: Mem, ring: seq<nat>, bs: Blocks, units: set<nat>, base: nat, i: nat, n: nat, ptr: nat)
    requires Inv(mem, ring, bs, units, base) && 0 < i < |ring| && ring[i] in bs && 0 < n < bs[ring[i]].size
    ensures var p := ring[i];
            var q := p + HEADER * (bs[p].size - n);
            && p in mem && q !in bs && q !in ring && mem[p].size == bs[p].size
            && Inv(SetSize(mem, p, mem[p].size - n)[q := Header(ptr, n)], ring, Cut(bs, p, n), units, base)
  {
    hide Linked, Cover;
    var p := ring[i];
    var q := p + HEADER * (bs[p].size - n);
    LinkMember(mem, ring, i);
    CutOk(bs, units, p, n);
    assert q !in ring && q != base;
    var mem1 := SetSize(mem, p, mem[p].size - n);
    LinkedElsewhere(mem, mem1, ring, p);
    LinkedOutside(mem1, ring, q, Header(ptr, n));
    CutCoalesced(bs, p, n);
  }

  lemma LinkedOutside(mem: Mem, ring: seq<nat>, q: nat, h: Header)
    requires Linked(mem, ring) && q !in ring
    ensures Linked(mem[q := h], ring)
  {
    forall k {:trigger Link(mem[q := h], ring, k)} | 0 <= k < |ring| ensures Link(mem[q := h], ring, k) {
      assert Link(mem, ring, k);
    }
  }

  lemma CutCoalesced(bs: Blocks, p: nat, n: nat)
    requires Apart(bs) && Coalesced(bs) && p in bs && 0 < n < bs[p].size
    ensures Coalesced(Cut(bs, p, n))
  {
  }

  // A block fresh from sbrk, above everything obtained so far.
  lemma AddLive(mem: Mem, ring: seq<nat>, bs: Blocks, units: set<nat>, base: nat, p: nat, n: nat, ptr: nat)
    requires Inv(mem, ring, bs, units, base) && n > 0 && base < p && (forall x :: x in units ==> x < p)
    ensures p !in bs && p !in ring
    ensures Inv(mem[p := Header(ptr, n)], ring, bs[p := Block(n, false)], units + Span(p, n), base)
  {
    hide Linked;
    forall a | a in bs ensures End(bs, a) <= p {
      assert Inside(bs, a, End(bs, a) - 1);
    }
    assert p !in ring;
    LinkedOutside(mem, ring, p, Header(ptr, n));
    AddCover(bs, units, p, n);
  }

  // The bytes of n headers from p on.
  function Span(p: nat, n: nat): set<nat> {
    set x: nat | x < p + HEADER * n && InSpan(x, p, n)
  }

  predicate InSpan(x: nat, p: nat, n: nat) { p <= x < p + HEADER * n }

  lemma AddCover(bs: Blocks, units: set<nat>, p: nat, n: nat)
    requires Cover(bs, units) && p !in bs
    ensures Cover(bs[p := Block(n, false)], units + Span(p, n))
  {
    var bs' := bs[p := Block(n, false)];
    forall x: nat | x in units + Span(p, n) ensures exists a :: Inside(bs', a, x) {
      if x in units {
        var a :| Inside(bs, a, x);
        assert Inside(bs', a, x);
      } else {
        assert Inside(bs', p, x);
      }
    }
    forall x: nat, a: nat | Inside(bs', a, x) ensures x in units + Span(p, n) {
      if a != p { assert Inside(bs, a, x); }
    }
  }

  // ---- The allocator -------------------------------------------------------

  // The position of the last ring element below bp.
  ghost function Below(ring: seq<nat>, bp: nat): (t: nat)
    requires |ring| > 0 && Sorted(ring) && ring[0] < bp && bp !in ring
    ensures t < |ring| && ring[t] < bp && (t + 1 < |ring| ==> bp < ring[t + 1])
  {
    if |ring| == 1 || bp < ring[|ring| - 1] then
      if |ring| == 1 then 0 else Below(ring[..|ring| - 1], bp)
    else |ring| - 1
  }

  // The live blocks, by address and size.
  function Live(bs: Blocks): map<nat, nat> {
    map a | a in bs && !bs[a].free :: bs[a].size
  }

  lemma LiveWhole(bs: Blocks, p: nat)
    requires p in bs && bs[p].free
    ensures p !in Live(bs) && Live(bs[p := Block(bs[p].size, false)]) == Live(bs)[p := bs[p].size]
  {
  }

  lemma LiveTail(bs: Blocks, p: nat, n: nat)
    requires p in bs && bs[p].free && n < bs[p].size && p + HEADER * (bs[p].size - n) !in bs
    ensures p + HEADER * (bs[p].size - n) !in Live(bs)
    ensures Live(Cut(bs, p, n)) == Live(bs)[p + HEADER * (bs[p].size - n) := n]
  {
  }

  lemma BaseOnly(base: nat)
    ensures Inv(map[base := Header(base, 0)], [base], map[], {}, base)
  {
    assert Link(map[base := Header(base, 0)], [base], 0);
  }

  // free in two phases: bp takes over the block after it, then joins or follows
  // the one before it. The memory, list and blocks after each phase:

  function RightMem(mem: Mem, p: nat, bp: nat): Mem
    requires p in mem && bp in mem
  {
    if bp + HEADER * mem[bp].size == mem[p].ptr && mem[p].ptr in mem then
      SetSize(SetPtr(mem, p, mem[mem[p].ptr].ptr), bp, mem[bp].size + mem[mem[p].ptr].size)
    else mem
  }

  ghost function RightRingOf(mem: Mem, ring: seq<nat>, t: nat, bp: nat): seq<nat>
    requires t < |ring| && ring[t] in mem && bp in mem
  {
    if bp + HEADER * mem[bp].size == mem[ring[t]].ptr && t + 1 < |ring| then ring[..t + 1] + ring[t + 2..] else ring
  }

  function RightBlocks(mem: Mem, bs: Blocks, p: nat, bp: nat): Blocks
    requires p in mem && bp in mem && bp in bs
  {
    if bp + HEADER * mem[bp].size == mem[p].ptr && mem[p].ptr in bs then Joined(bs, bp, mem[p].ptr) else bs
  }

  function LeftMem(mem: Mem, p: nat, bp: nat): Mem
    requires p in mem && bp in mem
  {
    if p + HEADER * mem[p].size == bp then SetSize(mem, p, mem[p].size + mem[bp].size)
    else SetPtr(SetPtr(mem, bp, mem[p].ptr), p, bp)
  }

  ghost function LeftRingOf(mem: Mem, ring: seq<nat>, t: nat, bp: nat): seq<nat>
    requires t < |ring| && ring[t] in mem
  {
    if ring[t] + HEADER * mem[ring[t]].size == bp then ring else ring[..t + 1] + [bp] + ring[t + 1..]
  }

  function LeftBlocks(mem: Mem, bs: Blocks, p: nat, bp: nat): Blocks
    requires p in mem && bp in bs
  {
    if p + HEADER * mem[p].size == bp && p in bs then Joined(bs, p, bp) else bs[bp := Block(bs[bp].size, true)]
  }

  lemma FreeFacts(mem: Mem, ring: seq<nat>, bs: Blocks, units: set<nat>, base: nat, t: nat, bp: nat)
    requires Inv(mem, ring, bs, units, base) && Between(ring, bs, t, bp)
    ensures ring[t] in mem && bp in mem && ring[t] != bp && mem[bp].size == bs[bp].size
    ensures mem[ring[t]].ptr == ring[Nx(ring, t)] && mem[ring[t]].ptr in mem && base < bp && bp !in ring
    ensures ring[t] in bs ==> bs[ring[t]].free
    ensures bp + HEADER * mem[bp].size == mem[ring[t]].ptr ==>
              t + 1 < |ring| && mem[ring[t]].ptr in bs && bs[mem[ring[t]].ptr].free
  {
    assert Link(mem, ring, t) && Link(mem, ring, Nx(ring, t));
  }

  lemma SizeOf(mem: Mem, ring: seq<nat>, bs: Blocks, units: set<nat>, base: nat)
    requires Inv(mem, ring, bs, units, base)
    ensures forall a :: a in bs ==> a in mem && mem[a].size == bs[a].size
  {
  }

  lemma RightPhase(mem: Mem, ring: seq<nat>, bs: Blocks, units: set<nat>, base: nat, t: nat, bp: nat)
    requires Inv(mem, ring, bs, units, base) && Between(ring, bs, t, bp)
    ensures ring[t] in mem && bp in mem
    ensures var bs' := RightBlocks(mem, bs, ring[t], bp); var ring' := RightRingOf(mem, ring, t, bp);
            && Inv(RightMem(mem, ring[t], bp), ring', bs', units, base)
            && Between(ring', bs', t, bp) && EndsAlone(bs', bp) && ring'[t] == ring[t]
  {
    hide Inv, EndsAlone;
    FreeFacts(mem, ring, bs, units, base, t, bp);
    if bp + HEADER * mem[bp].size == mem[ring[t]].ptr {
      AbsorbRight(mem, ring, bs, units, base, t, bp);
    } else {
      RightAlone(mem, ring, bs, units, base, t, bp);
    }
  }

  lemma RightAlone(mem: Mem, ring: seq<nat>, bs: Blocks, units: set<nat>, base: nat, t: nat, bp: nat)
    requires Inv(mem, ring, bs, units, base) && Between(ring, bs, t, bp) && bp in mem
    requires t + 1 < |ring| ==> bp + HEADER * mem[bp].size != ring[t + 1]
    ensures EndsAlone(bs, bp)
  {
    FreeNeighbours(ring, bs, base, t, bp);
  }

  lemma LeftPhase(mem: Mem, ring: seq<nat>, bs: Blocks, units: set<nat>, base: nat, t: nat, bp: nat)
    requires Inv(mem, ring, bs, units, base) && Between(ring, bs, t, bp) && EndsAlone(bs, bp)
    ensures ring[t] in mem && bp in mem
    ensures Inv(LeftMem(mem, ring[t], bp), LeftRingOf(mem, ring, t, bp), LeftBlocks(mem, bs, ring[t], bp), units, base)
    ensures ring[t] in LeftRingOf(mem, ring, t, bp)
  {
    LinkMember(mem, ring, t);
    hide Linked, Apart, Coalesced, Cover, EndsAlone;
    var p := ring[t];
    if p + HEADER * mem[p].size == bp {
      AbsorbLeft(mem, ring, bs, units, base, t, bp);
    } else {
      Insert(mem, ring, bs, units, base, t, bp);
      assert (ring[..t + 1] + [bp] + ring[t + 1..])[t] == p;
    }
  }

  // The pointer left behind in a header that joined another block does not matter.
  lemma LeftAgrees(memR: Mem, ring: seq<nat>, bs: Blocks, units: set<nat>, base: nat, t: nat, bp: nat, mem: Mem)
    requires t < |ring| && ring[t] in memR && bp in memR && ring[t] != bp && bp !in ring && bp in mem && bp in bs
    requires Inv(LeftMem(memR, ring[t], bp), LeftRingOf(memR, ring, t, bp), LeftBlocks(memR, bs, ring[t], bp), units,
               base)
    requires if ring[t] + HEADER * memR[ring[t]].size == bp
             then mem == SetPtr(LeftMem(memR, ring[t], bp), bp, mem[bp].ptr)
             else mem == LeftMem(memR, ring[t], bp)
    ensures Inv(mem, LeftRingOf(memR, ring, t, bp), LeftBlocks(memR, bs, ring[t], bp), units, base)
  {
    hide Cover, Apart, Coalesced, Linked;
    if ring[t] + HEADER * memR[ring[t]].size == bp {
      LinkedElsewhere(LeftMem(memR, ring[t], bp), mem, ring, bp);
    }
  }

  lemma LiveAfterFree(mem: Mem, bs: Blocks, memR: Mem, p: nat, bp: nat)
    requires p in mem && bp in mem && bp in bs && !bs[bp].free && p != bp && p in memR
    requires mem[p].ptr in bs && bp + HEADER * mem[bp].size == mem[p].ptr ==> bs[mem[p].ptr].free && mem[p].ptr != bp
    requires p in bs ==> bs[p].free
    requires mem[p].ptr in bs && bp + HEADER * mem[bp].size == mem[p].ptr ==> mem[p].ptr != p
    ensures Live(LeftBlocks(memR, RightBlocks(mem, bs, p, bp), p, bp)) == Live(bs) - {bp}
  {
  }

  // The free block a has the n units at bp inside it.
  predicate HoldsFree(bs: Blocks, a: nat, bp: nat, n: nat) {
    a in bs && bs[a].free && a <= bp && bp + HEADER * n <= End(bs, a)
  }

  lemma FreedInside(mem: Mem, bs: Blocks, memR: Mem, p: nat, bp: nat) returns (a: nat)
    requires p in mem && bp in mem && bp in bs && p != bp && p in memR && (p in bs ==> bs[p].free)
    requires p in bs && p in RightBlocks(mem, bs, p, bp) ==> memR[p].size == RightBlocks(mem, bs, p, bp)[p].size
    requires mem[p].ptr in bs && bp + HEADER * mem[bp].size == mem[p].ptr ==> mem[p].ptr != p && mem[p].ptr != bp
    ensures HoldsFree(LeftBlocks(memR, RightBlocks(mem, bs, p, bp), p, bp), a, bp, bs[bp].size)
  {
    var bs' := RightBlocks(mem, bs, p, bp);
    a := if p + HEADER * memR[p].size == bp && p in bs' then p else bp;
  }

  // The header writes of free, once p is found.
  function FreeMem(mem: Mem, p: nat, bp: nat): Mem
    requires p in mem && bp in mem && mem[p].ptr in mem
  {
    var nx := mem[p].ptr;
    var m1 := if bp + HEADER * mem[bp].size == nx
              then mem[bp := Header(mem[nx].ptr, mem[bp].size + mem[nx].size)]
              else mem[bp := Header(nx, mem[bp].size)];
    if p + HEADER * m1[p].size == bp then m1[p := Header(m1[bp].ptr, m1[p].size + m1[bp].size)]
    else m1[p := Header(bp, m1[p].size)]
  }

  lemma FreeDone(mem: Mem, ring: seq<nat>, bs: Blocks, units: set<nat>, base: nat, t: nat, bp: nat) returns (a: nat)
    requires Inv(mem, ring, bs, units, base) && Between(ring, bs, t, bp)
    ensures ring[t] in mem && bp in mem && mem[ring[t]].ptr in mem && ring[t] in RightMem(mem, ring[t], bp)
    ensures t < |RightRingOf(mem, ring, t, bp)| && RightRingOf(mem, ring, t, bp)[t] == ring[t]
    ensures bp in RightBlocks(mem, bs, ring[t], bp)
    ensures var p := ring[t];
            var memR := RightMem(mem, p, bp);
            var ring' := LeftRingOf(memR, RightRingOf(mem, ring, t, bp), t, bp);
            var bs' := LeftBlocks(memR, RightBlocks(mem, bs, p, bp), p, bp);
            && Inv(FreeMem(mem, p, bp), ring', bs', units, base) && p in ring'
            && Live(bs') == Live(bs) - {bp} && HoldsFree(bs', a, bp, bs[bp].size)
  {
    hide Inv, EndsAlone, Live, LeftBlocks, LeftRingOf, HoldsFree, RightRingOf;
    var p := ring[t];
    FreeFacts(mem, ring, bs, units, base, t, bp);
    RightPhase(mem, ring, bs, units, base, t, bp);
    var memR, ringR, bsR := RightMem(mem, p, bp), RightRingOf(mem, ring, t, bp), RightBlocks(mem, bs, p, bp);
    FreeFacts(memR, ringR, bsR, units, base, t, bp);
    LeftPhase(memR, ringR, bsR, units, base, t, bp);
    SizeOf(memR, ringR, bsR, units, base);
    LeftAgrees(memR, ringR, bsR, units, base, t, bp, FreeMem(mem, p, bp));
    LiveAfterFree(mem, bs, memR, p, bp);
    a := FreedInside(mem, bs, memR, p, bp);
  }

  // Positions on the way round the ring, c + 1 steps after m.
  function Idx(ring: seq<nat>, m: nat, c: nat): nat {
    if m + 1 + c < |ring| then m + 1 + c else m + 1 + c - |ring|
  }

  // The c list elements after ring[m] are too small.
  ghost predicate TooSmall(mem: Mem, ring: seq<nat>, m: nat, c: nat, n: nat) {
    m < |ring| && c <= |ring|
    && forall d: nat {:trigger Idx(ring, m, d)} :: d < c ==>
         Idx(ring, m, d) < |ring| && ring[Idx(ring, m, d)] in mem && mem[ring[Idx(ring, m, d)]].size < n
  }

  // A full round passes every element.
  lemma FullRound(mem: Mem, ring: seq<nat>, m: nat, n: nat, k: nat)
    requires TooSmall(mem, ring, m, |ring|, n) && k < |ring|
    ensures ring[k] in mem && mem[ring[k]].size < n
  {
    var d := if k > m then k - m - 1 else k - m - 1 + |ring|;
    assert Idx(ring, m, d) == k;
  }

  ghost predicate Fits(mem: Mem, ring: seq<nat>, k: nat, n: nat) {
    k < |ring| && ring[k] in mem && mem[ring[k]].size >= n
  }

  lemma FitExists(mem: Mem, ring: seq<nat>, bs: Blocks, units: set<nat>, base: nat, a: nat, bp: nat, n: nat)
    requires Inv(mem, ring, bs, units, base) && HoldsFree(bs, a, bp, n)
    ensures exists k :: Fits(mem, ring, k, n)
  {
    var k :| 0 <= k < |ring| && ring[k] == a;
    assert Fits(mem, ring, k, n);
  }

  // Units of a request, with one for the header.
  function Units(nbytes: nat): (n: nat)
    ensures HEADER * (n - 1) >= nbytes && n > 0
    ensures nbytes > 0 ==> HEADER * (n - 2) < nbytes
  {
    (nbytes + HEADER - 1) / HEADER + 1
  }

  // bp has a place in the list.
  ghost function PlaceOf(mem: Mem, ring: seq<nat>, bs: Blocks, units: set<nat>, base: nat, bp: nat): (t: nat)
    requires Inv(mem, ring, bs, units, base) && bp in bs && !bs[bp].free
    ensures Between(ring, bs, t, bp)
  {
    Below(ring, bp)
  }

  // The two exits of the search loop of free recognise that place, and nothing else.
  lemma PlaceFacts(mem: Mem, ring: seq<nat>, bs: Blocks, units: set<nat>, base: nat, bp: nat, t: nat)
    requires Inv(mem, ring, bs, units, base) && bp in bs && !bs[bp].free && t < |ring|
    ensures ring[t] in mem && mem[ring[t]].ptr == ring[Nx(ring, t)]
    ensures var p := ring[t]; var q := mem[p].ptr;
            Between(ring, bs, t, bp) <==> (bp > p && bp < q) || (p >= q && (bp > p || bp < q))
  {
    hide Cover, Apart, Coalesced;
    assert Link(mem, ring, t);
    NotInRing(ring, bs, base, bp);
  }

  ghost function IndexOf(ring: seq<nat>, p: nat): (m: nat)
    requires p in ring
    ensures m < |ring| && ring[m] == p
  {
    var m :| 0 <= m < |ring| && ring[m] == p; m
  }

  // The position before Idx(ring, m, c).
  function Prev(ring: seq<nat>, m: nat, c: nat): nat {
    if m + c < |ring| then m + c else m + c - |ring|
  }

  lemma StartRound(mem: Mem, ring: seq<nat>, bs: Blocks, units: set<nat>, base: nat, m: nat, n: nat)
    requires Inv(mem, ring, bs, units, base) && m < |ring|
    ensures ring[m] in mem && Idx(ring, m, 0) < |ring| && mem[ring[m]].ptr == ring[Idx(ring, m, 0)]
    ensures Prev(ring, m, 0) == m && TooSmall(mem, ring, m, 0, n)
  {
    assert Link(mem, ring, m);
  }

  // Where the search stands: p follows prevp, the way back to freep ends the round,
  // and the base, being empty, never fits.
  lemma RoundFacts(mem: Mem, ring: seq<nat>, bs: Blocks, units: set<nat>, base: nat, m: nat, c: nat)
    requires Inv(mem, ring, bs, units, base) && m < |ring| && c < |ring|
    ensures var i := Idx(ring, m, c); var j := Prev(ring, m, c);
            && i < |ring| && j < |ring| && ring[i] in mem
            && (mem[ring[i]].size > 0 ==> i > 0 && j == i - 1)
            && (ring[i] == ring[m] <==> c + 1 == |ring|)
            && (c + 1 < |ring| ==> mem[ring[i]].ptr == ring[Idx(ring, m, c + 1)] && Prev(ring, m, c + 1) == i)
  {
    assert Link(mem, ring, Idx(ring, m, c));
  }

  lemma Passed(mem: Mem, ring: seq<nat>, m: nat, c: nat, n: nat)
    requires TooSmall(mem, ring, m, c, n) && c < |ring|
    requires Idx(ring, m, c) < |ring| && ring[Idx(ring, m, c)] in mem && mem[ring[Idx(ring, m, c)]].size < n
    ensures TooSmall(mem, ring, m, c + 1, n)
  {
  }

  lemma NoFit(mem: Mem, ring: seq<nat>, m: nat, n: nat, k: nat)
    requires TooSmall(mem, ring, m, |ring|, n)
    ensures !Fits(mem, ring, k, n)
  {
    if k < |ring| { FullRound(mem, ring, m, n, k); }
  }

  // Every free block is smaller than n units.
  ghost predicate NoneFits(bs: Blocks, n: nat) {
    forall a :: a in bs && bs[a].free ==> bs[a].size < n
  }

  // After a full round in vain, that is known of all of them.
  lemma NothingFits(mem: Mem, ring: seq<nat>, bs: Blocks, units: set<nat>, base: nat, m: nat, n: nat)
    requires Inv(mem, ring, bs, units, base) && TooSmall(mem, ring, m, |ring|, n)
    ensures NoneFits(bs, n)
  {
    hide TooSmall;
    forall a | a in bs && bs[a].free ensures bs[a].size < n {
      var k :| 0 <= k < |ring| && ring[k] == a;
      FullRound(mem, ring, m, n, k);
    }
  }

  class Allocator {
    const base: nat
    var freep: Option<nat>
    var mem: Mem
    // The process break, as the system sees it: sbrk hands out memory at or above it.
    var brk: nat
    ghost var ring: seq<nat>
    ghost var blocks: Blocks
    ghost var units: set<nat>

    ghost predicate Valid()
      reads this
    {
      && base < brk
      && (freep == None ==> blocks == map[] && units == {})
      && (freep.Some? ==> Inv(mem, ring, blocks, units, base) && freep.value in ring)
      && (forall x :: x in units ==> x < brk)
    }

    constructor (base: nat, brk: nat)
      requires base < brk
      ensures Valid() && freep == None && units == {}
    {
      this.base, this.brk, freep, mem, ring, blocks, units := base, brk, None, map[], [], map[], {};
    }

    // The system's sbrk: it fails, or returns the start of n fresh bytes.
    method Sbrk(n: nat) returns (p: Option<nat>)
      modifies this`brk
      ensures p == None ==> brk == old(brk)
      ensures p.Some? ==> old(brk) <= p.value && brk == p.value + n
    {
      var fail: bool, gap: nat := *, *;
      if fail { return None; }
      p := Some(brk + gap);
      brk := brk + gap + n;
    }

    // The search loop of free: the last list element below bp.
    method FindPlace(bp: nat) returns (p: nat, ghost t: nat)
      requires freep.Some? && Inv(mem, ring, blocks, units, base) && freep.value in ring
      requires bp in blocks && !blocks[bp].free
      ensures t < |ring| && p == ring[t] && Between(ring, blocks, t, bp)
    {
      hide Inv, Between;
      ghost var goal := PlaceOf(mem, ring, blocks, units, base, bp);
      p := freep.value;
      t := IndexOf(ring, p);
      PlaceFacts(mem, ring, blocks, units, base, bp, t);
      while !(bp > p && bp < mem[p].ptr)
        invariant t < |ring| && p == ring[t] && p in mem && mem[p].ptr == ring[Nx(ring, t)]
        invariant (bp > p && bp < mem[p].ptr) ==> Between(ring, blocks, t, bp)
        decreases if t <= goal then goal - t else goal - t + |ring|
      {
        PlaceFacts(mem, ring, blocks, units, base, bp, t);
        if p >= mem[p].ptr && (bp > p || bp < mem[p].ptr) { break; }
        p, t := mem[p].ptr, Nx(ring, t);
        PlaceFacts(mem, ring, blocks, units, base, bp, t);
      }
    }

    method Free(ap: nat) returns (ghost a: nat)
      requires Valid() && ap >= HEADER && ap - HEADER in blocks && !blocks[ap - HEADER].free
      modifies this
      ensures Valid() && units == old(units) && freep.Some? && brk == old(brk)
      ensures Live(blocks) == Live(old(blocks)) - {ap - HEADER}
      ensures HoldsFree(blocks, a, ap - HEADER, old(blocks)[ap - HEADER].size)
    {
      hide Inv, Between, EndsAlone, Live, LeftBlocks, RightBlocks, LeftRingOf, RightRingOf, HoldsFree;
      var bp := ap - HEADER;
      var p;
      ghost var t;
      p, t := FindPlace(bp);
      FreeFacts(mem, ring, blocks, units, base, t, bp);
      a := FreeDone(mem, ring, blocks, units, base, t, bp);
      var m := mem;
      if bp + HEADER * m[bp].size == m[p].ptr {
        m := SetSize(m, bp, m[bp].size + m[m[p].ptr].size);
        m := SetPtr(m, bp, m[m[p].ptr].ptr);
      } else {
        m := SetPtr(m, bp, m[p].ptr);
      }
      if p + HEADER * m[p].size == bp {
        m := SetSize(m, p, m[p].size + m[bp].size);
        m := SetPtr(m, p, m[bp].ptr);
      } else {
        m := SetPtr(m, p, bp);
      }
      assert m == FreeMem(mem, p, bp);
      ghost var memR := RightMem(mem, p, bp);
      ring, blocks :=
        LeftRingOf(memR, RightRingOf(mem, ring, t, bp), t, bp),
        LeftBlocks(memR, RightBlocks(mem, blocks, p, bp), p, bp);
      mem, freep := m, Some(p);
    }

    method MoreCore(nunits: nat) returns (p: Option<nat>)
      requires Valid() && freep.Some? && nunits > 0
      modifies this
      ensures Valid() && old(units) <= units && Live(blocks) == Live(old(blocks))
      ensures p == None ==>
                && mem == old(mem) && freep == old(freep) && units == old(units)
                && blocks == old(blocks) && ring == old(ring)
      ensures p.Some? ==> p == freep && exists k :: Fits(mem, ring, k, nunits)
    {
      hide Inv, HoldsFree;
      var nu := if nunits < 4096 then 4096 else nunits;
      var r := Sbrk(nu * HEADER);
      if r == None { return None; }
      var hp := r.value;
      ghost var ptr := if hp in mem then mem[hp].ptr else 0;
      AddLive(mem, ring, blocks, units, base, hp, nu, ptr);
      mem := mem[hp := Header(if hp in mem then mem[hp].ptr else 0, nu)];
      blocks := blocks[hp := Block(nu, false)];
      units := units + Span(hp, nu);
      ghost var a;
      a := Free(hp + HEADER);
      FitExists(mem, ring, blocks, units, base, a, hp, nu);
      ghost var k :| Fits(mem, ring, k, nu);
      assert Fits(mem, ring, k, nunits);
      return freep;
    }

    // The two ways in which malloc takes its block from the fitting list element p.
    method TakeFrom(prevp: nat, p: nat, nunits: nat, ghost i: nat) returns (q: nat)
      requires Valid() && freep.Some? && nunits > 0 && 0 < i < |ring| && p == ring[i] && prevp == ring[i - 1]
      requires p in mem && mem[p].size >= nunits
      modifies this
      ensures Valid() && units == old(units)
      ensures q !in Live(old(blocks)) && Live(blocks) == Live(old(blocks))[q := nunits]
    {
      hide Inv, Live, Cut;
      SizeOf(mem, ring, blocks, units, base);
      TakeWhole(mem, ring, blocks, units, base, i);
      if mem[p].size == nunits {
        LiveWhole(blocks, p);
        mem := SetPtr(mem, prevp, mem[p].ptr);
        q := p;
        assert (ring[..i] + ring[i + 1..])[i - 1] == prevp;
        ring := ring[..i] + ring[i + 1..];
        blocks := blocks[p := Block(blocks[p].size, false)];
      } else {
        q := p + HEADER * (mem[p].size - nunits);
        var ptr := if q in mem then mem[q].ptr else 0;
        TakeTail(mem, ring, blocks, units, base, i, nunits, ptr);
        LiveTail(blocks, p, nunits);
        mem := SetSize(mem, p, mem[p].size - nunits);
        mem := mem[q := Header(ptr, nunits)];
        blocks := Cut(blocks, p, nunits);
      }
      freep := Some(prevp);
    }

    method Malloc(nbytes: nat) returns (r: Option<nat>)
      requires Valid()
      modifies this
      ensures Valid() && old(units) <= units
      ensures r == None ==> blocks == old(blocks) && units == old(units) && NoneFits(blocks, Units(nbytes))
      ensures r.Some? ==>
                && r.value >= HEADER && r.value - HEADER !in Live(old(blocks))
                && Live(blocks) == Live(old(blocks))[r.value - HEADER := Units(nbytes)]
    {
      hide Inv, Fits, TooSmall, Live, NoneFits;
      var nunits := (nbytes + HEADER - 1) / HEADER + 1;
      if freep == None {
        BaseOnly(base);
        mem := map[base := Header(base, 0)];
        freep, ring := Some(base), [base];
      }
      var prevp := freep.value;
      ghost var m: nat := IndexOf(ring, prevp);
      ghost var c: nat, grown := 0, false;
      StartRound(mem, ring, blocks, units, base, m, nunits);
      var p := mem[prevp].ptr;
      while true
        invariant Valid() && freep.Some? && m < |ring| && freep.value == ring[m]
        invariant Live(blocks) == Live(old(blocks)) && old(units) <= units
        invariant !grown ==> units == old(units) && blocks == old(blocks)
        invariant c < |ring| && p == ring[Idx(ring, m, c)] && prevp == ring[Prev(ring, m, c)]
        invariant TooSmall(mem, ring, m, c, nunits)
        invariant grown ==> exists k :: Fits(mem, ring, k, nunits)
        decreases !grown, |ring| - c
      {
        RoundFacts(mem, ring, blocks, units, base, m, c);
        if mem[p].size >= nunits {
          var q := TakeFrom(prevp, p, nunits, Idx(ring, m, c));
          return Some(q + HEADER);
        }
        Passed(mem, ring, m, c, nunits);
        if p == freep.value {
          if grown {
            ghost var k :| Fits(mem, ring, k, nunits);
            NoFit(mem, ring, m, nunits, k);
          }
          var more := MoreCore(nunits);
          if more == None {
            NothingFits(mem, ring, blocks, units, base, m, nunits);
            return None;
          }
          p := more.value;
          grown := true;
          m, c := IndexOf(ring, p), 0;
          StartRound(mem, ring, blocks, units, base, m, nunits);
        } else {
          c := c + 1;
        }
        prevp := p;
        p := mem[p].ptr;
      }
      assert false;
    }
  }
}
