/** Three-level Sv39 page tables held in physical pages, and the flat map from
    virtual pages to entries that they stand for. */
module PageTable {
  import opened Common
  import opened Riscv

  // Physical pages, each seen as 512 page-table entries.
  type Mem = map<nat, seq<nat>>

  /** The position of a table page inside one address space. */
  datatype Node = Root | Mid(i2: nat) | Low(i2: nat, i1: nat) {
    function Child(i: nat): Node
      requires !Low?
    {
      if Root? then Mid(i) else Low(i2, i)
    }

    // At or below the node n.
    predicate Under(n: Node) {
      n.Root? || this == n || (n.Mid? && Low? && i2 == n.i2)
    }

    predicate InRange() {
      match this
      case Root => true
      case Mid(i) => i < 512
      case Low(i, j) => i < 512 && j < 512
    }
  }

  /** What a page of the pool is used for: nothing, data, or one table of the
      address space named by its root page. */
  datatype Use = Free | Frame | Table(root: nat, node: Node)
  type Uses = map<nat, Use>

  function Entry(m: Mem, p: nat, i: nat): nat {
    if p in m && i < |m[p]| then m[p][i] else 0
  }

  function Next(pte: nat): Option<nat> {
    if IsValid(pte) then Some(Pte2Pa(pte)) else None
  }

  // The table page at a position, found by following entries from the root.
  function At(m: Mem, r: nat, n: Node): Option<nat> {
    match n
    case Root => Some(r)
    case Mid(i) => Next(Entry(m, r, i))
    case Low(i, j) =>
      match Next(Entry(m, r, i))
      case None => None
      case Some(p) => Next(Entry(m, p, j))
  }

  function LowOf(v: nat): Node { Low(v / 262144, v / 512 % 512) }

  // The flat map: the valid leaf entry of virtual page v, or 0 when v is unmapped.
  function Lookup(m: Mem, r: nat, v: nat): nat {
    match At(m, r, LowOf(v))
    case None => 0
    case Some(p) => if IsValid(Entry(m, p, v % 512)) then Entry(m, p, v % 512) else 0
  }

  predicate IsRoot(use: Uses, r: nat) {
    r in use && use[r] == Table(r, Root)
  }

  predicate IsTable(use: Uses, p: nat) {
    p in use && use[p].Table?
  }

  ghost predicate PointsDown(m: Mem, use: Uses, p: nat, i: nat)
    requires IsTable(use, p) && !use[p].node.Low?
  {
    var e := Entry(m, p, i);
    IsValid(e) ==>
      && PteFlags(e) == PTE_V
      && Pte2Pa(e) in use
      && use[Pte2Pa(e)] == Table(use[p].root, use[p].node.Child(i))
  }

  // A table page sits where its use says, and is reached from its root.
  ghost predicate Linked(m: Mem, use: Uses, p: nat)
    requires IsTable(use, p)
  {
    && p in m && |m[p]| == 512
    && use[p].node.InRange()
    && IsRoot(use, use[p].root)
    && At(m, use[p].root, use[p].node) == Some(p)
    && (use[p].node.Low? ==> Has(m, use, use[p].root, Mid(use[p].node.i2)))
  }

  // The position n of the address space r is filled by a table page.
  ghost predicate Has(m: Mem, use: Uses, r: nat, n: Node) {
    At(m, r, n).Some? && At(m, r, n).value in use && use[At(m, r, n).value] == Table(r, n)
  }

  ghost predicate Closed(m: Mem, use: Uses, p: nat)
    requires IsTable(use, p)
  {
    !use[p].node.Low? ==> forall i :: 0 <= i < 512 ==> PointsDown(m, use, p, i)
  }

  /** The tables form disjoint trees of depth three: every table page has one
      position, upper levels hold only pointers, and (outside open, the tables
      whose entries are being torn down) every pointer leads to the table one
      level below. */
  ghost predicate Forest(m: Mem, use: Uses, open: set<nat>) {
    && (forall p :: IsTable(use, p) ==> Linked(m, use, p))
    && (forall p :: IsTable(use, p) && p !in open ==> Closed(m, use, p))
  }

  ghost predicate Wf(m: Mem, use: Uses) {
    Forest(m, use, {})
  }

  // Following entries from a root only meets tables with the matching position.
  lemma AtIsTable(m: Mem, use: Uses, r: nat, n: Node)
    requires Wf(m, use) && IsRoot(use, r) && n.InRange()
    ensures At(m, r, n).Some? ==>
              At(m, r, n).value in use && use[At(m, r, n).value] == Table(r, n)
  {
    assert Linked(m, use, r) && Closed(m, use, r);
    match n
    case Root =>
    case Mid(i) => assert PointsDown(m, use, r, i);
    case Low(i, j) =>
      assert PointsDown(m, use, r, i);
      if IsValid(Entry(m, r, i)) {
        var p := Pte2Pa(Entry(m, r, i));
        assert Closed(m, use, p) && PointsDown(m, use, p, j);
      }
  }

  // Distinct virtual pages have distinct slots.
  lemma SlotsDistinct(m: Mem, use: Uses, r: nat, v: nat, r': nat, v': nat)
    requires Wf(m, use) && IsRoot(use, r) && IsRoot(use, r')
    requires v < 0x800_0000 && v' < 0x800_0000
    requires At(m, r, LowOf(v)).Some? && At(m, r, LowOf(v)) == At(m, r', LowOf(v'))
    requires v % 512 == v' % 512
    ensures r == r' && v == v'
  {
    AtIsTable(m, use, r, LowOf(v));
    AtIsTable(m, use, r', LowOf(v'));
    PageOfIndices(v);
    PageOfIndices(v');
  }

  // Tables and lookups do not depend on pages that are not tables.
  lemma OtherPages(m: Mem, m': Mem, use: Uses, use': Uses)
    requires Wf(m, use)
    requires forall p :: IsTable(use, p) ==> p in m' && m'[p] == m[p] && p in use' && use'[p] == use[p]
    requires forall p :: IsTable(use', p) ==> IsTable(use, p)
    ensures Wf(m', use')
    ensures forall r, v :: IsRoot(use, r) && v < 0x800_0000 ==> Lookup(m', r, v) == Lookup(m, r, v)
  {
    forall r, n: Node | IsRoot(use, r) && n.InRange()
      ensures At(m', r, n) == At(m, r, n)
    {
      assert IsTable(use, r);
      AtIsTable(m, use, r, n);
      if n.Low? {
        AtIsTable(m, use, r, Mid(n.i2));
        assert At(m, r, Mid(n.i2)).Some? ==> IsTable(use, At(m, r, Mid(n.i2)).value);
      }
    }
    forall p | IsTable(use', p) ensures Linked(m', use', p) && Closed(m', use', p) {
      assert Linked(m, use, p) && Closed(m, use, p);
      if !use[p].node.Low? {
        forall i | 0 <= i < 512 ensures PointsDown(m', use', p, i) {
          assert PointsDown(m, use, p, i);
        }
      }
    }
    forall r, v | IsRoot(use, r) && v < 0x800_0000 ensures Lookup(m', r, v) == Lookup(m, r, v) {
      AtIsTable(m, use, r, LowOf(v));
      assert At(m, r, LowOf(v)).Some? ==> IsTable(use, At(m, r, LowOf(v)).value);
    }
  }

  function ZeroPage(): seq<nat> { seq(512, _ => 0) }

  function SetEntry(m: Mem, p: nat, i: nat, e: nat): Mem
    requires p in m && i < |m[p]|
  {
    var row: seq<nat> := m[p][i := e];
    m[p := row]
  }

  lemma ZeroPageIs()
    ensures |ZeroPage()| == 512 && forall i :: 0 <= i < 512 ==> !IsValid(ZeroPage()[i])
    ensures !IsValid(0)
  {
  }

  lemma PageRoundsToItself(q: nat)
    requires q % PGSIZE == 0
    ensures PgRoundDown(q) == q
  {
  }

  // Hanging a zeroed page q below an upper table keeps the forest and every translation.
  lemma Graft(m: Mem, use: Uses, p: nat, i: nat, q: nat)
    requires Wf(m, use) && IsTable(use, p) && !use[p].node.Low? && i < 512
    requires !IsValid(Entry(m, p, i))
    requires q in use && !use[q].Table? && q % PGSIZE == 0 && q < U64
    ensures p in m && |m[p]| == 512
    ensures var m' := SetEntry(m[q := ZeroPage()], p, i, MakePte(q, 0));
            var use' := use[q := Table(use[p].root, use[p].node.Child(i))];
            && Wf(m', use')
            && At(m', use[p].root, use[p].node.Child(i)) == Some(q)
            && forall r, v :: IsRoot(use, r) && v < 0x800_0000 ==> Lookup(m', r, v) == Lookup(m, r, v)
  {
    hide Pte2Pa, MakePte, PteFlags, ZeroPage, IsValid, PgRoundDown;
    ZeroPageIs();
    var root, node := use[p].root, use[p].node;
    var e := MakePte(q, 0);
    assert Linked(m, use, p) && Closed(m, use, p);
    var m' := SetEntry(m[q := ZeroPage()], p, i, e);
    var use' := use[q := Table(root, node.Child(i))];
    MakePteParts(q, 0);
    PageRoundsToItself(q);
    assert At(m, root, node.Child(i)) == None;
    forall r, n: Node | IsRoot(use, r) && n.InRange() && At(m, r, n).Some?
      ensures At(m', r, n) == At(m, r, n)
    {
      AtIsTable(m, use, r, n);
      AtIsTable(m, use, r, Root);
      if n.Low? { AtIsTable(m, use, r, Mid(n.i2)); }
    }
    assert At(m', root, node) == Some(p);
    assert At(m', root, node.Child(i)) == Some(q);
    forall p' | IsTable(use', p') ensures Linked(m', use', p') && Closed(m', use', p') {
      if p' != q {
        assert Linked(m, use, p') && Closed(m, use, p');
        if !use[p'].node.Low? {
          forall k | 0 <= k < 512 ensures PointsDown(m', use', p', k) {
            assert PointsDown(m, use, p', k);
          }
        }
      }
    }
    forall r, v | IsRoot(use, r) && v < 0x800_0000 ensures Lookup(m', r, v) == Lookup(m, r, v) {
      AtIsTable(m, use, r, LowOf(v));
      AtIsTable(m', use', r, LowOf(v));
    }
  }

  // Writing one slot of a lowest-level table changes exactly one translation.
  lemma SetLeaf(m: Mem, use: Uses, p: nat, v: nat, e: nat)
    requires Wf(m, use) && IsTable(use, p) && v < 0x800_0000 && use[p].node == LowOf(v)
    ensures p in m && |m[p]| == 512
    ensures var m' := SetEntry(m, p, v % 512, e);
            && Wf(m', use)
            && forall r, w :: IsRoot(use, r) && w < 0x800_0000 ==>
                 Lookup(m', r, w) ==
                   if r == use[p].root && w == v then (if IsValid(e) then e else 0) else Lookup(m, r, w)
  {
    assert Linked(m, use, p);
    var m' := SetEntry(m, p, v % 512, e);
    forall r, n: Node | IsRoot(use, r) && n.InRange() ensures At(m', r, n) == At(m, r, n) {
      AtIsTable(m, use, r, n);
      AtIsTable(m, use, r, Root);
      if n.Low? { AtIsTable(m, use, r, Mid(n.i2)); }
    }
    forall p' | IsTable(use, p') ensures Linked(m', use, p') && Closed(m', use, p') {
      assert Linked(m, use, p') && Closed(m, use, p');
      if !use[p'].node.Low? {
        forall k | 0 <= k < 512 ensures PointsDown(m', use, p', k) {
          assert PointsDown(m, use, p', k);
        }
      }
    }
    forall r, w | IsRoot(use, r) && w < 0x800_0000
      ensures Lookup(m', r, w) ==
                if r == use[p].root && w == v then (if IsValid(e) then e else 0) else Lookup(m, r, w)
    {
      AtIsTable(m, use, r, LowOf(w));
      PageOfIndices(v);
      PageOfIndices(w);
    }
  }

  // Two tables at one position are one page.
  lemma OnePlace(m: Mem, use: Uses, open: set<nat>, p: nat, q: nat)
    requires Forest(m, use, open) && IsTable(use, p) && IsTable(use, q) && use[p] == use[q]
    ensures p == q
  {
    assert Linked(m, use, p) && Linked(m, use, q);
  }

  // No table of root lies at or below n.
  ghost predicate Bare(use: Uses, root: nat, n: Node) {
    forall q :: IsTable(use, q) && use[q].root == root ==> !use[q].node.Under(n)
  }

  // Clearing the entry above a torn-down subtree.
  lemma Prune(m: Mem, use: Uses, open: set<nat>, p: nat, i: nat)
    requires Forest(m, use, open + {p}) && IsTable(use, p) && p !in open && !use[p].node.Low? && i < 512
    requires Bare(use, use[p].root, use[p].node.Child(i))
    requires forall j :: 0 <= j < 512 && j != i ==> PointsDown(m, use, p, j)
    ensures p in m && |m[p]| == 512
    ensures Forest(SetEntry(m, p, i, 0), use, open)
  {
    assert Linked(m, use, p);
    var m' := SetEntry(m, p, i, 0);
    forall q | IsTable(use, q) ensures Linked(m', use, q) {
      assert Linked(m, use, q);
      var r, n := use[q].root, use[q].node;
      assert IsTable(use, r) && Linked(m, use, r);
      if n.Low? {
        var mid := At(m, r, Mid(n.i2)).value;
        assert IsTable(use, mid) && Linked(m, use, mid);
        assert At(m', r, Mid(n.i2)) == Some(mid);
      }
      assert At(m', r, n) == Some(q);
    }
    forall q | IsTable(use, q) && q !in open ensures Closed(m', use, q) {
      if q == p {
        assert !use[p].node.Low?;
        forall j | 0 <= j < 512 ensures PointsDown(m', use, p, j) {
          assert j != i ==> PointsDown(m, use, p, j);
        }
      } else {
        assert Closed(m, use, q);
        if !use[q].node.Low? {
          forall j | 0 <= j < 512 ensures PointsDown(m', use, q, j) {
            assert PointsDown(m, use, q, j);
          }
        }
      }
    }
  }

  // The table above p is open.
  ghost predicate ParentOpen(use: Uses, open: set<nat>, p: nat)
    requires IsTable(use, p)
  {
    forall t, i :: IsTable(use, t) && t !in open && 0 <= i < 512 && IsParent(use, t, p) ==>
      use[t].node.Child(i) != use[p].node
  }

  predicate IsParent(use: Uses, t: nat, p: nat)
    requires IsTable(use, p) && IsTable(use, t)
  {
    use[t].root == use[p].root && !use[t].node.Low?
  }

  // Giving a table page without tables below it another use.
  lemma Drop(m: Mem, use: Uses, open: set<nat>, p: nat, row: seq<nat>)
    requires Forest(m, use, open) && IsTable(use, p)
    requires forall q :: IsTable(use, q) && q != p && use[q].root == use[p].root ==> !use[q].node.Under(use[p].node)
    requires ParentOpen(use, open, p)
    ensures Forest(m[p := row], use[p := Free], open)
  {
    var m', use' := m[p := row], use[p := Free];
    assert Linked(m, use, p);
    forall q | IsTable(use', q) ensures Linked(m', use', q) {
      assert IsTable(use, q) && Linked(m, use, q);
      var r, n := use[q].root, use[q].node;
      assert IsTable(use, r) && Linked(m, use, r);
      assert r != p by {
        if r == p { assert use[q].node.Under(use[p].node); }
      }
      if n.Low? {
        var mid := At(m, r, Mid(n.i2)).value;
        assert IsTable(use, mid) && Linked(m, use, mid);
        assert mid != p by {
          if mid == p { assert use[q].node.Under(use[p].node); }
        }
      }
      assert At(m', r, n) == Some(q);
    }
    forall q | IsTable(use', q) && q !in open ensures Closed(m', use', q) {
      assert IsTable(use, q) && Closed(m, use, q);
      if !use[q].node.Low? {
        forall j | 0 <= j < 512 ensures PointsDown(m', use', q, j) {
          assert PointsDown(m, use, q, j);
        }
      }
    }
  }

  predicate TableOf(u: Use, root: nat, n: Node) {
    u.Table? && u.root == root && u.node.Under(n)
  }

  // A position strictly below n, on the side of entry j.
  predicate Beyond(nd: Node, n: Node, j: int) {
    nd.Under(n) && nd != n && (if n.Root? && !nd.Root? then nd.i2 < j else if nd.Low? then nd.i1 < j else false)
  }

  // The tables at and below n went back to the pool; nothing else changed use.
  ghost predicate Torn(use: Uses, use': Uses, root: nat, n: Node) {
    && use'.Keys == use.Keys
    && forall q :: q in use ==> use'[q] == if TableOf(use[q], root, n) then Free else use[q]
  }

  // As above for the subtrees under the first i entries of the table at n.
  ghost predicate TornTo(use: Uses, use': Uses, root: nat, n: Node, i: int) {
    && use'.Keys == use.Keys
    && forall q :: q in use ==>
         use'[q] == if TableOf(use[q], root, n) && Beyond(use[q].node, n, i) then Free else use[q]
  }

  lemma TornChild(use0: Uses, use: Uses, use': Uses, root: nat, n: Node, i: nat)
    requires !n.Low? && TornTo(use0, use, root, n, i) && Torn(use, use', root, n.Child(i))
    ensures TornTo(use0, use', root, n, i + 1)
  {
  }

  lemma TornSkip(m: Mem, use0: Uses, use: Uses, open: set<nat>, p: nat, i: nat)
    requires Forest(m, use, open) && IsTable(use, p) && i < 512
    requires !use[p].node.Low? ==> !IsValid(Entry(m, p, i))
    requires TornTo(use0, use, use[p].root, use[p].node, i)
    ensures TornTo(use0, use, use[p].root, use[p].node, i + 1)
  {
    var root, n := use[p].root, use[p].node;
    if !n.Low? {
      assert Linked(m, use, p);
      forall q | IsTable(use, q) && use[q].root == root ensures !use[q].node.Under(n.Child(i)) {
        assert Linked(m, use, q);
        assert use[q].node.Low? ==> Has(m, use, root, Mid(use[q].node.i2));
      }
    }
  }

  // The virtual page of a slot, and back.
  lemma SlotPage(i: nat, j: nat, k: nat)
    requires i < 512 && j < 512 && k < 512
    ensures var v := i * 262144 + j * 512 + k;
            v < 0x800_0000 && LowOf(v) == Low(i, j) && v % 512 == k
  {
    var v := i * 262144 + j * 512 + k;
    assert v / 512 == i * 512 + j;
    assert v / 262144 == i;
  }

  // An address space is the same when its own tables are.
  lemma OtherSpace(m: Mem, m': Mem, use: Uses, r: nat)
    requires Wf(m, use) && IsRoot(use, r)
    requires forall p :: IsTable(use, p) && use[p].root == r ==> p in m' && m'[p] == m[p]
    ensures forall v: nat :: v < 0x800_0000 ==> Lookup(m', r, v) == Lookup(m, r, v)
  {
    forall v: nat | v < 0x800_0000 ensures Lookup(m', r, v) == Lookup(m, r, v) {
      assert IsTable(use, r);
      var n := LowOf(v);
      AtIsTable(m, use, r, n);
      AtIsTable(m, use, r, Mid(n.i2));
      assert At(m, r, Mid(n.i2)).Some? ==> IsTable(use, At(m, r, Mid(n.i2)).value);
      assert At(m, r, n).Some? ==> IsTable(use, At(m, r, n).value);
    }
  }

  // A pointer entry is not a leaf.
  lemma PointerIsNotLeaf(e: nat)
    requires PteFlags(e) == PTE_V
    ensures !IsLeaf(e) && IsValid(e)
  {
    assert e == e / 1024 * 1024 + 1;
    Split2(e / 1024, 1);
    Split1024(e / 1024, 1);
  }
}
