/** The kernel's chained hash map (sstl/map.hpp): a table of 2^order lists, new nodes at
    the front. A list is the sequence of its nodes. */
module HashMap {
  import opened Common
  import opened Words

  datatype Node<V> = Node(key: nat, val: V)

  // ---- The hash --------------------------------------------------------------------------------

  const GOLDEN_RATIO_PRIME_64: nat := 0x9e37fffffffc0001

  function Pow2(n: nat): (r: int)
    ensures r >= 1
  {
    if n == 0 then 1 else 2 * Pow2(n - 1)
  }

  // Words of 64 bits: shift left by multiplying, subtract, add.
  function Shl(n: nat, k: nat): (r: nat)
    ensures r < U64
  {
    n * k % U64
  }

  function Sub(a: nat, b: nat): (r: nat)
    ensures r < U64
  {
    (a - b) % U64
  }

  function Add(a: nat, b: nat): (r: nat)
    ensures r < U64
  {
    (a + b) % U64
  }

  /** hash_64 as written: shifts, additions and subtractions of 64-bit words. */
  method Hash64(val: nat, bits: nat) returns (h: nat)
    requires val < U64 && 1 <= bits <= 64
    ensures h == HashOf(val, bits)
  {
    hide Shl, Sub, Add, Shr;
    var hash, n := val, val;
    n := Shl(n, 0x4_0000);
    hash := Sub(hash, n);
    n := Shl(n, 0x2_0000_0000);
    hash := Sub(hash, n);
    n := Shl(n, 8);
    hash := Add(hash, n);
    n := Shl(n, 8);
    hash := Sub(hash, n);
    n := Shl(n, 16);
    hash := Add(hash, n);
    n := Shl(n, 4);
    hash := Add(hash, n);
    ShiftAndAdd(val);
    h := Shr(hash, 64 - bits);
  }

  // Multiplication by the golden ratio prime, then the upper bits.
  function HashOf(val: nat, bits: nat): nat
    requires 1 <= bits <= 64
  {
    Shr(Shl(val, GOLDEN_RATIO_PRIME_64), 64 - bits)
  }

  function Shr(x: nat, n: nat): nat {
    DivNat(x, Pow2(n));
    x / Pow2(n)
  }

  lemma DivNat(x: nat, d: int)
    requires d >= 1
    ensures x / d >= 0
  {
  }

  lemma ShlIs(x: int, k: nat)
    ensures Shl(x % U64, k) == x * k % U64
  {
    ReduceStep(x, k, 0);
  }

  lemma SubIs(a: int, b: int)
    ensures Sub(a % U64, b % U64) == (a - b) % U64
  {
    ReduceStep(a, 1, -(b % U64));
    ReduceStep(b, -1, a);
  }

  lemma AddIs(a: int, b: int)
    ensures Add(a % U64, b % U64) == (a + b) % U64
  {
    ReduceStep(a, 1, b % U64);
    ReduceStep(b, 1, a);
  }

  /** The six shifts are one multiplication. */
  lemma ShiftAndAdd(val: nat)
    requires val < U64
    ensures var n1 := Shl(val, 0x4_0000);
            var n2 := Shl(n1, 0x2_0000_0000);
            var n3 := Shl(n2, 8);
            var n4 := Shl(n3, 8);
            var n5 := Shl(n4, 16);
            var n6 := Shl(n5, 4);
            Add(Add(Sub(Add(Sub(Sub(val, n1), n2), n3), n4), n5), n6) == Shl(val, GOLDEN_RATIO_PRIME_64)
  {
    hide Shl, Sub, Add;
    assert val % U64 == val;
    ShlIs(val, 0x4_0000);
    ShlIs(val * 0x4_0000, 0x2_0000_0000);
    ShlIs(val * 0x8_0000_0000_0000, 8);
    ShlIs(val * 0x40_0000_0000_0000, 8);
    ShlIs(val * 0x200_0000_0000_0000, 16);
    ShlIs(val * 0x2000_0000_0000_0000, 4);
    ShlIs(val, GOLDEN_RATIO_PRIME_64);
    SubIs(val, val * 0x4_0000);
    SubIs(val * -0x3_ffff, val * 0x8_0000_0000_0000);
    AddIs(val * -0x8_0000_0003_ffff, val * 0x40_0000_0000_0000);
    SubIs(val * 0x37_ffff_fffc_0001, val * 0x200_0000_0000_0000);
    AddIs(val * -0x1c8_0000_0003_ffff, val * 0x2000_0000_0000_0000);
    AddIs(val * 0x1e37_ffff_fffc_0001, val * 0x8000_0000_0000_0000);
  }

  lemma {:induction false} Pow2Add(a: nat, b: nat)
    ensures Pow2(a + b) == Pow2(a) * Pow2(b)
    decreases b
  {
    if b > 0 {
      Pow2Add(a, b - 1);
      assert Pow2(a + b) == 2 * Pow2(a + b - 1);
      assert Pow2(a) * (2 * Pow2(b - 1)) == 2 * (Pow2(a) * Pow2(b - 1));
    }
  }

  lemma Pow2Word()
    ensures Pow2(64) == U64
  {
    assert Pow2(8) == 256;
    Square(8, 256);
    Square(16, 0x1_0000);
    Square(32, 0x1_0000_0000);
  }

  lemma Square(n: nat, x: int)
    requires Pow2(n) == x
    ensures Pow2(n + n) == x * x
  {
    Pow2Add(n, n);
  }

  lemma DivBelow(x: int, d: int, m: int)
    requires d >= 1 && 0 <= x < m * d
    ensures 0 <= x / d < m
  {
    var q := x / d;
    assert x == q * d + x % d;
    if q >= m { Scale(m, q, d); }
  }

  lemma Scale(a: int, b: int, d: int)
    requires a <= b && d >= 1
    ensures a * d <= b * d
  {
  }

  /** A hash of bits bits is below 2^bits. */
  lemma HashBelow(val: nat, bits: nat)
    requires 1 <= bits <= 64
    ensures HashOf(val, bits) < Pow2(bits)
  {
    hide Shl, Pow2;
    Pow2Add(bits, 64 - bits);
    Pow2Word();
    DivBelow(Shl(val, GOLDEN_RATIO_PRIME_64), Pow2(64 - bits), Pow2(bits));
  }

  // The bucket of a key: hash_64 with one bit less than the order of the table.
  function Bucket(key: nat, order: nat): nat
    requires 2 <= order <= 31
  {
    HashOf(key, order - 1)
  }

  lemma BucketInRange(key: nat, order: nat)
    requires 2 <= order <= 31
    ensures Bucket(key, order) < Pow2(order - 1) < Pow2(order)
  {
    HashBelow(key, order - 1);
    assert Pow2(order) == 2 * Pow2(order - 1);
  }

  // ---- Lists of nodes ---------------------------------------------------------------------------

  predicate DistinctKeys<V>(b: seq<Node<V>>) {
    forall i, j :: 0 <= i < j < |b| ==> b[i].key != b[j].key
  }

  // The list of bucket h holds exactly the entries of m that hash to h, each once.
  ghost predicate BucketOk<V>(b: seq<Node<V>>, h: nat, order: nat, m: map<nat, V>)
    requires 2 <= order <= 31
  {
    && DistinctKeys(b)
    && (forall i :: 0 <= i < |b| ==> b[i].key in m && m[b[i].key] == b[i].val && Bucket(b[i].key, order) == h)
    && (forall k :: k in m && Bucket(k, order) == h ==> Node(k, m[k]) in b)
  }

  ghost predicate TableOk<V>(table: seq<seq<Node<V>>>, order: nat, m: map<nat, V>) {
    && 2 <= order <= 31 && |table| == Pow2(order) && (forall k :: k in m ==> k < U64)
    && forall h :: 0 <= h < |table| ==> BucketOk(table[h], h, order, m)
  }

  // Where the search loops of the code stop: at the key, or at the end.
  predicate FoundAt<V>(b: seq<Node<V>>, key: nat, i: nat) {
    i <= |b| && (i < |b| ==> b[i].key == key) && forall j :: 0 <= j < i ==> b[j].key != key
  }

  lemma SearchOk<V>(b: seq<Node<V>>, h: nat, order: nat, m: map<nat, V>, key: nat, i: nat)
    requires 2 <= order <= 31 && BucketOk(b, h, order, m) && Bucket(key, order) == h && FoundAt(b, key, i)
    ensures i < |b| <==> key in m
    ensures i < |b| ==> m[key] == b[i].val
  {
    if key in m {
      var j :| 0 <= j < |b| && b[j] == Node(key, m[key]);
    }
  }

  lemma PutBucket<V>(b: seq<Node<V>>, h: nat, order: nat, m: map<nat, V>, key: nat, val: V)
    requires 2 <= order <= 31 && BucketOk(b, h, order, m) && key !in m
    ensures BucketOk(if Bucket(key, order) == h then [Node(key, val)] + b else b, h, order, m[key := val])
  {
    hide Bucket;
    if Bucket(key, order) == h {
      var b' := [Node(key, val)] + b;
      forall k | k in m[key := val] && Bucket(k, order) == h ensures Node(k, m[key := val][k]) in b' {
        if k == key { assert b'[0] == Node(k, val); } else { assert Node(k, m[k]) in b; }
      }
    }
  }

  lemma DropBucket<V>(b: seq<Node<V>>, h: nat, order: nat, m: map<nat, V>, key: nat, i: nat)
    requires 2 <= order <= 31 && BucketOk(b, h, order, m)
    requires if Bucket(key, order) == h then i < |b| && b[i].key == key else true
    ensures BucketOk(if Bucket(key, order) == h then b[..i] + b[i + 1..] else b, h, order, m - {key})
  {
    hide Bucket;
    if Bucket(key, order) == h {
      var b' := b[..i] + b[i + 1..];
      forall k | k in m - {key} && Bucket(k, order) == h ensures Node(k, m[k]) in b' {
        var j :| 0 <= j < |b| && b[j] == Node(k, m[k]);
        assert b'[if j < i then j else j - 1] == b[j];
      }
    }
  }

  // ---- The entries in the order of iteration -----------------------------------------------------

  function Flatten<V>(table: seq<seq<Node<V>>>): seq<Node<V>> {
    if table == [] then [] else Flatten(table[..|table| - 1]) + table[|table| - 1]
  }

  lemma FlattenNext<V>(table: seq<seq<Node<V>>>, h: nat)
    requires h < |table|
    ensures Flatten(table[..h + 1]) == Flatten(table[..h]) + table[h]
  {
    assert table[..h + 1][..h] == table[..h];
  }

  // The entries before place i of bucket h.
  function Before<V>(table: seq<seq<Node<V>>>, h: nat, i: nat): seq<Node<V>>
    requires h < |table| && i <= |table[h]|
  {
    Flatten(table[..h]) + table[h][..i]
  }

  lemma {:induction false} FlattenHas<V>(table: seq<seq<Node<V>>>, n: Node<V>)
    ensures n in Flatten(table) <==> exists h :: 0 <= h < |table| && n in table[h]
  {
    if table != [] {
      var last := |table| - 1;
      FlattenHas(table[..last], n);
      if n in Flatten(table[..last]) {
        var h :| 0 <= h < last && n in table[..last][h];
        assert n in table[h];
      }
      if h :| 0 <= h < |table| && n in table[h] {
        if h < last { assert n in table[..last][h]; }
      }
    }
  }

  lemma {:induction false} FlattenDistinct<V>(table: seq<seq<Node<V>>>, order: nat, m: map<nat, V>)
    requires 2 <= order <= 31 && forall h :: 0 <= h < |table| ==> BucketOk(table[h], h, order, m)
    ensures DistinctKeys(Flatten(table))
    ensures forall i :: 0 <= i < |Flatten(table)| ==> Bucket(Flatten(table)[i].key, order) < |table|
  {
    hide Bucket;
    if table != [] {
      var last := |table| - 1;
      FlattenDistinct(table[..last], order, m);
      var a, b := Flatten(table[..last]), table[last];
      assert BucketOk(b, last, order, m);
    }
  }

  /** Iteration order lists every entry of the map, and none twice. */
  lemma EveryEntryOnce<V>(table: seq<seq<Node<V>>>, order: nat, m: map<nat, V>)
    requires TableOk(table, order, m)
    ensures DistinctKeys(Flatten(table))
    ensures forall n :: n in Flatten(table) <==> n.key in m && m[n.key] == n.val
  {
    hide Bucket, DistinctKeys, Flatten, Pow2;
    FlattenDistinct(table, order, m);
    forall n ensures n in Flatten(table) <==> n.key in m && m[n.key] == n.val {
      FlattenHas(table, n);
      if n.key in m && m[n.key] == n.val {
        BucketInRange(n.key, order);
        var h := Bucket(n.key, order);
        assert BucketOk(table[h], h, order, m);
      }
      if h :| 0 <= h < |table| && n in table[h] {
        assert BucketOk(table[h], h, order, m);
      }
    }
  }

  // The list a key belongs in.
  function ListOf<V>(table: seq<seq<Node<V>>>, order: nat, key: nat): seq<Node<V>>
    requires 2 <= order <= 31 && |table| == Pow2(order)
  {
    BucketInRange(key, order);
    table[Bucket(key, order)]
  }

  // A place in the table.
  datatype Cursor = End | At(h: nat, i: nat)

  class Map<V(==)> {
    const order: nat
    var table: seq<seq<Node<V>>>
    ghost var m: map<nat, V>

    ghost predicate Valid()
      reads this
    {
      TableOk(table, order, m)
    }

    constructor (order: nat)
      requires 2 <= order <= 31
      ensures Valid() && m == map[] && this.order == order
    {
      this.order := order;
      table := seq(Pow2(order), _ => []);
      m := map[];
    }

    method HashKey(key: nat) returns (h: nat)
      requires Valid() && key < U64
      ensures h == Bucket(key, order) && h < |table|
    {
      h := Hash64(key, order - 1);
      BucketInRange(key, order);
    }

    method Search(key: nat, h: nat) returns (i: nat)
      requires Valid() && h < |table|
      ensures FoundAt(table[h], key, i)
    {
      i := 0;
      while i < |table[h]| && table[h][i].key != key
        invariant i <= |table[h]| && forall j :: 0 <= j < i ==> table[h][j].key != key
      {
        i := i + 1;
      }
    }

    /** put panics on a key that is there, and adds one that is not. */
    method Put(key: nat, val: V) returns (panicked: bool)
      requires Valid() && key < U64
      modifies this`table, this`m
      ensures Valid() && (panicked <==> key in old(m))
      ensures m == if panicked then old(m) else old(m)[key := val]
    {
      hide Bucket, Pow2, BucketOk;
      var h := HashKey(key);
      var i := Search(key, h);
      SearchOk(table[h], h, order, m, key, i);
      if i < |table[h]| { return true; }
      forall g | 0 <= g < |table|
        ensures var b := if Bucket(key, order) == g then [Node(key, val)] + table[g] else table[g];
                BucketOk(b, g, order, m[key := val])
      {
        PutBucket(table[g], g, order, m, key, val);
      }
      table := table[h := [Node(key, val)] + table[h]];
      m := m[key := val];
      return false;
    }

    method Get(key: nat) returns (r: Option<V>)
      requires Valid() && key < U64
      ensures r == if key in m then Some(m[key]) else None
    {
      hide Bucket, Pow2, BucketOk;
      var h := HashKey(key);
      var i := Search(key, h);
      SearchOk(table[h], h, order, m, key, i);
      return if i < |table[h]| then Some(table[h][i].val) else None;
    }

    /** poll panics on an empty bucket. Otherwise it stops at the key or at the last node
        of the bucket, and removes that node: the right one exactly when the key is there. */
    method Poll(key: nat) returns (panicked: bool, removed: nat, r: Option<V>)
      requires Valid() && key < U64
      modifies this`table, this`m
      ensures Valid()
      ensures panicked <==> ListOf(old(table), order, key) == []
      ensures panicked ==> m == old(m) && r == None
      ensures !panicked ==> removed in old(m) && r == Some(old(m)[removed]) && m == old(m) - {removed}
      ensures !panicked ==> (removed == key <==> key in old(m))
      ensures !panicked && key !in old(m) ==> var b := ListOf(old(table), order, key); removed == b[|b| - 1].key
    {
      hide Bucket, Pow2, BucketOk;
      var h := HashKey(key);
      var b := table[h];
      if b == [] { return true, 0, None; }
      var i := 0;
      while i + 1 < |b| && b[i].key != key
        invariant i < |b| && forall j :: 0 <= j < i ==> b[j].key != key
      {
        i := i + 1;
      }
      InMap(table, order, m, h, i);
      SearchOk(b, h, order, m, key, if b[i].key == key then i else |b|);
      removed := b[i].key;
      r := Some(b[i].val);
      forall g | 0 <= g < |table|
        ensures BucketOk(if g == h then b[..i] + b[i + 1..] else table[g], g, order, m - {removed})
      {
        DropBucket(table[g], g, order, m, removed, i);
      }
      table := table[h := b[..i] + b[i + 1..]];
      m := m - {removed};
      panicked := false;
    }

    // The first entry at or after the start of bucket h.
    method FirstFrom(h0: nat) returns (c: Cursor)
      requires Valid() && h0 <= |table|
      ensures c.End? ==> Flatten(table) == Flatten(table[..h0])
      ensures c.At? ==> h0 <= c.h < |table| && c.i == 0 < |table[c.h]| && Before(table, c.h, 0) == Flatten(table[..h0])
    {
      hide Bucket, Pow2, BucketOk;
      var h := h0;
      while h < |table| && table[h] == []
        invariant h0 <= h <= |table| && Flatten(table[..h]) == Flatten(table[..h0])
      {
        FlattenNext(table, h);
        h := h + 1;
      }
      if h == |table| {
        assert table[..h] == table;
        return End;
      }
      return At(h, 0);
    }

    // operator++: the next node of the list, or the next bucket after the hash of the key.
    method Next(c: Cursor) returns (d: Cursor)
      requires Valid() && c.At? && c.h < |table| && c.i < |table[c.h]|
      ensures d.End? ==> Flatten(table) == Before(table, c.h, c.i) + [table[c.h][c.i]]
      ensures d.At? ==> d.h < |table| && d.i < |table[d.h]|
      ensures d.At? ==> Before(table, d.h, d.i) == Before(table, c.h, c.i) + [table[c.h][c.i]]
    {
      hide Bucket, Pow2, BucketOk, Flatten;
      InMap(table, order, m, c.h, c.i);
      if c.i + 1 < |table[c.h]| {
        assert table[c.h][..c.i + 1] == table[c.h][..c.i] + [table[c.h][c.i]];
        return At(c.h, c.i + 1);
      }
      var index := HashKey(table[c.h][c.i].key);
      d := FirstFrom(index + 1);
      FlattenNext(table, c.h);
      assert table[c.h] == table[c.h][..c.i] + [table[c.h][c.i]];
    }

    /** A loop from begin to the end visits the entries in iteration order: each once. */
    method Iterate() returns (visited: seq<Node<V>>)
      requires Valid()
      ensures visited == Flatten(table) && DistinctKeys(visited)
      ensures forall n :: n in visited <==> n.key in m && m[n.key] == n.val
    {
      hide Bucket, Pow2, BucketOk, Flatten;
      visited := [];
      var c := FirstFrom(0);
      assert Flatten(table[..0]) == [] by { FlattenNone(table); }
      while c.At?
        invariant c.At? ==> c.h < |table| && c.i < |table[c.h]| && visited == Before(table, c.h, c.i)
        invariant c.End? ==> visited == Flatten(table)
        decreases |Flatten(table)| - |visited|, if c.At? then 1 else 0
      {
        BeforeShort(table, c.h, c.i);
        visited := visited + [table[c.h][c.i]];
        c := Next(c);
      }
      EveryEntryOnce(table, order, m);
    }
  }

  lemma FlattenNone<V>(table: seq<seq<Node<V>>>)
    ensures Flatten(table[..0]) == []
  {
  }

  lemma InMap<V>(table: seq<seq<Node<V>>>, order: nat, m: map<nat, V>, h: nat, i: nat)
    requires TableOk(table, order, m) && h < |table| && i < |table[h]|
    ensures var n := table[h][i]; n.key in m && m[n.key] == n.val && n.key < U64 && Bucket(n.key, order) == h
  {
    hide Bucket, Pow2;
    assert BucketOk(table[h], h, order, m);
  }

  lemma {:induction false} FlattenGrows<V>(table: seq<seq<Node<V>>>, h: nat)
    requires h <= |table|
    ensures |Flatten(table[..h])| <= |Flatten(table)|
    decreases |table| - h
  {
    if h == |table| {
      assert table[..h] == table;
    } else {
      FlattenNext(table, h);
      FlattenGrows(table, h + 1);
    }
  }

  lemma BeforeShort<V>(table: seq<seq<Node<V>>>, h: nat, i: nat)
    requires h < |table| && i < |table[h]|
    ensures |Before(table, h, i)| < |Flatten(table)|
  {
    hide Flatten;
    FlattenNext(table, h);
    FlattenGrows(table, h + 1);
  }

  // ---- Polling an absent key ---------------------------------------------------------------------

  // Two keys of one bucket in the smallest table.
  lemma Collision()
    ensures Bucket(0, 2) == Bucket(2, 2)
  {
    Pow2Word();
    assert Pow2(64) == 2 * Pow2(63);
    assert Shl(2, GOLDEN_RATIO_PRIME_64) < Pow2(63);
    SmallShift(Shl(2, GOLDEN_RATIO_PRIME_64), 63);
    SmallShift(Shl(0, GOLDEN_RATIO_PRIME_64), 63);
  }

  lemma SmallShift(x: nat, n: nat)
    requires x < Pow2(n)
    ensures Shr(x, n) == 0
  {
    DivBelow(x, Pow2(n), 1);
  }

  /** A wrong removal: with only key 0 in the map, polling key 2 takes key 0 out. */
  method PollTakesOther<V(==)>(v: V) returns (removed: nat, r: Option<V>)
    ensures removed == 0 && r == Some(v)
  {
    hide Bucket, HashOf, Pow2, BucketOk;
    var t := new Map<V>(2);
    var bad := t.Put(0, v);
    InItsList(t.table, t.order, t.m, 0);
    Collision();
    ghost var was := t.m;
    bad, removed, r := t.Poll(2);
  }

  lemma InItsList<V>(table: seq<seq<Node<V>>>, order: nat, m: map<nat, V>, key: nat)
    requires TableOk(table, order, m) && key in m
    ensures ListOf(table, order, key) != []
  {
    hide Bucket, Pow2;
    BucketInRange(key, order);
    assert BucketOk(table[Bucket(key, order)], Bucket(key, order), order, m);
  }
}
