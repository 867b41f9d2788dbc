/** What a block driver is for: sectors of a disk and bytes of memory, and the operations on
    them that were asked for, in the order in which they took effect. */
module Transfers {
  import opened Common

  const SECTOR: nat := 512

  datatype World = World(disk: map<nat, seq<Byte>>, mem: map<nat, Byte>)

  predicate WorldOk(w: World) {
    forall s :: s in w.disk ==> |w.disk[s]| == SECTOR
  }

  function At(mem: map<nat, Byte>, a: nat): Byte { if a in mem then mem[a] else 0 }

  function Load(mem: map<nat, Byte>, a: nat, n: nat): (r: seq<Byte>)
    ensures |r| == n && forall i :: 0 <= i < n ==> r[i] == At(mem, a + i)
  {
    if n == 0 then [] else Load(mem, a, n - 1) + [At(mem, a + n - 1)]
  }

  function Put(mem: map<nat, Byte>, a: nat, data: seq<Byte>): (r: map<nat, Byte>)
    ensures forall x: nat :: At(r, x) == if a <= x < a + |data| then data[x - a] else At(mem, x)
    decreases |data|
  {
    if data == [] then mem
    else
      var last := a + |data| - 1;
      var m := Put(mem, a, data[..|data| - 1]);
      var r := m[last := data[|data| - 1]];
      assert forall x: nat :: At(r, x) == if x == last then data[|data| - 1] else At(m, x);
      r
  }

  /** A sector read into a buffer or written from one, or a store of the kernel. */
  datatype Op = Transfer(buf: nat, sector: nat, write: bool) | Store(addr: nat, data: seq<Byte>)

  function Perform(w: World, op: Op): World {
    match op
    case Store(addr, data) => w.(mem := Put(w.mem, addr, data))
    case Transfer(buf, sector, write) =>
      if sector !in w.disk then w
      else if write then w.(disk := w.disk[sector := Load(w.mem, buf, SECTOR)])
      else w.(mem := Put(w.mem, buf, w.disk[sector]))
  }

  ghost predicate Known(asked: seq<Op>, ran: seq<nat>) {
    forall i :: 0 <= i < |ran| ==> ran[i] < |asked|
  }

  // The world after the operations ran, named by their places in asked, from first on.
  function Replay(asked: seq<Op>, first: World, ran: seq<nat>): World {
    if ran == [] then first
    else
      var w := Replay(asked, first, ran[..|ran| - 1]);
      var id := ran[|ran| - 1];
      if id < |asked| then Perform(w, asked[id]) else w
  }

  lemma ReplayOne(asked: seq<Op>, first: World, ran: seq<nat>, id: nat)
    requires id < |asked|
    ensures Replay(asked, first, ran + [id]) == Perform(Replay(asked, first, ran), asked[id])
  {
    assert (ran + [id])[..|ran + [id]| - 1] == ran;
  }

  // What is asked for later does not change what has happened.
  lemma {:induction false} ReplayMore(asked: seq<Op>, more: seq<Op>, first: World, ran: seq<nat>)
    requires Known(asked, ran)
    ensures Replay(asked + more, first, ran) == Replay(asked, first, ran) && Known(asked + more, ran)
  {
    if ran != [] {
      ReplayMore(asked, more, first, ran[..|ran| - 1]);
      assert (asked + more)[ran[|ran| - 1]] == asked[ran[|ran| - 1]];
    }
  }

  // No operation adds, removes or resizes a sector.
  lemma {:induction false} ReplayOk(asked: seq<Op>, first: World, ran: seq<nat>)
    requires WorldOk(first)
    ensures WorldOk(Replay(asked, first, ran)) && Replay(asked, first, ran).disk.Keys == first.disk.Keys
  {
    hide Put, Load;
    if ran != [] {
      ReplayOk(asked, first, ran[..|ran| - 1]);
      var id := ran[|ran| - 1];
      if id < |asked| { PerformOk(Replay(asked, first, ran[..|ran| - 1]), asked[id]); }
    }
  }

  lemma PerformOk(w: World, op: Op)
    requires WorldOk(w)
    ensures WorldOk(Perform(w, op)) && Perform(w, op).disk.Keys == w.disk.Keys
  {
    hide Put;
  }

  // ---- What an operation may change -----------------------------------------------------------------

  predicate WritesSector(op: Op, s: nat) { op.Transfer? && op.write && op.sector == s }

  // The operation stores to some of the n bytes from a on.
  predicate WritesBytes(op: Op, a: nat, n: nat) {
    match op
    case Store(addr, data) => addr < a + n && a < addr + |data|
    case Transfer(buf, _, write) => !write && buf < a + n && a < buf + SECTOR
  }

  lemma {:induction false} SectorStays(asked: seq<Op>, first: World, ran: seq<nat>, n: nat, s: nat)
    requires Known(asked, ran) && WorldOk(first) && n <= |ran| && s in first.disk
    requires forall i :: n <= i < |ran| ==> !WritesSector(asked[ran[i]], s)
    ensures s in Replay(asked, first, ran).disk && s in Replay(asked, first, ran[..n]).disk
    ensures Replay(asked, first, ran).disk[s] == Replay(asked, first, ran[..n]).disk[s]
    decreases |ran|
  {
    hide Put, Load;
    ReplayOk(asked, first, ran);
    ReplayOk(asked, first, ran[..n]);
    if n == |ran| {
      assert ran[..n] == ran;
    } else {
      var init := ran[..|ran| - 1];
      assert init[..n] == ran[..n];
      SectorStays(asked, first, init, n, s);
    }
  }

  lemma {:induction false} BytesStay(asked: seq<Op>, first: World, ran: seq<nat>, n: nat, a: nat, len: nat)
    requires Known(asked, ran) && WorldOk(first) && n <= |ran|
    requires forall i :: n <= i < |ran| ==> !WritesBytes(asked[ran[i]], a, len)
    ensures Load(Replay(asked, first, ran).mem, a, len) == Load(Replay(asked, first, ran[..n]).mem, a, len)
    decreases |ran|
  {
    hide Put, Load;
    if n == |ran| {
      assert ran[..n] == ran;
    } else {
      var init := ran[..|ran| - 1];
      assert init[..n] == ran[..n];
      BytesStay(asked, first, init, n, a, len);
      ReplayOk(asked, first, init);
      BytesKept(Replay(asked, first, init), asked[ran[|ran| - 1]], a, len);
    }
  }

  lemma BytesKept(w: World, op: Op, a: nat, len: nat)
    requires WorldOk(w) && !WritesBytes(op, a, len)
    ensures Load(Perform(w, op).mem, a, len) == Load(w.mem, a, len)
  {
    hide Put, Load;
    var m, m' := w.mem, Perform(w, op).mem;
    assert forall i :: 0 <= i < len ==> Load(m', a, len)[i] == At(m', a + i) && Load(m, a, len)[i] == At(m, a + i);
  }

  // ---- What a transfer does among others --------------------------------------------------------------

  // From place n on, no other operation writes the sector or the buffer of operation id.
  ghost predicate Quiet(asked: seq<Op>, ran: seq<nat>, n: nat, id: nat)
    requires id < |asked| && asked[id].Transfer? && Known(asked, ran)
  {
    forall i :: n <= i < |ran| && ran[i] != id ==>
      !WritesSector(asked[ran[i]], asked[id].sector) && !WritesBytes(asked[ran[i]], asked[id].buf, SECTOR)
  }

  /** A read that ran once after place n leaves in its buffer the sector as it was at n. */
  lemma ReadDelivers(asked: seq<Op>, first: World, ran: seq<nat>, n: nat, k: nat)
    requires Known(asked, ran) && WorldOk(first) && n <= k < |ran| && asked[ran[k]].Transfer? && !asked[ran[k]].write
    requires asked[ran[k]].sector in first.disk && Quiet(asked, ran, n, ran[k])
    requires forall i :: n <= i < |ran| && i != k ==> ran[i] != ran[k]
    ensures var op, w := asked[ran[k]], Replay(asked, first, ran[..n]);
            op.sector in w.disk && Load(Replay(asked, first, ran).mem, op.buf, SECTOR) == w.disk[op.sector]
  {
    hide Put, Load, Replay;
    var op := asked[ran[k]];
    var before, after := ran[..k], ran[..k + 1];
    assert before[..n] == ran[..n];
    SectorStays(asked, first, before, n, op.sector);
    assert after == before + [ran[k]];
    ReplayOne(asked, first, before, ran[k]);
    ReplayOk(asked, first, before);
    PutLoad(Replay(asked, first, before).mem, op.buf, Replay(asked, first, before).disk[op.sector]);
    BytesStay(asked, first, ran, k + 1, op.buf, SECTOR);
  }

  lemma PutLoad(mem: map<nat, Byte>, a: nat, data: seq<Byte>)
    ensures Load(Put(mem, a, data), a, |data|) == data
  {
    hide Put, Load;
    var m := Put(mem, a, data);
    assert forall i :: 0 <= i < |data| ==> Load(m, a, |data|)[i] == At(m, a + i);
  }

  /** A write that ran once after place n leaves in its sector the bytes of its buffer at n. */
  lemma WriteDelivers(asked: seq<Op>, first: World, ran: seq<nat>, n: nat, k: nat)
    requires Known(asked, ran) && WorldOk(first) && n <= k < |ran| && asked[ran[k]].Transfer? && asked[ran[k]].write
    requires asked[ran[k]].sector in first.disk && Quiet(asked, ran, n, ran[k])
    requires forall i :: n <= i < |ran| && i != k ==> ran[i] != ran[k]
    ensures var op, w := asked[ran[k]], Replay(asked, first, ran);
            op.sector in w.disk && w.disk[op.sector] == Load(Replay(asked, first, ran[..n]).mem, op.buf, SECTOR)
  {
    hide Put, Load, Replay;
    var op := asked[ran[k]];
    var before, after := ran[..k], ran[..k + 1];
    assert before[..n] == ran[..n];
    BytesStay(asked, first, before, n, op.buf, SECTOR);
    assert after == before + [ran[k]];
    ReplayOne(asked, first, before, ran[k]);
    ReplayOk(asked, first, before);
    SectorStays(asked, first, ran, k + 1, op.sector);
  }
}
