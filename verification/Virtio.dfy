/** The block driver of kernel/driver/virtio.cpp and the device it shares three
    regions of memory with: descriptors, the available ring and the used ring
    (VIRTIO 1.1, sections 2.6 and 5.2). The device acts between any two stores of the
    driver: it may take a published request, or write a status, a used entry or the used
    index, any number of times (Interfere). The stores of the driver are seen by the
    device in the order of the program, which is what the fences of the driver are for. */
module Virtio {
  import opened Common
  import opened Transfers

  const NUM: nat := 8
  const U16: nat := 65536

  // Descriptor flags and request types.
  const F_NEXT: nat := 1
  const F_WRITE: nat := 2
  const T_IN: nat := 0
  const T_OUT: nat := 1

  datatype Desc = Desc(addr: nat, len: nat, flags: nat, next: nat)
  datatype BlkReq = BlkReq(kind: nat, reserved: nat, sector: nat)
  datatype Info = Info(data: nat, finish: bool, status: nat)

  // The addresses of ops[i] and info[i].status.
  function OpsAddr(i: nat): nat { 0x1000 + 16 * i }
  function StatusAddr(i: nat): nat { 0x2000 + 16 * i }

  /** How far a request is: published, taken by the device, reported in the used
      ring, or acknowledged by the interrupt handler. */
  datatype Stage = Avail | Device | Used | Done

  datatype Req = Req(id: nat, buf: nat, sector: nat, write: bool, d1: nat, d2: nat, stage: Stage)

  /** What a descriptor is for: nothing, held by the driver while it builds or frees a
      chain, or a place in the chain of a request. */
  datatype Role = Free | Reserved | In(head: nat, pos: nat)

  function SlotOf(h: nat, r: Req, pos: nat): nat {
    if pos == 0 then h else if pos == 1 then r.d1 else r.d2
  }

  // The descriptors are the free ones and the three of each request, without overlap.
  ghost predicate Partition(free: seq<bool>, role: seq<Role>, flight: map<nat, Req>) {
    && |free| == NUM && |role| == NUM
    && (forall i :: 0 <= i < NUM ==> (free[i] <==> role[i] == Free))
    && (forall i :: 0 <= i < NUM && role[i].In? ==>
          role[i].head in flight && role[i].pos < 3 && SlotOf(role[i].head, flight[role[i].head], role[i].pos) == i)
    && (forall h :: h in flight ==>
          && h < NUM && flight[h].d1 < NUM && flight[h].d2 < NUM
          && role[h] == In(h, 0) && role[flight[h].d1] == In(h, 1) && role[flight[h].d2] == In(h, 2))
  }

  /** The chain of a request says what was submitted: a header naming the operation
      and the sector, the caller's buffer, and the status byte of the request. */
  predicate AsSubmitted(desc: seq<Desc>, ops: seq<BlkReq>, h: nat, r: Req)
    requires |desc| == NUM && |ops| == NUM
  {
    && h < NUM && r.d1 < NUM && r.d2 < NUM
    && ops[h] == BlkReq(if r.write then T_OUT else T_IN, 0, r.sector)
    && desc[h] == Desc(OpsAddr(h), 16, F_NEXT, r.d1)
    && desc[r.d1] == Desc(r.buf, SECTOR, (if r.write then 0 else F_WRITE) + F_NEXT, r.d2)
    && desc[r.d2] == Desc(StatusAddr(h), 1, F_WRITE, 0)
  }

  // The chain that a device finds by following next from h.
  function ChainFrom(desc: seq<Desc>, h: nat, fuel: nat): (r: seq<nat>)
    requires |desc| == NUM
    ensures forall i :: 0 <= i < |r| ==> r[i] < NUM
    decreases fuel
  {
    if h >= NUM then []
    else if desc[h].flags % 2 == F_NEXT && fuel > 0 then [h] + ChainFrom(desc, desc[h].next, fuel - 1)
    else [h]
  }

  // The place whose address this is, among those of 16 bytes each from base on.
  function PlaceAt(base: nat, addr: nat): Option<nat> {
    if addr >= base && (addr - base) % 16 == 0 && (addr - base) / 16 < NUM then Some((addr - base) / 16) else None
  }

  datatype Answer = Answer(world: World, place: nat, status: nat)

  /** A device that serves the chain at h, by the numbers of VIRTIO 1.1, section 5.2.6: a
      header of 16 bytes, the data, and one byte that it may write for the status. A status
      other than 0 is a failure of its own. None stands for a chain it cannot read. */
  function Serve(desc: seq<Desc>, ops: seq<BlkReq>, h: nat, status: nat, w: World): Option<Answer>
    requires |desc| == NUM && |ops| == NUM
  {
    var chain := ChainFrom(desc, h, NUM);
    if |chain| != 3 then None
    else
      var head, data, last := desc[chain[0]], desc[chain[1]], desc[chain[2]];
      var header, place := PlaceAt(0x1000, head.addr), PlaceAt(0x2000, last.addr);
      if header == None || place == None || head.len != 16 || last.len != 1 || last.flags / 2 % 2 != 1 then None
      else if status != 0 then Some(Answer(w, place.value, status))
      else
        var r := Execute(ops[header.value], data, w);
        Some(Answer(r.0, place.value, r.1))
  }

  // Type 0 reads the sector into the data, which must be for the device to write; type 1
  // writes the data, which must be for it to read, to the sector. Other types are refused.
  function Execute(op: BlkReq, data: Desc, w: World): (World, nat) {
    if op.sector !in w.disk || data.len != 512 then (w, 1)
    else if op.kind == 0 && data.flags / 2 % 2 == 1 then (w.(mem := Put(w.mem, data.addr, w.disk[op.sector])), 0)
    else if op.kind == 1 && data.flags / 2 % 2 == 0 then
      (w.(disk := w.disk[op.sector := Load(w.mem, data.addr, 512)]), 0)
    else (w, 2)
  }

  ghost predicate NoDup(q: seq<nat>) {
    forall i, j :: 0 <= i < j < |q| ==> q[i] != q[j]
  }

  // A ring between a producer index and a consumer index, both 16 bits wide, holds the queue q.
  ghost predicate RingHolds(ring: seq<nat>, consumer: nat, producer: nat, q: seq<nat>) {
    && |ring| == NUM && consumer < U16 && producer < U16 && |q| <= NUM
    && producer == (consumer + |q|) % U16
    && forall i :: 0 <= i < |q| ==> ring[(consumer + i) % NUM] == q[i]
  }

  // q lists the requests at a stage, once each.
  ghost predicate QueueOf(q: seq<nat>, flight: map<nat, Req>, stage: Stage) {
    && NoDup(q)
    && (forall i :: 0 <= i < |q| ==> q[i] in flight && flight[q[i]].stage == stage)
    && (forall h :: h in flight && flight[h].stage == stage ==> h in q)
  }

  ghost predicate ReqsOk(desc: seq<Desc>, ops: seq<BlkReq>, info: seq<Info>, flight: map<nat, Req>) {
    && |desc| == NUM && |ops| == NUM && |info| == NUM
    && forall h :: h in flight ==>
         && h < NUM && AsSubmitted(desc, ops, h, flight[h])
         && (info[h].finish <==> flight[h].stage == Done)
         && (flight[h].stage != Done ==> info[h].data == flight[h].buf)
  }

  // An entry that the driver has acknowledged and not yet stepped over.
  ghost predicate StaleOk(stale: seq<nat>, flight: map<nat, Req>) {
    |stale| <= 1 && forall i :: 0 <= i < |stale| ==> stale[i] in flight && flight[stale[i]].stage == Done
  }

  // The device holds the requests it took; the one it is reporting is in the used ring
  // but not yet behind the used index.
  ghost predicate DeviceOk(holds: set<nat>, reporting: Option<nat>, usedRing: seq<nat>, usedIdx: nat,
                           flight: map<nat, Req>) {
    && (forall h :: h in holds <==> h in flight && flight[h].stage == Device)
    && (reporting.Some? ==> reporting.value in holds && |usedRing| == NUM && usedRing[usedIdx % NUM] == reporting.value)
  }

  // What the device may have done to the requests meanwhile: taken or reported some.
  ghost predicate DeviceMoved(f: map<nat, Req>, f': map<nat, Req>) {
    f'.Keys == f.Keys && forall h :: h in f ==> Later(f[h], f'[h])
  }

  predicate Later(r: Req, r': Req) {
    && r' == r.(stage := r'.stage)
    && (r'.stage == r.stage || (r.stage == Avail && (r'.stage == Device || r'.stage == Used)) ||
        (r.stage == Device && r'.stage == Used))
  }

  // The device writes only the status bytes of requests.
  ghost predicate InfoKept(info: seq<Info>, info': seq<Info>, flight: map<nat, Req>) {
    && |info'| == |info|
    && forall i :: 0 <= i < |info| ==>
         && info'[i] == info[i].(status := info'[i].status)
         && (i !in flight || flight[i].stage == Done ==> info'[i] == info[i])
  }

  // Finished request identifiers: once each, and none of a request still under way.
  ghost predicate LogOk(log: seq<nat>, flight: map<nat, Req>, nextId: nat) {
    && NoDup(log)
    && (forall i :: 0 <= i < |log| ==> log[i] < nextId)
    && (forall h :: h in flight ==> flight[h].id < nextId && (flight[h].id in log <==> flight[h].stage == Done))
    && (forall h, g :: h in flight && g in flight && h != g ==> flight[h].id != flight[g].id)
  }

  // What a request asks for.
  function OpOf(r: Req): Op { Transfer(r.buf, r.sector, r.write) }

  /** Disk and memory are what the operations that ran make of them, each at most once, and
      what is finished has run. */
  ghost predicate HistoryOk(world: World, first: World, asked: seq<Op>, ran: seq<nat>, log: seq<nat>, nextId: nat) {
    && nextId == |asked| && WorldOk(first) && NoDup(ran) && Known(asked, ran)
    && world == Replay(asked, first, ran)
    && (forall i :: 0 <= i < |ran| ==> asked[ran[i]].Transfer? ==> asked[ran[i]].sector in first.disk)
    && forall i :: 0 <= i < |log| ==> log[i] in ran
  }

  // A request has run exactly when the device has stored a status of 0 for it.
  ghost predicate RanOk(asked: seq<Op>, ran: seq<nat>, r: Req, status: nat, reported: bool) {
    && r.id < |asked| && asked[r.id] == OpOf(r)
    && (r.id in ran <==> (r.stage == Used || r.stage == Done || reported) && status == 0)
    && (r.stage == Done ==> status == 0)
  }

  ghost predicate RansOk(asked: seq<Op>, ran: seq<nat>, flight: map<nat, Req>, info: seq<Info>,
                         reporting: Option<nat>) {
    forall h :: h in flight ==>
      h < |info| && RanOk(asked, ran, flight[h], info[h].status, reporting == Some(h))
  }

  // Every operation is finished or in flight.
  ghost predicate Settled(asked: seq<Op>, flight: map<nat, Req>, log: seq<nat>) {
    forall id: nat :: id < |asked| ==> id in log || InFlight(flight, id)
  }

  ghost predicate InFlight(flight: map<nat, Req>, id: nat) { exists h :: h in flight && flight[h].id == id }

  ghost predicate EffectsOk(world: World, first: World, asked: seq<Op>, ran: seq<nat>, flight: map<nat, Req>,
                            info: seq<Info>, reporting: Option<nat>, log: seq<nat>, nextId: nat) {
    && HistoryOk(world, first, asked, ran, log, nextId)
    && RansOk(asked, ran, flight, info, reporting) && Settled(asked, flight, log)
  }

  // ---- Ring arithmetic ---------------------------------------------------------

  lemma SlotStep(c: nat, i: nat)
    requires c < U16
    ensures ((c + 1) % U16 + i) % NUM == (c + (i + 1)) % NUM
  {
    if c + 1 == U16 { DropEights(c + 1 + i, 8192); }
  }

  lemma DropEights(x: nat, k: nat)
    requires 8 * k <= x
    ensures (x - 8 * k) % 8 == x % 8
  {
  }

  lemma WrapSlot(x: nat)
    ensures (x % U16) % NUM == x % NUM
  {
    var w := x / U16;
    assert x % U16 == x - 8 * (8192 * w);
    DropEights(x, 8192 * w);
  }

  lemma SlotsDiffer(c: nat, i: nat, j: nat)
    requires i < j < i + NUM
    ensures (c + i) % NUM != (c + j) % NUM
  {
  }

  lemma PopRing(ring: seq<nat>, consumer: nat, producer: nat, q: seq<nat>)
    requires RingHolds(ring, consumer, producer, q) && q != []
    ensures ring[consumer % NUM] == q[0]
    ensures RingHolds(ring, (consumer + 1) % U16, producer, q[1..])
  {
    forall i | 0 <= i < |q[1..]| ensures ring[((consumer + 1) % U16 + i) % NUM] == q[1..][i] {
      SlotStep(consumer, i);
    }
    assert ring[(consumer + 0) % NUM] == q[0];
    assert ((consumer + 1) % U16 + (|q| - 1)) % U16 == (consumer + |q|) % U16;
  }

  lemma PushRing(ring: seq<nat>, consumer: nat, producer: nat, q: seq<nat>, h: nat)
    requires RingHolds(ring, consumer, producer, q) && |q| < NUM
    ensures RingHolds(ring[producer % NUM := h], consumer, (producer + 1) % U16, q + [h])
  {
    var ring' := ring[producer % NUM := h];
    WrapSlot(consumer + |q|);
    forall i | 0 <= i < |q + [h]| ensures ring'[(consumer + i) % NUM] == (q + [h])[i] {
      if i < |q| { SlotsDiffer(consumer, i, |q|); }
    }
    assert ((consumer + |q|) % U16 + 1) % U16 == (consumer + (|q| + 1)) % U16;
  }

  // The slot behind the producer is nobody's until the index moves.
  lemma SpareSlot(ring: seq<nat>, consumer: nat, producer: nat, q: seq<nat>, h: nat)
    requires RingHolds(ring, consumer, producer, q) && |q| < NUM
    ensures RingHolds(ring[producer % NUM := h], consumer, producer, q)
  {
    WrapSlot(consumer + |q|);
    forall i | 0 <= i < |q| ensures ring[producer % NUM := h][(consumer + i) % NUM] == q[i] {
      SlotsDiffer(consumer, i, |q|);
    }
  }

  // Moving the index publishes exactly the entry stored there.
  lemma BumpRing(ring: seq<nat>, consumer: nat, producer: nat, q: seq<nat>, h: nat)
    requires RingHolds(ring, consumer, producer, q) && |q| < NUM && ring[producer % NUM] == h
    ensures RingHolds(ring, consumer, (producer + 1) % U16, q + [h])
  {
    PushRing(ring, consumer, producer, q, h);
    assert ring[producer % NUM := h] == ring;
  }

  // The handler's test used_idx != used->idx is exact, wrap or not.
  lemma EmptyRing(ring: seq<nat>, consumer: nat, producer: nat, q: seq<nat>)
    requires RingHolds(ring, consumer, producer, q)
    ensures consumer == producer <==> q == []
  {
  }

  // ---- Steps -------------------------------------------------------------------

  ghost function FreeIdx(free: seq<bool>): set<nat> {
    set i: nat | i < |free| && free[i]
  }

  // A new request on three descriptors that the driver held.
  lemma SubmitParts(free: seq<bool>, role: seq<Role>, flight: map<nat, Req>, a: nat, r: Req)
    requires Partition(free, role, flight) && a < NUM && r.d1 < NUM && r.d2 < NUM
    requires a != r.d1 && a != r.d2 && r.d1 != r.d2
    requires role[a] == Reserved && role[r.d1] == Reserved && role[r.d2] == Reserved
    ensures a !in flight
    ensures Partition(free, role[a := In(a, 0)][r.d1 := In(a, 1)][r.d2 := In(a, 2)], flight[a := r])
  {
    SubmitRoles(free, role, role[a := In(a, 0)][r.d1 := In(a, 1)][r.d2 := In(a, 2)], flight, a, r);
  }

  lemma SubmitRoles(free: seq<bool>, role: seq<Role>, role': seq<Role>, flight: map<nat, Req>, a: nat, r: Req)
    requires Partition(free, role, flight) && a < NUM && r.d1 < NUM && r.d2 < NUM && |role'| == NUM
    requires a != r.d1 && a != r.d2 && r.d1 != r.d2
    requires role[a] == Reserved && role[r.d1] == Reserved && role[r.d2] == Reserved
    requires role'[a] == In(a, 0) && role'[r.d1] == In(a, 1) && role'[r.d2] == In(a, 2)
    requires forall i :: 0 <= i < NUM && i != a && i != r.d1 && i != r.d2 ==> role'[i] == role[i]
    ensures a !in flight && Partition(free, role', flight[a := r])
  {
    forall h | h in flight
      ensures h != a && role'[h] == In(h, 0) && role'[flight[h].d1] == In(h, 1) && role'[flight[h].d2] == In(h, 2)
    {
      assert role[h] == In(h, 0) && role[flight[h].d1] == In(h, 1) && role[flight[h].d2] == In(h, 2);
    }
  }

  // A finished request leaves its three descriptors to the driver.
  lemma RetireParts(free: seq<bool>, role: seq<Role>, flight: map<nat, Req>, a: nat)
    requires Partition(free, role, flight) && a in flight
    ensures var r := flight[a];
            Partition(free, role[a := Reserved][r.d1 := Reserved][r.d2 := Reserved], flight - {a})
  {
    var r := flight[a];
    RetireRoles(free, role, role[a := Reserved][r.d1 := Reserved][r.d2 := Reserved], flight, a);
  }

  lemma RetireRoles(free: seq<bool>, role: seq<Role>, role': seq<Role>, flight: map<nat, Req>, a: nat)
    requires Partition(free, role, flight) && a in flight && |role'| == NUM
    requires forall i :: 0 <= i < NUM ==>
               role'[i] == if i == a || i == flight[a].d1 || i == flight[a].d2 then Reserved else role[i]
    ensures Partition(free, role', flight - {a})
  {
    forall i | 0 <= i < NUM && role'[i].In?
      ensures role'[i].head in flight - {a} && role'[i].pos < 3
      ensures SlotOf(role'[i].head, flight[role'[i].head], role'[i].pos) == i
    {
      assert role'[i] == role[i];
    }
    forall h | h in flight - {a}
      ensures role'[h] == In(h, 0) && role'[flight[h].d1] == In(h, 1) && role'[flight[h].d2] == In(h, 2)
    {
      assert role[h] == In(h, 0) && role[flight[h].d1] == In(h, 1) && role[flight[h].d2] == In(h, 2);
    }
  }

  // Taking a free descriptor, and giving one back.
  lemma ReservePart(free: seq<bool>, role: seq<Role>, flight: map<nat, Req>, i: nat)
    requires Partition(free, role, flight) && i < NUM && free[i]
    ensures Partition(free[i := false], role[i := Reserved], flight)
  {
  }

  lemma ReleasePart(free: seq<bool>, role: seq<Role>, flight: map<nat, Req>, i: nat)
    requires Partition(free, role, flight) && i < NUM && role[i] == Reserved
    ensures Partition(free[i := true], role[i := Role.Free], flight) && !free[i] && i !in flight
  {
  }

  // Two requests share no descriptor.
  lemma ChainsDisjoint(free: seq<bool>, role: seq<Role>, flight: map<nat, Req>, h: nat, g: nat, p: nat, q: nat)
    requires Partition(free, role, flight) && h in flight && g in flight && p < 3 && q < 3
    requires SlotOf(h, flight[h], p) == SlotOf(g, flight[g], q)
    ensures h == g && p == q
  {
  }

  // Writes outside the chains of the requests change nothing that was submitted.
  lemma ReqsKept(desc: seq<Desc>, ops: seq<BlkReq>, info: seq<Info>, desc': seq<Desc>, ops': seq<BlkReq>,
                 info': seq<Info>,
                 free: seq<bool>, role: seq<Role>, flight: map<nat, Req>)
    requires Partition(free, role, flight) && ReqsOk(desc, ops, info, flight)
    requires |desc'| == NUM && |ops'| == NUM && |info'| == NUM
    requires forall i :: 0 <= i < NUM && role[i].In? ==> desc'[i] == desc[i] && ops'[i] == ops[i] && info'[i] == info[i]
    ensures ReqsOk(desc', ops', info', flight)
  {
    forall h | h in flight ensures AsSubmitted(desc', ops', h, flight[h]) {
      assert AsSubmitted(desc, ops, h, flight[h]);
    }
  }

  // The device finds the submitted chain: three descriptors and no more.
  lemma DeviceSees(desc: seq<Desc>, ops: seq<BlkReq>, h: nat, r: Req)
    requires |desc| == NUM && |ops| == NUM && AsSubmitted(desc, ops, h, r)
    ensures ChainFrom(desc, h, NUM) == [h, r.d1, r.d2]
  {
    assert ChainFrom(desc, r.d2, NUM - 2) == [r.d2];
    assert ChainFrom(desc, r.d1, NUM - 1) == [r.d1] + ChainFrom(desc, r.d2, NUM - 2);
  }

  lemma {:induction false} ShortQueue(q: seq<nat>, n: nat)
    requires NoDup(q) && forall i :: 0 <= i < |q| ==> q[i] < n
    ensures |q| <= n
    decreases n
  {
    if q != [] {
      assert 0 <= q[0] < n;
      if k :| 0 <= k < |q| && q[k] == n - 1 {
        ShortQueue(q[..k] + q[k + 1..], n - 1);
      } else {
        ShortQueue(q, n - 1);
      }
    }
  }

  // A queue of requests, with the entry not yet stepped over, leaves room in its ring for
  // a head that is not in it.
  lemma QueueShort(stale: seq<nat>, q: seq<nat>, flight: map<nat, Req>, stage: Stage, h: nat, free: seq<bool>,
                   role: seq<Role>)
    requires Partition(free, role, flight) && QueueOf(q, flight, stage) && h < NUM && StaleOk(stale, flight)
    requires stage != Done
    requires h in flight ==> flight[h].stage != stage && flight[h].stage != Done
    ensures |stale + q| < NUM
  {
    var all := stale + q + [h];
    assert forall i :: 0 <= i < |q| ==> q[i] in flight && q[i] < NUM;
    assert NoDup(all);
    ShortQueue(all, NUM);
  }

  lemma SubmitQueues(availQ: seq<nat>, usedQ: seq<nat>, flight: map<nat, Req>, a: nat, r: Req)
    requires QueueOf(availQ, flight, Avail) && QueueOf(usedQ, flight, Used) && a !in flight && r.stage == Avail
    ensures QueueOf(availQ + [a], flight[a := r], Avail) && QueueOf(usedQ, flight[a := r], Used)
  {
    assert forall h :: h in availQ + [a] <==> h in availQ || h == a;
  }

  lemma SubmitLog(log: seq<nat>, flight: map<nat, Req>, nextId: nat, a: nat, r: Req)
    requires LogOk(log, flight, nextId) && a !in flight && r.id == nextId && r.stage == Avail
    ensures LogOk(log, flight[a := r], nextId + 1)
  {
  }

  lemma QueuePop(q: seq<nat>, flight: map<nat, Req>, stage: Stage, next: Stage)
    requires QueueOf(q, flight, stage) && q != [] && next != stage
    ensures QueueOf(q[1..], flight[q[0] := flight[q[0]].(stage := next)], stage)
  {
    assert q == [q[0]] + q[1..];
  }

  lemma QueuePush(q: seq<nat>, flight: map<nat, Req>, stage: Stage, h: nat)
    requires QueueOf(q, flight, stage) && h in flight && flight[h].stage != stage
    ensures QueueOf(q + [h], flight[h := flight[h].(stage := stage)], stage)
  {
    assert forall g :: g in q + [h] <==> g in q || g == h;
  }

  lemma QueueOther(q: seq<nat>, flight: map<nat, Req>, stage: Stage, h: nat, next: Stage)
    requires QueueOf(q, flight, stage) && h in flight && flight[h].stage != stage && next != stage
    ensures QueueOf(q, flight[h := flight[h].(stage := next)], stage)
  {
  }

  // A change of stage moves no descriptor.
  lemma PartMove(free: seq<bool>, role: seq<Role>, flight: map<nat, Req>, h: nat, next: Stage)
    requires Partition(free, role, flight) && h in flight
    ensures Partition(free, role, flight[h := flight[h].(stage := next)])
  {
  }

  // The record of a request, as its stage changes: the handler sets the finish flag.
  function InfoAt(i: Info, next: Stage): Info {
    if next == Done then i.(finish := true) else i
  }

  lemma ReqsMove(desc: seq<Desc>, ops: seq<BlkReq>, info: seq<Info>, flight: map<nat, Req>, h: nat, next: Stage)
    requires ReqsOk(desc, ops, info, flight) && h in flight && flight[h].stage != Done
    ensures h < NUM && |info| == NUM
    ensures ReqsOk(desc, ops, info[h := InfoAt(info[h], next)], flight[h := flight[h].(stage := next)])
  {
    var flight' := flight[h := flight[h].(stage := next)];
    forall g | g in flight' ensures AsSubmitted(desc, ops, g, flight'[g]) {
      assert AsSubmitted(desc, ops, g, flight[g]);
    }
  }

  lemma LogMove(log: seq<nat>, flight: map<nat, Req>, nextId: nat, h: nat, next: Stage)
    requires LogOk(log, flight, nextId) && h in flight && flight[h].stage != Done
    ensures flight[h].id !in log
    ensures next != Done ==> LogOk(log, flight[h := flight[h].(stage := next)], nextId)
    ensures next == Done ==> LogOk(log + [flight[h].id], flight[h := flight[h].(stage := next)], nextId)
  {
    assert forall x :: x in log + [flight[h].id] <==> x in log || x == flight[h].id;
  }

  lemma HeadFacts(desc: seq<Desc>, ops: seq<BlkReq>, info: seq<Info>, flight: map<nat, Req>, h: nat)
    requires ReqsOk(desc, ops, info, flight) && h in flight
    ensures h < NUM && |info| == NUM
    ensures info[h].finish <==> flight[h].stage == Done
  {
  }

  lemma ReqSizes(desc: seq<Desc>, ops: seq<BlkReq>, info: seq<Info>, flight: map<nat, Req>)
    requires ReqsOk(desc, ops, info, flight)
    ensures |desc| == NUM && |ops| == NUM && |info| == NUM
  {
  }

  lemma PartSizes(free: seq<bool>, role: seq<Role>, flight: map<nat, Req>)
    requires Partition(free, role, flight)
    ensures |free| == NUM && |role| == NUM
  {
  }

  // Writing to a descriptor that the driver holds disturbs no request.
  lemma HeldWrites(desc: seq<Desc>, desc': seq<Desc>, ops: seq<BlkReq>, ops': seq<BlkReq>, info: seq<Info>,
                   info': seq<Info>,
                   free: seq<bool>, role: seq<Role>, flight: map<nat, Req>, i: nat)
    requires Partition(free, role, flight) && ReqsOk(desc, ops, info, flight) && i < NUM && role[i] == Reserved
    requires |desc'| == NUM && |ops'| == NUM && |info'| == NUM
    requires forall j :: 0 <= j < NUM && j != i ==> desc'[j] == desc[j] && ops'[j] == ops[j] && info'[j] == info[j]
    ensures ReqsOk(desc', ops', info', flight)
  {
    ReqsKept(desc, ops, info, desc', ops', info', free, role, flight);
  }

  // The request as formatted joins the ones in flight.
  lemma FormattedOk(desc: seq<Desc>, ops: seq<BlkReq>, info: seq<Info>, flight: map<nat, Req>, a: nat, r: Req)
    requires ReqsOk(desc, ops, info, flight) && AsSubmitted(desc, ops, a, r) && r.stage == Avail
    requires !info[a].finish && info[a].data == r.buf
    ensures ReqsOk(desc, ops, info, flight[a := r])
  {
  }

  lemma RingSize(ring: seq<nat>, consumer: nat, producer: nat, q: seq<nat>)
    requires RingHolds(ring, consumer, producer, q)
    ensures |ring| == NUM
  {
  }

  lemma QueueHead(q: seq<nat>, flight: map<nat, Req>, stage: Stage)
    requires QueueOf(q, flight, stage) && q != []
    ensures q[0] in flight && flight[q[0]].stage == stage
  {
  }

  // The chain of a request: three different descriptors, none of them free.
  lemma ChainFacts(desc: seq<Desc>, ops: seq<BlkReq>, info: seq<Info>, free: seq<bool>, role: seq<Role>,
                   flight: map<nat, Req>, h: nat)
    requires Partition(free, role, flight) && ReqsOk(desc, ops, info, flight) && h in flight
    ensures |desc| == NUM && |ops| == NUM && |info| == NUM && |free| == NUM && |role| == NUM
    ensures var r := flight[h];
            && h < NUM && r.d1 < NUM && r.d2 < NUM && h != r.d1 && h != r.d2 && r.d1 != r.d2
            && !free[h] && !free[r.d1] && !free[r.d2] && AsSubmitted(desc, ops, h, r)
  {
    assert AsSubmitted(desc, ops, h, flight[h]);
  }

  lemma RetireReqs(desc: seq<Desc>, ops: seq<BlkReq>, info: seq<Info>, info': seq<Info>, flight: map<nat, Req>, h: nat)
    requires ReqsOk(desc, ops, info, flight) && h in flight
    requires |info'| == NUM && forall j :: 0 <= j < NUM && j != h ==> info'[j] == info[j]
    ensures ReqsOk(desc, ops, info', flight - {h})
  {
    forall g | g in flight - {h} ensures AsSubmitted(desc, ops, g, flight[g]) && info'[g] == info[g] {
      assert AsSubmitted(desc, ops, g, flight[g]);
    }
  }

  lemma LaterTrans(f0: map<nat, Req>, f1: map<nat, Req>, f2: map<nat, Req>)
    requires DeviceMoved(f0, f1) && DeviceMoved(f1, f2)
    ensures DeviceMoved(f0, f2)
  {
    forall h | h in f0 ensures Later(f0[h], f2[h]) {
      assert Later(f0[h], f1[h]) && Later(f1[h], f2[h]);
    }
  }

  lemma LaterSame(f: map<nat, Req>)
    ensures DeviceMoved(f, f)
  {
  }

  lemma InfoTrans(i0: seq<Info>, i1: seq<Info>, i2: seq<Info>, f0: map<nat, Req>, f1: map<nat, Req>)
    requires InfoKept(i0, i1, f0) && InfoKept(i1, i2, f1) && DeviceMoved(f0, f1)
    ensures InfoKept(i0, i2, f0)
  {
    forall i | 0 <= i < |i0| && i in f0 && f0[i].stage == Done ensures f1[i].stage == Done {
      assert Later(f0[i], f1[i]);
    }
  }

  lemma StaleMoved(stale: seq<nat>, f: map<nat, Req>, f': map<nat, Req>)
    requires StaleOk(stale, f) && DeviceMoved(f, f')
    ensures StaleOk(stale, f')
  {
    forall i | 0 <= i < |stale| ensures stale[i] in f' && f'[stale[i]].stage == Done {
      assert Later(f[stale[i]], f'[stale[i]]);
    }
  }

  lemma RetireQueues(availQ: seq<nat>, usedQ: seq<nat>, flight: map<nat, Req>, h: nat)
    requires QueueOf(availQ, flight, Avail) && QueueOf(usedQ, flight, Used) && h in flight && flight[h].stage == Done
    ensures QueueOf(availQ, flight - {h}, Avail) && QueueOf(usedQ, flight - {h}, Used)
  {
  }

  lemma RetireLog(log: seq<nat>, flight: map<nat, Req>, nextId: nat, h: nat)
    requires LogOk(log, flight, nextId)
    ensures LogOk(log, flight - {h}, nextId)
    ensures h in flight && flight[h].stage == Done ==> flight[h].id in log
  {
  }

  lemma MovedOne(f: map<nat, Req>, h: nat, next: Stage)
    requires h in f && ((f[h].stage == Avail && next == Device) || (f[h].stage == Device && next == Used))
    ensures DeviceMoved(f, f[h := f[h].(stage := next)])
  {
  }

  lemma InfoSame(info: seq<Info>, f: map<nat, Req>)
    ensures InfoKept(info, info, f)
  {
  }

  lemma StaleJoined(stale: seq<nat>, f: map<nat, Req>, a: nat, r: Req)
    requires StaleOk(stale, f) && a !in f
    ensures StaleOk(stale, f[a := r])
  {
  }

  lemma DeviceJoined(holds: set<nat>, reporting: Option<nat>, usedRing: seq<nat>, usedIdx: nat, f: map<nat, Req>,
                     a: nat, r: Req)
    requires DeviceOk(holds, reporting, usedRing, usedIdx, f) && a !in f && r.stage == Avail
    ensures DeviceOk(holds, reporting, usedRing, usedIdx, f[a := r]) && reporting != Some(a)
  {
  }

  // The request being reported, and the device once the used index has moved over it.
  lemma DeviceReported(holds: set<nat>, reporting: Option<nat>, usedRing: seq<nat>, usedIdx: nat, f: map<nat, Req>)
    requires DeviceOk(holds, reporting, usedRing, usedIdx, f) && reporting.Some?
    ensures var h := reporting.value;
            && h in holds && h in f && f[h].stage == Device && |usedRing| == NUM && usedRing[usedIdx % NUM] == h
            && DeviceOk(holds - {h}, None, usedRing, (usedIdx + 1) % U16, f[h := f[h].(stage := Used)])
  {
  }

  // A request that the device does not hold may leave or be acknowledged.
  lemma DeviceLeft(holds: set<nat>, reporting: Option<nat>, usedRing: seq<nat>, usedIdx: nat, f: map<nat, Req>, h: nat)
    requires DeviceOk(holds, reporting, usedRing, usedIdx, f) && h in f && f[h].stage != Device
    ensures DeviceOk(holds, reporting, usedRing, usedIdx, f - {h})
    ensures DeviceOk(holds, reporting, usedRing, usedIdx, f[h := f[h].(stage := Done)])
  {
  }

  // The descriptors that the driver holds are heads of no request.
  lemma HeldIsNoHead(free: seq<bool>, role: seq<Role>, flight: map<nat, Req>, i: nat)
    requires Partition(free, role, flight) && i < NUM && role[i] == Reserved
    ensures i !in flight && !free[i]
  {
  }

  lemma FreeFlags(free: seq<bool>, role: seq<Role>, flight: map<nat, Req>)
    requires Partition(free, role, flight)
    ensures |free| == NUM && |role| == NUM && forall i :: 0 <= i < NUM ==> (free[i] <==> role[i] == Role.Free)
  {
  }

  lemma MovedJoined(f: map<nat, Req>, f': map<nat, Req>, a: nat, r: Req)
    requires DeviceMoved(f, f') && a !in f
    ensures DeviceMoved(f[a := r], f'[a := r])
  {
    var g, g' := f[a := r], f'[a := r];
    forall h | h in g ensures Later(g[h], g'[h]) {
      assert h != a ==> Later(f[h], f'[h]);
    }
  }

  // The device leaves the record of a head that is not in flight alone.
  lemma InfoHeld(info: seq<Info>, info': seq<Info>, flight: map<nat, Req>, a: nat)
    requires InfoKept(info, info', flight) && a !in flight && a < |info|
    ensures |info'| == |info| && info'[a] == info[a]
  {
  }

  lemma OneStale(h: nat, f: map<nat, Req>)
    requires h in f && f[h].stage == Done
    ensures StaleOk([h], f)
  {
  }

  lemma NoStale(f: map<nat, Req>)
    ensures StaleOk([], f)
  {
  }

  lemma NoneUsed(q: seq<nat>, f: map<nat, Req>)
    requires QueueOf(q, f, Used) && q == []
    ensures forall h :: h in f ==> f[h].stage != Used
  {
  }

  lemma MovedKeys(f: map<nat, Req>, f': map<nat, Req>)
    requires DeviceMoved(f, f')
    ensures f'.Keys == f.Keys
  {
  }

  lemma LaterOf(f: map<nat, Req>, f': map<nat, Req>, h: nat)
    requires DeviceMoved(f, f') && h in f
    ensures h in f' && Later(f[h], f'[h])
  {
  }

  // Three descriptors that were taken and sent leave none held.
  lemma SentAtRest(role0: seq<Role>, role: seq<Role>, a: nat, b: nat, c: nat)
    requires |role0| == NUM && a < NUM && b < NUM && c < NUM && forall i :: 0 <= i < NUM ==> role0[i] != Reserved
    requires role == role0[a := Reserved][b := Reserved][c := Reserved][a := In(a, 0)][b := In(a, 1)][c := In(a, 2)]
    ensures |role| == NUM && forall i :: 0 <= i < NUM ==> role[i] != Reserved
  {
  }

  // The descriptors idx were free and are held now; all others are as before.
  ghost predicate Took(free0: seq<bool>, role0: seq<Role>, free: seq<bool>, role: seq<Role>, idx: seq<nat>) {
    && |free0| == NUM && |role0| == NUM && |free| == NUM && |role| == NUM && NoDup(idx)
    && (forall k :: 0 <= k < |idx| ==> idx[k] < NUM && free0[idx[k]])
    && (forall j :: 0 <= j < NUM ==> (free[j] <==> free0[j] && j !in idx))
    && (forall j :: 0 <= j < NUM ==> role[j] == if j in idx then Reserved else role0[j])
  }

  lemma TookNone(free: seq<bool>, role: seq<Role>)
    requires |free| == NUM && |role| == NUM
    ensures Took(free, role, free, role, [])
  {
  }

  lemma TookNext(free0: seq<bool>, role0: seq<Role>, free: seq<bool>, role: seq<Role>, idx: seq<nat>, i: nat)
    requires Took(free0, role0, free, role, idx) && i < NUM && free[i]
    ensures Took(free0, role0, free[i := false], role[i := Reserved], idx + [i])
  {
    assert forall j :: j in idx + [i] <==> j in idx || j == i;
  }

  lemma TookThree(free0: seq<bool>, role0: seq<Role>, free: seq<bool>, role: seq<Role>, idx: seq<nat>)
    requires Took(free0, role0, free, role, idx) && |idx| == 3
    ensures |role0| == NUM && |free0| == NUM && NoDup(idx) && forall k :: 0 <= k < 3 ==> idx[k] < NUM && free0[idx[k]]
    ensures role == role0[idx[0] := Reserved][idx[1] := Reserved][idx[2] := Reserved]
  {
    assert idx == [idx[0], idx[1], idx[2]];
  }

  // How far a request may have come during the interrupt handler.
  predicate Ahead(r: Req, r': Req) {
    r' == r.(stage := r'.stage) && (Later(r, r') || r'.stage == Done)
  }

  ghost predicate AllAhead(f: map<nat, Req>, f': map<nat, Req>) {
    f'.Keys == f.Keys && forall h :: h in f ==> Ahead(f[h], f'[h])
  }

  ghost function Unfinished(f: map<nat, Req>): set<nat> {
    set h | h in f && f[h].stage != Done
  }

  // One round of the handler: h is done, and the device went on meanwhile.
  lemma RoundAhead(f0: map<nat, Req>, f: map<nat, Req>, f': map<nat, Req>, h: nat)
    requires AllAhead(f0, f) && h in f && f[h].stage == Used && DeviceMoved(f[h := f[h].(stage := Done)], f')
    ensures AllAhead(f0, f') && |Unfinished(f')| < |Unfinished(f)|
  {
    var fd := f[h := f[h].(stage := Done)];
    assert forall g :: g in fd ==> Later(fd[g], f'[g]);
    forall g | g in f0 ensures Ahead(f0[g], f'[g]) {
      assert Ahead(f0[g], f[g]) && Later(fd[g], f'[g]);
    }
    forall g | g in Unfinished(f') ensures g in Unfinished(f) {
      assert Later(fd[g], f'[g]);
    }
    assert Later(fd[h], f'[h]);
    assert h in Unfinished(f) && h !in Unfinished(f');
    Shrinks(Unfinished(f'), Unfinished(f), h);
  }

  lemma Shrinks(a: set<nat>, b: set<nat>, h: nat)
    requires a <= b && h in b && h !in a
    ensures |a| < |b|
  {
    assert a <= b - {h};
    SubsetSize(a, b - {h});
  }

  lemma SubsetSize(a: set<nat>, b: set<nat>)
    requires a <= b
    ensures |a| <= |b|
  {
    assert b == a + (b - a);
  }

  lemma DeviceTakes(holds: set<nat>, reporting: Option<nat>, usedRing: seq<nat>, usedIdx: nat, f: map<nat, Req>, h: nat)
    requires DeviceOk(holds, reporting, usedRing, usedIdx, f) && h in f && f[h].stage == Avail
    ensures DeviceOk(holds + {h}, reporting, usedRing, usedIdx, f[h := f[h].(stage := Device)])
  {
  }

  /** The requests in flight, the queues in the two rings, and what took effect, in order. */
  datatype Progress = Progress(flight: map<nat, Req>, availQ: seq<nat>, usedQ: seq<nat>, ran: seq<nat>)

  /** The roles of the descriptors, the entry acknowledged and not stepped over, the requests
      finished, and what was asked for, by identifier. */
  datatype Ledger = Ledger(role: seq<Role>, stale: seq<nat>, log: seq<nat>, nextId: nat, asked: seq<Op>)

  ghost predicate StateOk(desc: seq<Desc>, free: seq<bool>, ops: seq<BlkReq>, info: seq<Info>, availRing: seq<nat>,
                          availIdx: nat, usedRing: seq<nat>, usedIdx: nat, seenIdx: nat, takenIdx: nat,
                          holds: set<nat>, reporting: Option<nat>, world: World, role: seq<Role>,
                          flight: map<nat, Req>, availQ: seq<nat>, usedQ: seq<nat>, stale: seq<nat>, log: seq<nat>,
                          nextId: nat, asked: seq<Op>, ran: seq<nat>, first: World) {
    && Partition(free, role, flight)
    && ReqsOk(desc, ops, info, flight)
    && RingHolds(availRing, takenIdx, availIdx, availQ) && QueueOf(availQ, flight, Avail)
    && RingHolds(usedRing, seenIdx, usedIdx, stale + usedQ) && QueueOf(usedQ, flight, Used) && StaleOk(stale, flight)
    && LogOk(log, flight, nextId)
    && DeviceOk(holds, reporting, usedRing, usedIdx, flight)
    && EffectsOk(world, first, asked, ran, flight, info, reporting, log, nextId)
  }

  // ---- Disk and memory, step by step -----------------------------------------------------------------

  // The requests have the identifiers they had.
  lemma StaySettled(asked: seq<Op>, flight: map<nat, Req>, flight': map<nat, Req>, log: seq<nat>)
    requires Settled(asked, flight, log) && flight.Keys <= flight'.Keys
    requires forall h :: h in flight ==> flight'[h].id == flight[h].id
    ensures Settled(asked, flight', log)
  {
    forall id: nat | id < |asked| ensures id in log || InFlight(flight', id) {
      if id !in log {
        assert InFlight(flight, id);
        var h :| h in flight && flight[h].id == id;
        assert flight'[h].id == id;
      }
    }
  }

  lemma TakeEffects(world: World, first: World, asked: seq<Op>, ran: seq<nat>, flight: map<nat, Req>, info: seq<Info>,
                    reporting: Option<nat>, log: seq<nat>, nextId: nat, h: nat)
    requires EffectsOk(world, first, asked, ran, flight, info, reporting, log, nextId)
    requires h in flight && flight[h].stage == Avail
    ensures EffectsOk(world, first, asked, ran, flight[h := flight[h].(stage := Device)], info, reporting, log, nextId)
  {
    hide HistoryOk, Settled;
    StaySettled(asked, flight, flight[h := flight[h].(stage := Device)], log);
  }

  lemma BumpEffects(world: World, first: World, asked: seq<Op>, ran: seq<nat>, flight: map<nat, Req>, info: seq<Info>,
                    log: seq<nat>, nextId: nat, h: nat)
    requires EffectsOk(world, first, asked, ran, flight, info, Some(h), log, nextId)
    requires h in flight && flight[h].stage == Device
    ensures EffectsOk(world, first, asked, ran, flight[h := flight[h].(stage := Used)], info, None, log, nextId)
  {
    hide HistoryOk, Settled;
    StaySettled(asked, flight, flight[h := flight[h].(stage := Used)], log);
  }

  // A request that was reported as served has run.
  lemma AckEffects(world: World, first: World, asked: seq<Op>, ran: seq<nat>, flight: map<nat, Req>, info: seq<Info>,
                   reporting: Option<nat>, log: seq<nat>, nextId: nat, h: nat)
    requires EffectsOk(world, first, asked, ran, flight, info, reporting, log, nextId)
    requires h in flight && flight[h].stage == Used && h < |info| && info[h].status == 0
    ensures EffectsOk(world, first, asked, ran, flight[h := flight[h].(stage := Done)],
                      info[h := info[h].(finish := true)], reporting, log + [flight[h].id], nextId)
  {
    hide Settled, Replay;
    StaySettled(asked, flight, flight[h := flight[h].(stage := Done)], log);
    MoreLogged(asked, flight[h := flight[h].(stage := Done)], log, [flight[h].id]);
    assert RanOk(asked, ran, flight[h], info[h].status, reporting == Some(h));
  }

  lemma MoreLogged(asked: seq<Op>, flight: map<nat, Req>, log: seq<nat>, more: seq<nat>)
    requires Settled(asked, flight, log)
    ensures Settled(asked, flight, log + more)
  {
    forall id: nat | id < |asked| ensures id in log + more || InFlight(flight, id) {
    }
  }

  lemma PublishEffects(world: World, first: World, asked: seq<Op>, ran: seq<nat>, flight: map<nat, Req>,
                       info: seq<Info>, reporting: Option<nat>, log: seq<nat>, nextId: nat, a: nat, r: Req)
    requires EffectsOk(world, first, asked, ran, flight, info, reporting, log, nextId)
    requires a !in flight && a < |info| && r.id == nextId && r.stage == Avail && reporting != Some(a)
    ensures EffectsOk(world, first, asked + [OpOf(r)], ran, flight[a := r], info, reporting, log, nextId + 1)
  {
    hide Settled, Replay;
    ReplayMore(asked, [OpOf(r)], first, ran);
    PublishSettled(asked, flight, log, a, r);
    var asked', flight' := asked + [OpOf(r)], flight[a := r];
    forall h | h in flight' ensures h < |info| && RanOk(asked', ran, flight'[h], info[h].status, reporting == Some(h)) {
      if h != a { assert RanOk(asked, ran, flight[h], info[h].status, reporting == Some(h)); }
    }
  }

  lemma PublishSettled(asked: seq<Op>, flight: map<nat, Req>, log: seq<nat>, a: nat, r: Req)
    requires Settled(asked, flight, log) && a !in flight && r.id == |asked|
    ensures Settled(asked + [OpOf(r)], flight[a := r], log)
  {
    StaySettled(asked, flight, flight[a := r], log);
    assert flight[a := r][a].id == |asked|;
    assert InFlight(flight[a := r], |asked|);
  }

  lemma LeaveEffects(world: World, first: World, asked: seq<Op>, ran: seq<nat>, flight: map<nat, Req>, info: seq<Info>,
                     reporting: Option<nat>, log: seq<nat>, nextId: nat, h: nat)
    requires EffectsOk(world, first, asked, ran, flight, info, reporting, log, nextId)
    requires h in flight && flight[h].id in log
    ensures EffectsOk(world, first, asked, ran, flight - {h}, info, reporting, log, nextId)
  {
    hide HistoryOk;
    forall id: nat | id < |asked| ensures id in log || InFlight(flight - {h}, id) {
      if id !in log {
        assert InFlight(flight, id);
        var g :| g in flight && flight[g].id == id;
        assert (flight - {h})[g].id == id;
      }
    }
  }

  // The records of requests in flight stay.
  lemma InfoEffects(world: World, first: World, asked: seq<Op>, ran: seq<nat>, flight: map<nat, Req>, info: seq<Info>,
                    info': seq<Info>, reporting: Option<nat>, log: seq<nat>, nextId: nat)
    requires EffectsOk(world, first, asked, ran, flight, info, reporting, log, nextId) && |info'| == |info|
    requires forall h :: h in flight && h < |info| ==> info'[h] == info[h]
    ensures EffectsOk(world, first, asked, ran, flight, info', reporting, log, nextId)
  {
    hide HistoryOk, Settled;
  }

  // Serving the chain of a request does what was asked for, and stores its status.
  lemma ServesRequest(desc: seq<Desc>, ops: seq<BlkReq>, h: nat, r: Req, status: nat, w: World)
    requires |desc| == NUM && |ops| == NUM && AsSubmitted(desc, ops, h, r)
    ensures Serve(desc, ops, h, status, w).Some?
    ensures var a := Serve(desc, ops, h, status, w).value;
            && a.place == h && (a.status == 0 <==> status == 0 && r.sector in w.disk)
            && a.world == if a.status == 0 then Perform(w, OpOf(r)) else w
  {
    hide ChainFrom, Put, Load;
    DeviceSees(desc, ops, h, r);
  }

  lemma ReportEffects(world: World, first: World, asked: seq<Op>, ran: seq<nat>, flight: map<nat, Req>, info: seq<Info>,
                      log: seq<nat>, nextId: nat, h: nat, status: nat)
    requires EffectsOk(world, first, asked, ran, flight, info, None, log, nextId)
    requires h in flight && flight[h].stage == Device && h < |info|
    requires forall g :: g in flight && g != h ==> flight[g].id != flight[h].id
    requires status == 0 ==> flight[h].sector in world.disk
    ensures EffectsOk(if status == 0 then Perform(world, OpOf(flight[h])) else world, first, asked,
                      if status == 0 then ran + [flight[h].id] else ran,
                      flight, info[h := info[h].(status := status)], Some(h), log, nextId)
  {
    hide Settled, Replay, Perform;
    var r := flight[h];
    var ran' := if status == 0 then ran + [r.id] else ran;
    assert RanOk(asked, ran, r, info[h].status, false);
    ReplayOne(asked, first, ran, r.id);
    ReplayOk(asked, first, ran);
    assert forall x :: x in ran + [r.id] <==> x in ran || x == r.id;
    var info' := info[h := info[h].(status := status)];
    forall g | g in flight ensures g < |info'| && RanOk(asked, ran', flight[g], info'[g].status, Some(h) == Some(g)) {
      assert RanOk(asked, ran, flight[g], info[g].status, None == Some(g));
    }
  }

  // ---- What a finished request has done ---------------------------------------------------------------

  // From place n on, nothing else that ran wrote the sector or the buffer of the request.
  ghost predicate Undisturbed(asked: seq<Op>, ran: seq<nat>, n: nat, r: Req) {
    forall i :: n <= i < |ran| && ran[i] != r.id && ran[i] < |asked| ==>
      !WritesSector(asked[ran[i]], r.sector) && !WritesBytes(asked[ran[i]], r.buf, SECTOR)
  }

  lemma HasRun(world: World, first: World, asked: seq<Op>, ran: seq<nat>, flight: map<nat, Req>, info: seq<Info>,
               reporting: Option<nat>, log: seq<nat>, nextId: nat, h: nat, n: nat) returns (k: nat)
    requires EffectsOk(world, first, asked, ran, flight, info, reporting, log, nextId)
    requires h in flight && flight[h].stage == Done && n <= |ran| && flight[h].id !in ran[..n]
    ensures n <= k < |ran| && ran[k] == flight[h].id && ran[k] < |asked| && asked[ran[k]] == OpOf(flight[h])
    ensures forall i :: n <= i < |ran| && i != k ==> ran[i] != ran[k]
  {
    hide Settled, Replay;
    assert RanOk(asked, ran, flight[h], info[h].status, reporting == Some(h));
    k :| 0 <= k < |ran| && ran[k] == flight[h].id;
    assert forall i :: 0 <= i < n ==> ran[..n][i] == ran[i];
  }

  /** A finished read that had not run at place n: the buffer holds the sector as it was
      then, unless something else wrote the one or the other. */
  lemma ReadDone(world: World, first: World, asked: seq<Op>, ran: seq<nat>, flight: map<nat, Req>, info: seq<Info>,
                 reporting: Option<nat>, log: seq<nat>, nextId: nat, h: nat, n: nat)
    requires EffectsOk(world, first, asked, ran, flight, info, reporting, log, nextId)
    requires h in flight && flight[h].stage == Done && n <= |ran| && flight[h].id !in ran[..n]
    requires !flight[h].write && Undisturbed(asked, ran, n, flight[h])
    ensures var r, past := flight[h], Replay(asked, first, ran[..n]);
            r.sector in past.disk && Load(world.mem, r.buf, SECTOR) == past.disk[r.sector]
  {
    hide Settled, RansOk, Replay;
    var k := HasRun(world, first, asked, ran, flight, info, reporting, log, nextId, h, n);
    ReadDelivers(asked, first, ran, n, k);
  }

  /** A finished write that had not run at place n: the sector holds the buffer as it was then. */
  lemma WriteDone(world: World, first: World, asked: seq<Op>, ran: seq<nat>, flight: map<nat, Req>, info: seq<Info>,
                  reporting: Option<nat>, log: seq<nat>, nextId: nat, h: nat, n: nat)
    requires EffectsOk(world, first, asked, ran, flight, info, reporting, log, nextId)
    requires h in flight && flight[h].stage == Done && n <= |ran| && flight[h].id !in ran[..n]
    requires flight[h].write && Undisturbed(asked, ran, n, flight[h])
    ensures var r, past := flight[h], Replay(asked, first, ran[..n]);
            r.sector in world.disk && world.disk[r.sector] == Load(past.mem, r.buf, SECTOR)
  {
    hide Settled, RansOk, Replay;
    var k := HasRun(world, first, asked, ran, flight, info, reporting, log, nextId, h, n);
    WriteDelivers(asked, first, ran, n, k);
  }

  lemma SentAlone(f: map<nat, Req>, f': map<nat, Req>, h: nat, r: Req)
    requires f == map[] && DeviceMoved(f[h := r], f')
    ensures f'.Keys == {h} && f'[h].id == r.id
  {
    assert Later(f[h := r][h], f'[h]);
  }

  lemma AheadOf(f: map<nat, Req>, f': map<nat, Req>, h: nat)
    requires AllAhead(f, f') && h in f
    ensures f'.Keys == f.Keys && f'[h].id == f[h].id
  {
    assert Ahead(f[h], f'[h]);
  }

  // With nothing in flight, only what is asked for next can run next.
  lemma OnlyNext(w0: World, first: World, asked: seq<Op>, ran0: seq<nat>, info0: seq<Info>, reporting0: Option<nat>,
                 log0: seq<nat>, op: Op, w: World, ran: seq<nat>, flight: map<nat, Req>, info: seq<Info>,
                 reporting: Option<nat>, log: seq<nat>)
    requires EffectsOk(w0, first, asked, ran0, map[], info0, reporting0, log0, |asked|)
    requires EffectsOk(w, first, asked + [op], ran, flight, info, reporting, log, |asked| + 1) && ran0 <= ran
    ensures |asked| in ran ==> ran == ran0 + [|asked|] && w == Perform(w0, op)
    ensures |asked| in ran && op.Transfer? ==> op.sector in w0.disk
    ensures |asked| !in ran ==> w == w0
  {
    hide RansOk, Replay, Perform;
    forall id: nat | id < |asked| ensures id in ran0 {
      assert !InFlight(map[], id);
    }
    AtMostNext(ran0, ran, |asked|);
    ReplayMore(asked, [op], first, ran0);
    ReplayOne(asked + [op], first, ran0, |asked|);
    ReplayOk(asked, first, ran0);
    assert (asked + [op])[|asked|] == op;
  }

  lemma AtMostNext(ran0: seq<nat>, ran: seq<nat>, m: nat)
    requires NoDup(ran) && ran0 <= ran && forall i :: 0 <= i < |ran| ==> ran[i] <= m
    requires forall id: nat :: id < m ==> id in ran0
    ensures ran == (if m in ran && m !in ran0 then ran0 + [m] else ran0)
  {
    forall i | |ran0| <= i < |ran| ensures ran[i] == m {
      forall j | 0 <= j < |ran0| ensures ran0[j] != ran[i] {
        assert ran[j] == ran0[j];
      }
      assert ran[i] !in ran0;
    }
    var head, last := if |ran| > |ran0| then ran[|ran0|] else m, if |ran| > |ran0| then ran[|ran| - 1] else m;
    assert |ran| <= |ran0| + 1;
  }

  /** How a call of VirtioRw stands: its request is finished, still under way, not sent for
      lack of descriptors, or the handler panicked. */
  datatype RwResult = Finished | UnderWay | NotSent | Panicked

  lemma StoreEffects(world: World, first: World, asked: seq<Op>, ran: seq<nat>, flight: map<nat, Req>, info: seq<Info>,
                     reporting: Option<nat>, log: seq<nat>, nextId: nat, op: Op)
    requires EffectsOk(world, first, asked, ran, flight, info, reporting, log, nextId) && LogOk(log, flight, nextId)
    requires op.Store?
    ensures EffectsOk(Perform(world, op), first, asked + [op], ran + [nextId], flight, info, reporting, log + [nextId],
                      nextId + 1)
    ensures LogOk(log + [nextId], flight, nextId + 1)
  {
    hide Settled, Replay, Perform;
    var asked', ran' := asked + [op], ran + [nextId];
    ReplayMore(asked, [op], first, ran);
    ReplayOne(asked', first, ran, nextId);
    StoreSettled(asked, flight, log, op);
    assert forall x :: x in ran' <==> x in ran || x == nextId;
    assert forall x :: x in log + [nextId] <==> x in log || x == nextId;
    forall h | h in flight ensures h < |info| && RanOk(asked', ran', flight[h], info[h].status, reporting == Some(h)) {
      assert RanOk(asked, ran, flight[h], info[h].status, reporting == Some(h));
    }
  }

  lemma StoreSettled(asked: seq<Op>, flight: map<nat, Req>, log: seq<nat>, op: Op)
    requires Settled(asked, flight, log)
    ensures Settled(asked + [op], flight, log + [|asked|])
  {
  }

  class VirtioDisk {
    var desc: seq<Desc>
    var free: seq<bool>
    var ops: seq<BlkReq>
    var info: seq<Info>
    var availRing: seq<nat>
    var availIdx: nat
    var usedRing: seq<nat>
    var usedIdx: nat             // used->idx, which the device advances
    var seenIdx: nat             // used_idx, how far the driver has looked
    var takenIdx: nat            // how far the device has looked at the available ring
    var holds: set<nat>          // the heads the device has taken and not reported
    var reporting: Option<nat>   // the head whose used entry is stored but not published
    var world: World             // the disk, and the memory that buffers are in
    ghost var now: Progress      // the requests, as far as they have come
    ghost var own: Ledger        // what only the driver changes
    ghost const first: World     // disk and memory at the start

    /** What holds between any two stores of driver and device. */
    ghost predicate Valid()
      reads this
    {
      StateOk(desc, free, ops, info, availRing, availIdx, usedRing, usedIdx, seenIdx, takenIdx, holds, reporting, world,
              own.role, now.flight, now.availQ, now.usedQ, own.stale, own.log, own.nextId, own.asked, now.ran, first)
    }

    /** Between two critical sections the driver holds no descriptor. */
    ghost predicate AtRest()
      reads this
    {
      Valid() && own.stale == [] && forall i :: 0 <= i < |own.role| ==> own.role[i] != Reserved
    }

    constructor (world: World)
      requires WorldOk(world)
      ensures AtRest() && now.flight == map[] && own.log == [] && this.world == world
    {
      desc := seq(NUM, _ => Desc(0, 0, 0, 0));
      free := seq(NUM, _ => true);
      ops := seq(NUM, _ => BlkReq(0, 0, 0));
      info := seq(NUM, _ => Info(0, false, 0));
      availRing, usedRing := seq(NUM, _ => 0), seq(NUM, _ => 0);
      availIdx, usedIdx, seenIdx, takenIdx, holds, reporting := 0, 0, 0, 0, {}, None;
      this.world, first := world, world;
      now, own := Progress(map[], [], [], []), Ledger(seq(NUM, _ => Role.Free), [], [], 0, []);
    }

    // ---- What the invariant says, piece by piece -------------------------------------------------

    lemma Sizes()
      requires Valid()
      ensures |desc| == NUM && |ops| == NUM && |info| == NUM && |free| == NUM && |own.role| == NUM && |availRing| == NUM
      ensures |usedRing| == NUM
    {
    }

    lemma Held(i: nat)
      requires Valid() && i < NUM && |own.role| == NUM && |free| == NUM && own.role[i] == Reserved
      ensures i !in now.flight && !free[i]
    {
      HeldIsNoHead(free, own.role, now.flight, i);
    }

    lemma FreeFlagged()
      requires Valid()
      ensures |free| == NUM && |own.role| == NUM && forall i :: 0 <= i < NUM ==> (free[i] <==> own.role[i] == Role.Free)
    {
      FreeFlags(free, own.role, now.flight);
    }

    lemma FreeAtRest()
      requires AtRest()
      ensures Valid() && |own.role| == NUM && forall i :: 0 <= i < NUM ==> own.role[i] != Reserved
    {
      PartSizes(free, own.role, now.flight);
    }

    // The entry at used_idx is the oldest request reported.
    lemma NextReported()
      requires Valid() && own.stale == [] && seenIdx != usedIdx
      ensures now.usedQ != [] && |usedRing| == NUM && usedRing[seenIdx % NUM] == now.usedQ[0]
      ensures now.usedQ[0] in now.flight && now.flight[now.usedQ[0]].stage == Used && now.usedQ[0] < |info|
    {
      hide Partition, ReqsOk, RingHolds, QueueOf, LogOk, StaleOk, DeviceOk, EffectsOk;
      assert own.stale + now.usedQ == now.usedQ;
      EmptyRing(usedRing, seenIdx, usedIdx, now.usedQ);
      PopRing(usedRing, seenIdx, usedIdx, now.usedQ);
      RingSize(usedRing, seenIdx, usedIdx, now.usedQ);
      QueueHead(now.usedQ, now.flight, Used);
      HeadFacts(desc, ops, info, now.flight, now.usedQ[0]);
    }

    lemma AllReported()
      requires Valid() && own.stale == [] && seenIdx == usedIdx
      ensures now.usedQ == [] && forall h :: h in now.flight ==> now.flight[h].stage != Used
    {
      hide Partition, ReqsOk, RingHolds, LogOk, StaleOk, DeviceOk, EffectsOk;
      assert own.stale + now.usedQ == now.usedQ;
      EmptyRing(usedRing, seenIdx, usedIdx, now.usedQ);
      NoneUsed(now.usedQ, now.flight);
    }

    // ---- The device --------------------------------------------------------------------------

    // The device takes the next published request, and finds it as submitted.
    method DeviceTake() returns (h: int)
      requires Valid()
      modifies this`takenIdx, this`holds, this`now
      ensures Valid() && DeviceMoved(old(now.flight), now.flight)
      ensures h == -1 <==> old(takenIdx) == old(availIdx)
      ensures h == -1 ==> now.flight == old(now.flight)
      ensures now.usedQ == old(now.usedQ) && now.ran == old(now.ran)
      ensures h != -1 ==>
                && h >= 0 && h in old(now.flight) && old(now.flight)[h].stage == Avail
                && now.flight == old(now.flight)[h := old(now.flight)[h].(stage := Device)]
                && |desc| == NUM && |ops| == NUM && AsSubmitted(desc, ops, h, now.flight[h])
    {
      hide Partition, ReqsOk, RingHolds, QueueOf, LogOk, DeviceOk, StaleOk, DeviceMoved, AsSubmitted, EffectsOk;
      LaterSame(now.flight);
      EmptyRing(availRing, takenIdx, availIdx, now.availQ);
      if takenIdx == availIdx { return -1; }
      TakeKeeps();
      h := availRing[takenIdx % NUM];
      ghost var flight' := now.flight[h := now.flight[h].(stage := Device)];
      takenIdx := (takenIdx + 1) % U16;
      holds := holds + {h};
      now := now.(flight := flight', availQ := now.availQ[1..]);
    }

    // The invariant with the head of the available ring in the hands of the device.
    lemma TakeKeeps()
      requires Valid() && now.availQ != []
      ensures |availRing| == NUM && availRing[takenIdx % NUM] == now.availQ[0]
      ensures var h := now.availQ[0];
              && h in now.flight && now.flight[h].stage == Avail
              && var flight' := now.flight[h := now.flight[h].(stage := Device)];
                 && Partition(free, own.role, flight') && ReqsOk(desc, ops, info, flight')
                 && LogOk(own.log, flight', own.nextId)
                 && QueueOf(now.availQ[1..], flight', Avail) && QueueOf(now.usedQ, flight', Used)
                 && StaleOk(own.stale, flight')
                 && RingHolds(availRing, (takenIdx + 1) % U16, availIdx, now.availQ[1..])
                 && DeviceOk(holds + {h}, reporting, usedRing, usedIdx, flight') && DeviceMoved(now.flight, flight')
                 && EffectsOk(world, first, own.asked, now.ran, flight', info, reporting, own.log, own.nextId)
                 && |desc| == NUM && |ops| == NUM && AsSubmitted(desc, ops, h, flight'[h])
    {
      hide Partition, ReqsOk, RingHolds, QueueOf, LogOk, DeviceOk, StaleOk, DeviceMoved, AsSubmitted, EffectsOk;
      var h := now.availQ[0];
      PopRing(availRing, takenIdx, availIdx, now.availQ);
      RingSize(availRing, takenIdx, availIdx, now.availQ);
      QueueHead(now.availQ, now.flight, Avail);
      var flight' := now.flight[h := now.flight[h].(stage := Device)];
      Advance(h, Device);
      MovedOne(now.flight, h, Device);
      StaleMoved(own.stale, now.flight, flight');
      QueuePop(now.availQ, now.flight, Avail, Device);
      QueueOther(now.usedQ, now.flight, Used, h, Device);
      DeviceTakes(holds, reporting, usedRing, usedIdx, now.flight, h);
      TakeEffects(world, first, own.asked, now.ran, now.flight, info, reporting, own.log, own.nextId, h);
      assert info == info[h := InfoAt(info[h], Device)];
      ChainFacts(desc, ops, info, free, own.role, flight', h);
    }

    // The parts of the invariant that a request carries along when its stage changes.
    lemma Advance(h: nat, next: Stage)
      requires Valid() && h in now.flight && now.flight[h].stage != Done
      ensures h < |info|
      ensures var flight' := now.flight[h := now.flight[h].(stage := next)];
              && Partition(free, own.role, flight')
              && ReqsOk(desc, ops, info[h := InfoAt(info[h], next)], flight')
              && (next != Done ==> ReqsOk(desc, ops, info, flight'))
              && now.flight[h].id !in own.log
              && LogOk(if next == Done then own.log + [now.flight[h].id] else own.log, flight', own.nextId)
    {
      hide Partition, ReqsOk, RingHolds, QueueOf, LogOk, EffectsOk;
      PartMove(free, own.role, now.flight, h, next);
      ReqsMove(desc, ops, info, now.flight, h, next);
      LogMove(own.log, now.flight, own.nextId, h, next);
      assert info == info[h := info[h]];
    }

    /** The device serves a request that it holds, by what it finds in the chain, and stores
        the status and the used entry. What happens is what was asked for. */
    method DeviceReport(h: nat, status: nat)
      requires Valid() && h in holds && reporting == None
      modifies this`info, this`usedRing, this`reporting, this`world, this`now
      ensures Valid() && h in now.flight && now.flight[h].stage == Device && InfoKept(old(info), info, now.flight)
      ensures now == old(now).(ran := now.ran)
      ensures h < |info| && (info[h].status == 0 <==> status == 0 && now.flight[h].sector in old(world).disk)
      ensures info[h].status == 0 ==>
                world == Perform(old(world), OpOf(now.flight[h])) && now.ran == old(now.ran) + [now.flight[h].id]
      ensures info[h].status != 0 ==> world == old(world) && now.ran == old(now.ran)
    {
      hide Partition, ReqsOk, RingHolds, QueueOf, LogOk, StaleOk, DeviceOk, EffectsOk, InfoKept, AsSubmitted, Serve,
          Perform;
      ReportKeeps(h, status);
      var answer := Serve(desc, ops, h, status, world).value;
      info := info[answer.place := info[answer.place].(status := answer.status)];
      world := answer.world;
      if answer.status == 0 { now := now.(ran := now.ran + [now.flight[h].id]); }
      usedRing := usedRing[usedIdx % NUM := h];
      reporting := Some(h);
    }

    // The invariant with the request of h served and its used entry stored.
    lemma ReportKeeps(h: nat, status: nat)
      requires Valid() && h in holds && reporting == None
      ensures h in now.flight && now.flight[h].stage == Device && |info| == NUM && h < NUM && |usedRing| == NUM
      ensures |desc| == NUM && |ops| == NUM && Serve(desc, ops, h, status, world).Some?
      ensures var a := Serve(desc, ops, h, status, world).value;
              var info' := info[h := info[h].(status := a.status)];
              && a.place == h && (a.status == 0 <==> status == 0 && now.flight[h].sector in world.disk)
              && a.world == (if a.status == 0 then Perform(world, OpOf(now.flight[h])) else world)
              && ReqsOk(desc, ops, info', now.flight) && InfoKept(info, info', now.flight)
              && RingHolds(usedRing[usedIdx % NUM := h], seenIdx, usedIdx, own.stale + now.usedQ)
              && DeviceOk(holds, Some(h), usedRing[usedIdx % NUM := h], usedIdx, now.flight)
              && EffectsOk(a.world, first, own.asked, if a.status == 0 then now.ran + [now.flight[h].id] else now.ran,
                           now.flight, info', Some(h), own.log, own.nextId)
    {
      hide Partition, RingHolds, QueueOf, StaleOk, EffectsOk, AsSubmitted, Serve, Perform;
      assert h in now.flight && now.flight[h].stage == Device;
      ChainFacts(desc, ops, info, free, own.role, now.flight, h);
      ServesRequest(desc, ops, h, now.flight[h], status, world);
      ReportEffects(world, first, own.asked, now.ran, now.flight, info, own.log, own.nextId, h,
                    Serve(desc, ops, h, status, world).value.status);
      HeadFacts(desc, ops, info, now.flight, h);
      QueueShort(own.stale, now.usedQ, now.flight, Used, h, free, own.role);
      SpareSlot(usedRing, seenIdx, usedIdx, own.stale + now.usedQ, h);
      RingSize(usedRing, seenIdx, usedIdx, own.stale + now.usedQ);
    }

    // The device moves the used index over the entry it stored.
    method DeviceBump()
      requires Valid() && reporting.Some?
      modifies this`usedIdx, this`holds, this`reporting, this`now
      ensures Valid() && DeviceMoved(old(now.flight), now.flight) && old(reporting).value in old(now.flight)
      ensures var h := old(reporting).value;
              now.flight == old(now.flight)[h := old(now.flight)[h].(stage := Used)]
      ensures now.usedQ == old(now.usedQ) + [old(reporting).value] && now.ran == old(now.ran)
    {
      hide Partition, ReqsOk, RingHolds, QueueOf, LogOk, StaleOk, DeviceMoved, DeviceOk, EffectsOk;
      ghost var h := reporting.value;
      BumpKeeps(h);
      ghost var flight' := now.flight[h := now.flight[h].(stage := Used)];
      usedIdx := (usedIdx + 1) % U16;
      holds := holds - {reporting.value};
      reporting := None;
      now := now.(flight := flight', usedQ := now.usedQ + [h]);
    }

    // The invariant with the used index moved over the entry of h.
    lemma BumpKeeps(h: nat)
      requires Valid() && reporting == Some(h)
      ensures h in now.flight
      ensures var flight' := now.flight[h := now.flight[h].(stage := Used)];
              && Partition(free, own.role, flight') && ReqsOk(desc, ops, info, flight')
              && LogOk(own.log, flight', own.nextId)
              && QueueOf(now.availQ, flight', Avail) && QueueOf(now.usedQ + [h], flight', Used)
              && StaleOk(own.stale, flight')
              && RingHolds(usedRing, seenIdx, (usedIdx + 1) % U16, own.stale + (now.usedQ + [h]))
              && DeviceOk(holds - {h}, None, usedRing, (usedIdx + 1) % U16, flight') && DeviceMoved(now.flight, flight')
              && EffectsOk(world, first, own.asked, now.ran, flight', info, None, own.log, own.nextId)
    {
      hide Partition, ReqsOk, RingHolds, QueueOf, LogOk, StaleOk, DeviceMoved, DeviceOk, EffectsOk;
      DeviceReported(holds, reporting, usedRing, usedIdx, now.flight);
      ghost var flight' := now.flight[h := now.flight[h].(stage := Used)];
      HeadFacts(desc, ops, info, now.flight, h);
      Advance(h, Used);
      MovedOne(now.flight, h, Used);
      BumpEffects(world, first, own.asked, now.ran, now.flight, info, own.log, own.nextId, h);
      StaleMoved(own.stale, now.flight, flight');
      QueueShort(own.stale, now.usedQ, now.flight, Used, h, free, own.role);
      BumpRing(usedRing, seenIdx, usedIdx, own.stale + now.usedQ, h);
      assert own.stale + now.usedQ + [h] == own.stale + (now.usedQ + [h]);
      QueuePush(now.usedQ, now.flight, Used, h);
      QueueOther(now.availQ, now.flight, Avail, h, Used);
    }

    /** Whatever the device does between two stores of the driver: any number of steps, in
        any order, with any status. */
    method Interfere()
      requires Valid()
      modifies this`takenIdx, this`holds, this`reporting, this`info, this`usedRing, this`usedIdx, this`world,
               this`now
      ensures Valid() && DeviceMoved(old(now.flight), now.flight) && InfoKept(old(info), info, old(now.flight))
      ensures old(now.usedQ) <= now.usedQ && old(now.ran) <= now.ran
    {
      hide Valid;
      hide Partition, ReqsOk, RingHolds, QueueOf, LogOk, StaleOk, DeviceOk, DeviceMoved, InfoKept, EffectsOk;
      LaterSame(now.flight);
      InfoSame(info, now.flight);
      var steps: nat := *;
      while steps > 0
        invariant Valid() && DeviceMoved(old(now.flight), now.flight) && InfoKept(old(info), info, old(now.flight))
        invariant old(now.usedQ) <= now.usedQ && old(now.ran) <= now.ran
      {
        ghost var flight1, info1 := now.flight, info;
        if * {
          var h := DeviceTake();
          LaterTrans(old(now.flight), flight1, now.flight);
        } else if reporting.Some? {
          DeviceBump();
          LaterTrans(old(now.flight), flight1, now.flight);
        } else {
          var h: nat, status: nat := *, *;
          if h in holds {
            DeviceReport(h, status);
            InfoTrans(old(info), info1, info, old(now.flight), now.flight);
          }
        }
        steps := steps - 1;
      }
    }

    /** A store of the kernel to its memory, also while requests are in flight. */
    method KernelStore(addr: nat, data: seq<Byte>)
      requires Valid()
      modifies this`world, this`now, this`own
      ensures Valid() && now == old(now).(ran := old(now.ran) + [old(own.nextId)])
      ensures own.role == old(own.role) && own.stale == old(own.stale) && own.nextId == old(own.nextId) + 1
      ensures own.asked == old(own.asked) + [Store(addr, data)]
      ensures world == old(world).(mem := Put(old(world).mem, addr, data))
    {
      hide Partition, ReqsOk, RingHolds, QueueOf, LogOk, StaleOk, DeviceOk, EffectsOk, Put;
      StoreEffects(world, first, own.asked, now.ran, now.flight, info, reporting, own.log, own.nextId,
                   Store(addr, data));
      world := world.(mem := Put(world.mem, addr, data));
      now := now.(ran := now.ran + [own.nextId]);
      own := own.(log := own.log + [own.nextId], nextId := own.nextId + 1, asked := own.asked + [Store(addr, data)]);
    }

    // ---- Stores of the driver, each followed by whatever the device does -----------------------

    // virtioDisk.free[i] = 0
    method Reserve(i: nat)
      requires Valid() && i < NUM && |free| == NUM && free[i] && |own.role| == NUM
      modifies this`free, this`takenIdx, this`holds, this`reporting, this`info, this`usedRing, this`usedIdx,
               this`world, this`now, this`own
      ensures Valid() && free == old(free)[i := false] && own == old(own).(role := old(own.role)[i := Reserved])
      ensures DeviceMoved(old(now.flight), now.flight) && InfoKept(old(info), info, old(now.flight))
      ensures old(now.usedQ) <= now.usedQ
      ensures old(now.ran) <= now.ran
    {
      hide Partition, ReqsOk, RingHolds, QueueOf, LogOk, StaleOk, DeviceOk, DeviceMoved, InfoKept, EffectsOk;
      ReservePart(free, own.role, now.flight, i);
      free := free[i := false];
      own := own.(role := own.role[i := Reserved]);
      Interfere();
    }

    // A store to a descriptor that the driver holds.
    method PutDesc(i: nat, d: Desc)
      requires Valid() && i < NUM && |desc| == NUM && |own.role| == NUM && own.role[i] == Reserved
      modifies this`desc, this`takenIdx, this`holds, this`reporting, this`info, this`usedRing, this`usedIdx,
               this`world, this`now
      ensures Valid() && desc == old(desc)[i := d]
      ensures DeviceMoved(old(now.flight), now.flight) && InfoKept(old(info), info, old(now.flight))
      ensures old(now.usedQ) <= now.usedQ
      ensures old(now.ran) <= now.ran
    {
      hide Partition, ReqsOk, RingHolds, QueueOf, LogOk, StaleOk, DeviceOk, DeviceMoved, InfoKept, EffectsOk;
      ReqSizes(desc, ops, info, now.flight);
      HeldWrites(desc, desc[i := d], ops, ops, info, info, free, own.role, now.flight, i);
      desc := desc[i := d];
      Interfere();
    }

    method PutOps(i: nat, b: BlkReq)
      requires Valid() && i < NUM && |ops| == NUM && |own.role| == NUM && own.role[i] == Reserved
      modifies this`ops, this`takenIdx, this`holds, this`reporting, this`info, this`usedRing, this`usedIdx,
               this`world, this`now
      ensures Valid() && ops == old(ops)[i := b]
      ensures DeviceMoved(old(now.flight), now.flight) && InfoKept(old(info), info, old(now.flight))
      ensures old(now.usedQ) <= now.usedQ
      ensures old(now.ran) <= now.ran
    {
      hide Partition, ReqsOk, RingHolds, QueueOf, LogOk, StaleOk, DeviceOk, DeviceMoved, InfoKept, EffectsOk;
      ReqSizes(desc, ops, info, now.flight);
      HeldWrites(desc, desc, ops, ops[i := b], info, info, free, own.role, now.flight, i);
      ops := ops[i := b];
      Interfere();
    }

    method PutInfo(i: nat, x: Info)
      requires Valid() && i < NUM && |info| == NUM && |own.role| == NUM && own.role[i] == Reserved
      modifies this`takenIdx, this`holds, this`reporting, this`info, this`usedRing, this`usedIdx, this`world,
               this`now
      ensures Valid() && |info| == NUM && info[i] == x
      ensures DeviceMoved(old(now.flight), now.flight) && old(now.usedQ) <= now.usedQ
      ensures old(now.ran) <= now.ran
    {
      hide ReqsOk, RingHolds, QueueOf, LogOk, StaleOk, DeviceOk, DeviceMoved, EffectsOk;
      ReqSizes(desc, ops, info, now.flight);
      HeldWrites(desc, desc, ops, ops, info, info[i := x], free, own.role, now.flight, i);
      InfoEffects(world, first, own.asked, now.ran, now.flight, info, info[i := x], reporting, own.log, own.nextId);
      info := info[i := x];
      Interfere();
    }

    // virtioDisk.avail->ring[virtioDisk.avail->idx % NUM] = a
    method PutRing(a: nat)
      requires Valid() && a < NUM && |own.role| == NUM && own.role[a] == Reserved
      modifies this`availRing, this`takenIdx, this`holds, this`reporting, this`info, this`usedRing, this`usedIdx,
               this`world, this`now
      ensures Valid() && |availRing| == NUM && availRing[availIdx % NUM] == a
      ensures DeviceMoved(old(now.flight), now.flight) && InfoKept(old(info), info, old(now.flight))
      ensures old(now.usedQ) <= now.usedQ
      ensures old(now.ran) <= now.ran
    {
      hide ReqsOk, RingHolds, QueueOf, LogOk, StaleOk, DeviceOk, DeviceMoved, InfoKept, EffectsOk;
      assert a !in now.flight;
      RoomToPublish(a);
      SpareSlot(availRing, takenIdx, availIdx, now.availQ, a);
      RingSize(availRing, takenIdx, availIdx, now.availQ);
      availRing := availRing[availIdx % NUM := a];
      Interfere();
    }

    // The available ring has room for a head that is not in flight.
    lemma RoomToPublish(a: nat)
      requires Valid() && a < NUM && a !in now.flight
      ensures |now.availQ| < NUM
    {
      hide ReqsOk, RingHolds, LogOk, DeviceOk, Partition, QueueOf, EffectsOk;
      assert StaleOk([], now.flight);
      QueueShort([], now.availQ, now.flight, Avail, a, free, own.role);
      assert [] + now.availQ == now.availQ;
    }

    /** virtioDisk.avail->idx += 1: from this store on the device may take the request, so
        all of it must be in place. */
    method Publish(a: nat, ghost r: Req)
      requires Valid() && |desc| == NUM && |ops| == NUM && |info| == NUM && |own.role| == NUM && |availRing| == NUM
      requires AsSubmitted(desc, ops, a, r) && a != r.d1 && a != r.d2 && r.d1 != r.d2
      requires a < NUM && r.d1 < NUM && r.d2 < NUM
      requires own.role[a] == Reserved && own.role[r.d1] == Reserved && own.role[r.d2] == Reserved
      requires !info[a].finish && info[a].data == r.buf && r.stage == Avail && r.id == own.nextId
      requires availRing[availIdx % NUM] == a
      modifies this`availIdx, this`takenIdx, this`holds, this`reporting, this`info, this`usedRing, this`usedIdx,
               this`world, this`now, this`own
      ensures Valid() && own == old(own).(role := old(own.role)[a := In(a, 0)][r.d1 := In(a, 1)][r.d2 := In(a, 2)],
                                          nextId := old(own.nextId) + 1, asked := old(own.asked) + [OpOf(r)])
      ensures a !in old(now.flight) && DeviceMoved(old(now.flight)[a := r], now.flight)
      ensures old(now.ran) <= now.ran
    {
      hide Valid, AsSubmitted, DeviceMoved, InfoKept;
      BumpIndex(a, r);
      Interfere();
    }

    // The store alone.
    method BumpIndex(a: nat, ghost r: Req)
      requires Valid() && |desc| == NUM && |ops| == NUM && |info| == NUM && |own.role| == NUM && |availRing| == NUM
      requires AsSubmitted(desc, ops, a, r) && a != r.d1 && a != r.d2 && r.d1 != r.d2
      requires a < NUM && r.d1 < NUM && r.d2 < NUM
      requires own.role[a] == Reserved && own.role[r.d1] == Reserved && own.role[r.d2] == Reserved
      requires !info[a].finish && info[a].data == r.buf && r.stage == Avail && r.id == own.nextId
      requires availRing[availIdx % NUM] == a
      modifies this`availIdx, this`now, this`own
      ensures Valid() && own == old(own).(role := old(own.role)[a := In(a, 0)][r.d1 := In(a, 1)][r.d2 := In(a, 2)],
                                          nextId := old(own.nextId) + 1, asked := old(own.asked) + [OpOf(r)])
      ensures a !in old(now.flight) && now.flight == old(now.flight)[a := r] && now.ran == old(now.ran)
    {
      hide Partition, ReqsOk, RingHolds, QueueOf, LogOk, StaleOk, DeviceOk, AsSubmitted, EffectsOk;
      PublishKeeps(a, r);
      availIdx := (availIdx + 1) % U16;
      own := own.(role := own.role[a := In(a, 0)][r.d1 := In(a, 1)][r.d2 := In(a, 2)], nextId := own.nextId + 1,
                  asked := own.asked + [OpOf(r)]);
      now := now.(flight := now.flight[a := r], availQ := now.availQ + [a]);
    }

    // The invariant with the index moved over the entry of a request that is in place.
    lemma PublishKeeps(a: nat, r: Req)
      requires Valid() && |desc| == NUM && |ops| == NUM && |info| == NUM && |own.role| == NUM && |availRing| == NUM
      requires AsSubmitted(desc, ops, a, r) && a != r.d1 && a != r.d2 && r.d1 != r.d2
      requires a < NUM && r.d1 < NUM && r.d2 < NUM
      requires own.role[a] == Reserved && own.role[r.d1] == Reserved && own.role[r.d2] == Reserved
      requires !info[a].finish && info[a].data == r.buf && r.stage == Avail && r.id == own.nextId
      requires availRing[availIdx % NUM] == a
      ensures a !in now.flight
      ensures var flight' := now.flight[a := r];
              && Partition(free, own.role[a := In(a, 0)][r.d1 := In(a, 1)][r.d2 := In(a, 2)], flight')
              && ReqsOk(desc, ops, info, flight') && LogOk(own.log, flight', own.nextId + 1)
              && QueueOf(now.availQ + [a], flight', Avail) && QueueOf(now.usedQ, flight', Used)
              && StaleOk(own.stale, flight')
              && RingHolds(availRing, takenIdx, (availIdx + 1) % U16, now.availQ + [a])
              && DeviceOk(holds, reporting, usedRing, usedIdx, flight')
              && EffectsOk(world, first, own.asked + [OpOf(r)], now.ran, flight', info, reporting, own.log,
                           own.nextId + 1)
    {
      hide Partition, ReqsOk, RingHolds, QueueOf, LogOk, StaleOk, DeviceOk, AsSubmitted, EffectsOk;
      SubmitParts(free, own.role, now.flight, a, r);
      RoomToPublish(a);
      BumpRing(availRing, takenIdx, availIdx, now.availQ, a);
      FormattedOk(desc, ops, info, now.flight, a, r);
      SubmitQueues(now.availQ, now.usedQ, now.flight, a, r);
      SubmitLog(own.log, now.flight, own.nextId, a, r);
      StaleJoined(own.stale, now.flight, a, r);
      DeviceJoined(holds, reporting, usedRing, usedIdx, now.flight, a, r);
      PublishEffects(world, first, own.asked, now.ran, now.flight, info, reporting, own.log, own.nextId, a, r);
    }

    // ---- Critical sections of the driver ---------------------------------------------------------

    method AllocDesc() returns (i: int)
      requires Valid() && |free| == NUM && |own.role| == NUM
      modifies this`free, this`takenIdx, this`holds, this`reporting, this`info, this`usedRing, this`usedIdx,
               this`world, this`now, this`own
      ensures Valid() && DeviceMoved(old(now.flight), now.flight) && InfoKept(old(info), info, old(now.flight))
      ensures old(now.usedQ) <= now.usedQ && old(now.ran) <= now.ran
      ensures i == -1 ==> free == old(free) && own == old(own) && FreeIdx(free) == {}
      ensures i != -1 ==>
                && 0 <= i < NUM && old(free)[i] && free == old(free)[i := false]
                && own == old(own).(role := old(own.role)[i := Reserved])
                && FreeIdx(free) == FreeIdx(old(free)) - {i}
    {
      hide Valid;
      hide Partition, ReqsOk, RingHolds, QueueOf, LogOk, StaleOk, DeviceOk, DeviceMoved, InfoKept, EffectsOk;
      LaterSame(now.flight);
      InfoSame(info, now.flight);
      i := 0;
      while i < NUM
        invariant 0 <= i <= NUM && Valid() && free == old(free) && own == old(own) && now == old(now)
        invariant info == old(info) && forall j :: 0 <= j < i ==> !free[j]
      {
        if free[i] {
          Reserve(i);
          return;
        }
        i := i + 1;
      }
      return -1;
    }

    // false stands for a panic of free_desc.
    method FreeDesc(i: nat) returns (ok: bool)
      requires Valid() && |free| == NUM && |own.role| == NUM && |desc| == NUM
      requires (i < NUM && !free[i] ==> own.role[i] == Reserved)
      modifies this`free, this`desc, this`takenIdx, this`holds, this`reporting, this`info, this`usedRing,
               this`usedIdx, this`world, this`now, this`own
      ensures Valid() && DeviceMoved(old(now.flight), now.flight) && (ok <==> i < NUM && !old(free)[i])
      ensures ok ==> free == old(free)[i := true] && own == old(own).(role := old(own.role)[i := Role.Free])
      ensures ok ==> desc == old(desc)[i := Desc(0, 0, 0, 0)]
      ensures !ok ==> free == old(free) && own == old(own) && desc == old(desc)
      ensures old(now.ran) <= now.ran
    {
      hide Valid;
      hide Partition, ReqsOk, RingHolds, QueueOf, LogOk, StaleOk, DeviceOk, DeviceMoved, InfoKept, EffectsOk;
      LaterSame(now.flight);
      if i >= NUM { return false; }
      if free[i] { return false; }
      FillDesc(i, Desc(0, 0, 0, 0));
      ghost var f1 := now.flight;
      Release(i);
      LaterTrans(old(now.flight), f1, now.flight);
      return true;
    }

    // virtioDisk.free[i] = true
    method Release(i: nat)
      requires Valid() && |free| == NUM && |own.role| == NUM && i < NUM && !free[i] && own.role[i] == Reserved
      modifies this`free, this`takenIdx, this`holds, this`reporting, this`info, this`usedRing, this`usedIdx,
               this`world, this`now, this`own
      ensures Valid() && DeviceMoved(old(now.flight), now.flight)
      ensures free == old(free)[i := true] && own == old(own).(role := old(own.role)[i := Role.Free])
      ensures old(now.ran) <= now.ran
    {
      hide Partition, ReqsOk, RingHolds, QueueOf, LogOk, StaleOk, DeviceOk, DeviceMoved, InfoKept, EffectsOk;
      ReleasePart(free, own.role, now.flight, i);
      free := free[i := true];
      own := own.(role := own.role[i := Role.Free]);
      Interfere();
    }

    // The four stores to the fields of a descriptor.
    method FillDesc(i: nat, d: Desc)
      requires Valid() && i < NUM && |desc| == NUM && |own.role| == NUM && own.role[i] == Reserved
      modifies this`desc, this`takenIdx, this`holds, this`reporting, this`info, this`usedRing, this`usedIdx,
               this`world, this`now
      ensures Valid() && desc == old(desc)[i := d]
      ensures DeviceMoved(old(now.flight), now.flight) && InfoKept(old(info), info, old(now.flight))
      ensures old(now.usedQ) <= now.usedQ
      ensures old(now.ran) <= now.ran
    {
      hide Valid;
      hide Partition, ReqsOk, RingHolds, QueueOf, LogOk, StaleOk, DeviceOk, DeviceMoved, InfoKept, EffectsOk;
      PutDesc(i, desc[i].(addr := d.addr));
      ghost var f1, i1 := now.flight, info;
      PutDesc(i, desc[i].(len := d.len));
      LaterTrans(old(now.flight), f1, now.flight);
      InfoTrans(old(info), i1, info, old(now.flight), f1);
      ghost var f2, i2 := now.flight, info;
      PutDesc(i, desc[i].(flags := d.flags));
      LaterTrans(old(now.flight), f2, now.flight);
      InfoTrans(old(info), i2, info, old(now.flight), f2);
      ghost var f3, i3 := now.flight, info;
      PutDesc(i, desc[i].(next := d.next));
      LaterTrans(old(now.flight), f3, now.flight);
      InfoTrans(old(info), i3, info, old(now.flight), f3);
    }

    // Three descriptors, or none: a failed attempt restores the free set.
    method Alloc3Desc() returns (idx: seq<nat>)
      requires Valid() && |free| == NUM && |own.role| == NUM && |desc| == NUM
      modifies this`free, this`desc, this`takenIdx, this`holds, this`reporting, this`info, this`usedRing,
               this`usedIdx, this`world, this`now, this`own
      ensures Valid() && DeviceMoved(old(now.flight), now.flight) && (|idx| == 3 || idx == [])
      ensures idx == [] ==> free == old(free) && own == old(own) && |FreeIdx(free)| < 3
      ensures idx == [] ==> |desc| == NUM && forall j :: 0 <= j < NUM && !free[j] ==> desc[j] == old(desc)[j]
      ensures idx != [] ==>
                && NoDup(idx) && desc == old(desc)
                && (forall k :: 0 <= k < 3 ==> idx[k] < NUM && old(free)[idx[k]])
                && own == old(own).(role := old(own.role)[idx[0] := Reserved][idx[1] := Reserved][idx[2] := Reserved])
      ensures old(now.ran) <= now.ran
    {
      hide Valid, Took;
      hide ReqsOk, RingHolds, QueueOf, LogOk, StaleOk, DeviceOk, DeviceMoved, InfoKept, Partition, EffectsOk;
      LaterSame(now.flight);
      FreeFlagged();
      TookNone(free, own.role);
      idx := [];
      while |idx| < 3
        invariant Valid() && DeviceMoved(old(now.flight), now.flight) && old(now.ran) <= now.ran
        invariant own == old(own).(role := own.role)
        invariant |idx| <= 3 && desc == old(desc) && Took(old(free), old(own.role), free, own.role, idx)
        invariant |FreeIdx(free)| + |idx| == |FreeIdx(old(free))|
        decreases 3 - |idx|
      {
        ghost var f, free1, role1 := now.flight, free, own.role;
        Sizes();
        var i := AllocDesc();
        LaterTrans(old(now.flight), f, now.flight);
        if i < 0 {
          assert |FreeIdx(old(free))| < 3;
          ghost var f2 := now.flight;
          GiveBack(idx, old(free), old(own.role));
          LaterTrans(old(now.flight), f2, now.flight);
          idx := [];
          return;
        }
        assert i in FreeIdx(free1);
        TookNext(old(free), old(own.role), free1, role1, idx, i);
        idx := idx + [i];
      }
      TookThree(old(free), old(own.role), free, own.role, idx);
    }

    // The undo loop of alloc3_desc.
    method GiveBack(idx: seq<nat>, ghost free0: seq<bool>, ghost role0: seq<Role>)
      requires Valid() && |desc| == NUM && Took(free0, role0, free, own.role, idx)
      requires forall i :: 0 <= i < NUM ==> (free0[i] <==> role0[i] == Role.Free)
      modifies this`free, this`desc, this`takenIdx, this`holds, this`reporting, this`info, this`usedRing,
               this`usedIdx, this`world, this`now, this`own
      ensures Valid() && DeviceMoved(old(now.flight), now.flight) && free == free0
      ensures own == old(own).(role := role0)
      ensures |desc| == NUM && forall j :: 0 <= j < NUM && !free0[j] ==> desc[j] == old(desc)[j]
      ensures old(now.ran) <= now.ran
    {
      hide Valid;
      hide ReqsOk, RingHolds, QueueOf, LogOk, StaleOk, DeviceOk, DeviceMoved, InfoKept, Partition, EffectsOk;
      LaterSame(now.flight);
      var j := 0;
      while j < |idx|
        invariant Valid() && DeviceMoved(old(now.flight), now.flight) && old(now.ran) <= now.ran
        invariant own == old(own).(role := own.role)
        invariant 0 <= j <= |idx| && |free| == NUM && |own.role| == NUM && |desc| == NUM
        invariant forall k :: 0 <= k < NUM ==> (free[k] <==> free0[k] && k !in idx[j..])
        invariant forall k :: 0 <= k < NUM ==> own.role[k] == if k in idx[j..] then Reserved else role0[k]
        invariant forall k :: 0 <= k < NUM && !free0[k] ==> desc[k] == old(desc)[k]
      {
        ghost var f := now.flight;
        assert idx[j..] == [idx[j]] + idx[j + 1..];
        var ok := FreeDesc(idx[j]);
        LaterTrans(old(now.flight), f, now.flight);
        assert ok;
        j := j + 1;
      }
      assert own.role == role0;
    }

    // The stores to the header of the request and to the first descriptor.
    method FormatHeader(a: nat, b: nat, sector: nat, write: bool)
      requires Valid() && a < NUM && |desc| == NUM && |ops| == NUM && |own.role| == NUM && own.role[a] == Reserved
      modifies this`desc, this`ops, this`takenIdx, this`holds, this`reporting, this`info, this`usedRing,
               this`usedIdx, this`world, this`now
      ensures Valid() && DeviceMoved(old(now.flight), now.flight)
      ensures desc == old(desc)[a := Desc(OpsAddr(a), 16, F_NEXT, b)]
      ensures ops == old(ops)[a := BlkReq(if write then T_OUT else T_IN, 0, sector)]
      ensures old(now.ran) <= now.ran
    {
      hide Valid;
      hide Partition, ReqsOk, RingHolds, QueueOf, LogOk, StaleOk, DeviceOk, DeviceMoved, InfoKept, EffectsOk;
      PutOps(a, ops[a].(kind := if write then T_OUT else T_IN));
      ghost var f1 := now.flight;
      PutOps(a, ops[a].(reserved := 0));
      LaterTrans(old(now.flight), f1, now.flight);
      ghost var f2 := now.flight;
      PutOps(a, ops[a].(sector := sector));
      LaterTrans(old(now.flight), f2, now.flight);
      ghost var f3 := now.flight;
      FillDesc(a, Desc(OpsAddr(a), 16, F_NEXT, b));
      LaterTrans(old(now.flight), f3, now.flight);
    }

    // The stores to the descriptor of the buffer: its flags are written twice.
    method FormatData(b: nat, c: nat, buf: nat, write: bool)
      requires Valid() && b < NUM && |desc| == NUM && |own.role| == NUM && own.role[b] == Reserved
      modifies this`desc, this`takenIdx, this`holds, this`reporting, this`info, this`usedRing, this`usedIdx,
               this`world, this`now
      ensures Valid() && DeviceMoved(old(now.flight), now.flight)
      ensures desc == old(desc)[b := Desc(buf, SECTOR, (if write then 0 else F_WRITE) + F_NEXT, c)]
      ensures old(now.ran) <= now.ran
    {
      hide Valid;
      hide Partition, ReqsOk, RingHolds, QueueOf, LogOk, StaleOk, DeviceOk, DeviceMoved, InfoKept, EffectsOk;
      PutDesc(b, desc[b].(addr := buf));
      ghost var f1 := now.flight;
      PutDesc(b, desc[b].(len := SECTOR));
      LaterTrans(old(now.flight), f1, now.flight);
      ghost var f2 := now.flight;
      PutDesc(b, desc[b].(flags := if write then 0 else F_WRITE));
      LaterTrans(old(now.flight), f2, now.flight);
      ghost var f3 := now.flight;
      PutDesc(b, desc[b].(flags := desc[b].flags + F_NEXT));
      LaterTrans(old(now.flight), f3, now.flight);
      ghost var f4 := now.flight;
      PutDesc(b, desc[b].(next := c));
      LaterTrans(old(now.flight), f4, now.flight);
    }

    // The stores to the record of the request and to the status descriptor.
    method FormatStatus(a: nat, c: nat, buf: nat)
      requires Valid() && a < NUM && c < NUM && |desc| == NUM && |info| == NUM && |own.role| == NUM
      requires own.role[a] == Reserved && own.role[c] == Reserved
      modifies this`desc, this`takenIdx, this`holds, this`reporting, this`info, this`usedRing, this`usedIdx,
               this`world, this`now
      ensures Valid() && DeviceMoved(old(now.flight), now.flight) && |info| == NUM && info[a] == Info(buf, false, 0xff)
      ensures desc == old(desc)[c := Desc(StatusAddr(a), 1, F_WRITE, 0)]
      ensures old(now.ran) <= now.ran
    {
      hide Valid;
      hide Partition, ReqsOk, RingHolds, QueueOf, LogOk, StaleOk, DeviceOk, DeviceMoved, InfoKept, EffectsOk;
      PutInfo(a, info[a].(status := 0xff));
      ghost var f1, i1 := now.flight, info;
      Sizes();
      Held(a);
      FillDesc(c, Desc(StatusAddr(a), 1, F_WRITE, 0));
      InfoHeld(i1, info, f1, a);
      LaterTrans(old(now.flight), f1, now.flight);
      ghost var f2 := now.flight;
      PutInfo(a, info[a].(finish := false));
      LaterTrans(old(now.flight), f2, now.flight);
      ghost var f3 := now.flight;
      PutInfo(a, info[a].(data := buf));
      LaterTrans(old(now.flight), f3, now.flight);
    }

    // All stores of VirtioRw up to the ring.
    method Format(a: nat, b: nat, c: nat, buf: nat, sector: nat, write: bool, ghost r: Req)
      requires Valid() && a < NUM && b < NUM && c < NUM && a != b && a != c && b != c
      requires |desc| == NUM && |ops| == NUM && |info| == NUM && |own.role| == NUM
      requires own.role[a] == Reserved && own.role[b] == Reserved && own.role[c] == Reserved
      requires r.buf == buf && r.sector == sector && r.write == write && r.d1 == b && r.d2 == c
      modifies this`desc, this`ops, this`takenIdx, this`holds, this`reporting, this`info, this`usedRing,
               this`usedIdx, this`world, this`now
      ensures Valid() && DeviceMoved(old(now.flight), now.flight) && |desc| == NUM && |ops| == NUM && |info| == NUM
      ensures AsSubmitted(desc, ops, a, r) && info[a] == Info(buf, false, 0xff)
      ensures old(now.ran) <= now.ran
    {
      hide Valid;
      hide Partition, RingHolds, ReqsOk, QueueOf, LogOk, StaleOk, DeviceOk, DeviceMoved, InfoKept, EffectsOk;
      FormatHeader(a, b, sector, write);
      ghost var f1 := now.flight;
      FormatData(b, c, buf, write);
      LaterTrans(old(now.flight), f1, now.flight);
      ghost var f2 := now.flight;
      Sizes();
      FormatStatus(a, c, buf);
      LaterTrans(old(now.flight), f2, now.flight);
    }

    // VirtioRw up to its wait: -1 when fewer than three descriptors are free.
    method Submit(buf: nat, sector: nat, write: bool) returns (head: int)
      requires AtRest()
      modifies this
      ensures AtRest() && own.log == old(own.log) && old(now.ran) <= now.ran
      ensures own.asked == if head == -1 then old(own.asked) else old(own.asked) + [Transfer(buf, sector, write)]
      ensures head == -1 ==> DeviceMoved(old(now.flight), now.flight) && free == old(free) && |FreeIdx(free)| < 3
      ensures head != -1 ==>
                && 0 <= head < NUM && head !in old(now.flight) && head in now.flight
                && own.nextId == old(own.nextId) + 1
                && var r := Req(old(own.nextId), buf, sector, write, now.flight[head].d1, now.flight[head].d2, Avail);
                   DeviceMoved(old(now.flight)[head := r], now.flight)
    {
      hide Valid;
      hide Partition, RingHolds, ReqsOk, QueueOf, LogOk, StaleOk, DeviceOk, DeviceMoved, InfoKept, EffectsOk;
      Sizes();
      FreeAtRest();
      var idx := Alloc3Desc();
      if idx == [] { return -1; }
      ghost var f := now.flight;
      ghost var r := Req(own.nextId, buf, sector, write, idx[1], idx[2], Avail);
      Send(idx[0], idx[1], idx[2], buf, sector, write, r);
      head := idx[0];
      SentAtRest(old(own.role), own.role, head, idx[1], idx[2]);
      MovedKeys(old(now.flight), f);
      MovedJoined(old(now.flight), f, head, r);
      LaterTrans(old(now.flight)[head := r], f[head := r], now.flight);
      assert Later(r, now.flight[head]) by { LaterOf(old(now.flight)[head := r], now.flight, head); }
    }

    // Formatting, the ring entry and the index, in this order.
    method Send(a: nat, b: nat, c: nat, buf: nat, sector: nat, write: bool, ghost r: Req)
      requires Valid() && a < NUM && b < NUM && c < NUM && a != b && a != c && b != c && |own.role| == NUM
      requires own.role[a] == Reserved && own.role[b] == Reserved && own.role[c] == Reserved
      requires r == Req(own.nextId, buf, sector, write, b, c, Avail)
      modifies this`desc, this`ops, this`availRing, this`availIdx, this`takenIdx, this`holds, this`reporting,
               this`info, this`usedRing, this`usedIdx, this`world, this`now, this`own
      ensures Valid() && own == old(own).(role := old(own.role)[a := In(a, 0)][b := In(a, 1)][c := In(a, 2)],
                                          nextId := old(own.nextId) + 1, asked := old(own.asked) + [OpOf(r)])
      ensures a !in old(now.flight) && DeviceMoved(old(now.flight)[a := r], now.flight)
      ensures old(now.ran) <= now.ran
    {
      hide Valid, Partition, RingHolds, ReqsOk, QueueOf, LogOk, StaleOk, DeviceOk, DeviceMoved, InfoKept, AsSubmitted,
          EffectsOk;
      Sizes();
      Held(a);
      Format(a, b, c, buf, sector, write, r);
      ghost var f1, i1 := now.flight, info;
      Sizes();
      Held(a);
      PutRing(a);
      InfoHeld(i1, info, f1, a);
      LaterTrans(old(now.flight), f1, now.flight);
      ghost var f2 := now.flight;
      Publish(a, r);
      MovedJoined(old(now.flight), f2, a, r);
      LaterTrans(old(now.flight)[a := r], f2[a := r], now.flight);
    }

    /** One round of the loop of VirtioIntr. false stands for its panic, which comes exactly
        when the device reported the request as failed. */
    method IntrOne() returns (ok: bool, ghost h: nat)
      requires Valid() && own.stale == [] && seenIdx != usedIdx
      modifies this`seenIdx, this`takenIdx, this`holds, this`reporting, this`info, this`usedRing, this`usedIdx,
               this`world, this`now, this`own
      ensures Valid() && h in old(now.flight) && old(now.flight)[h].stage == Used && h < |old(info)|
      ensures ok <==> old(info)[h].status == 0
      ensures !ok ==> own == old(own) && now == old(now) && info == old(info)
      ensures ok ==> DeviceMoved(old(now.flight)[h := old(now.flight)[h].(stage := Done)], now.flight)
      ensures ok ==> old(now.flight)[h].id !in old(own.log)
      ensures ok ==> own == old(own).(log := old(own.log) + [old(now.flight)[h].id])
      ensures old(now.ran) <= now.ran
    {
      hide Valid;
      hide Partition, ReqsOk, RingHolds, QueueOf, LogOk, StaleOk, DeviceOk, DeviceMoved, InfoKept, EffectsOk;
      NextReported();
      h := now.usedQ[0];
      var id := usedRing[seenIdx % NUM];
      if info[id].status != 0 { return false, h; }
      Acknowledge(id);
      ghost var f1 := now.flight;
      StepOver(h);
      LaterTrans(old(now.flight)[h := old(now.flight)[h].(stage := Done)], f1, now.flight);
      ok := true;
    }

    // virtioDisk.info[id].finish = true
    method Acknowledge(id: nat)
      requires Valid() && own.stale == [] && now.usedQ != [] && now.usedQ[0] == id && id < |info|
      requires info[id].status == 0
      modifies this`takenIdx, this`holds, this`reporting, this`info, this`usedRing, this`usedIdx, this`world,
               this`now, this`own
      ensures Valid() && id in old(now.flight) && old(now.flight)[id].stage == Used
      ensures DeviceMoved(old(now.flight)[id := old(now.flight)[id].(stage := Done)], now.flight)
      ensures old(now.flight)[id].id !in old(own.log)
      ensures own == old(own).(stale := [id], log := old(own.log) + [old(now.flight)[id].id])
      ensures old(now.ran) <= now.ran
    {
      hide Valid, DeviceMoved, InfoKept;
      Finish(id);
      Interfere();
    }

    // The store alone.
    method Finish(id: nat)
      requires Valid() && own.stale == [] && now.usedQ != [] && now.usedQ[0] == id && id < |info|
      requires info[id].status == 0
      modifies this`info, this`now, this`own
      ensures Valid() && id in old(now.flight) && old(now.flight)[id].stage == Used && now.ran == old(now.ran)
      ensures now.flight == old(now.flight)[id := old(now.flight)[id].(stage := Done)]
      ensures old(now.flight)[id].id !in old(own.log)
      ensures own == old(own).(stale := [id], log := old(own.log) + [old(now.flight)[id].id])
    {
      hide StateOk;
      AckKeeps(id);
      info := info[id := info[id].(finish := true)];
      own := own.(log := own.log + [now.flight[id].id], stale := [id]);
      now := now.(flight := now.flight[id := now.flight[id].(stage := Done)], usedQ := now.usedQ[1..]);
    }

    // The invariant with the head of the used ring acknowledged and not yet stepped over.
    lemma AckKeeps(id: nat)
      requires Valid() && own.stale == [] && now.usedQ != [] && now.usedQ[0] == id && id < |info|
      requires info[id].status == 0
      ensures id in now.flight && now.flight[id].stage == Used && now.flight[id].id !in own.log
      ensures StateOk(desc, free, ops, info[id := info[id].(finish := true)], availRing, availIdx, usedRing, usedIdx,
                      seenIdx, takenIdx, holds, reporting, world, own.role,
                      now.flight[id := now.flight[id].(stage := Done)], now.availQ, now.usedQ[1..], [id],
                      own.log + [now.flight[id].id], own.nextId, own.asked, now.ran, first)
    {
      hide Partition, ReqsOk, RingHolds, QueueOf, LogOk, StaleOk, DeviceOk, EffectsOk;
      QueueHead(now.usedQ, now.flight, Used);
      Advance(id, Done);
      QueuePop(now.usedQ, now.flight, Used, Done);
      QueueOther(now.availQ, now.flight, Avail, id, Done);
      DeviceLeft(holds, reporting, usedRing, usedIdx, now.flight, id);
      AckEffects(world, first, own.asked, now.ran, now.flight, info, reporting, own.log, own.nextId, id);
      assert own.stale + now.usedQ == [id] + now.usedQ[1..];
      OneStale(id, now.flight[id := now.flight[id].(stage := Done)]);
    }

    // virtioDisk.used_idx += 1
    method StepOver(ghost h: nat)
      requires Valid() && own.stale == [h]
      modifies this`seenIdx, this`takenIdx, this`holds, this`reporting, this`info, this`usedRing, this`usedIdx,
               this`world, this`now, this`own
      ensures Valid() && own == old(own).(stale := []) && DeviceMoved(old(now.flight), now.flight)
      ensures old(now.ran) <= now.ran
    {
      hide Partition, ReqsOk, RingHolds, QueueOf, LogOk, StaleOk, DeviceOk, DeviceMoved, InfoKept, EffectsOk;
      PopRing(usedRing, seenIdx, usedIdx, own.stale + now.usedQ);
      assert (own.stale + now.usedQ)[1..] == [] + now.usedQ;
      seenIdx := (seenIdx + 1) % U16;
      own := own.(stale := []);
      assert StaleOk([], now.flight) by { NoStale(now.flight); }
      Interfere();
    }

    /** VirtioIntr: whatever the device does meanwhile, the loop ends, every request that was
        reported is acknowledged, and each request is logged once. */
    method Intr() returns (ok: bool)
      requires AtRest()
      modifies this`seenIdx, this`takenIdx, this`holds, this`reporting, this`info, this`usedRing, this`usedIdx,
               this`world, this`now, this`own
      ensures Valid() && AllAhead(old(now.flight), now.flight)
      ensures old(own.log) <= own.log && own == old(own).(log := own.log)
      ensures ok ==> AtRest() && now.usedQ == []
      ensures ok ==>
                forall h :: h in old(now.flight) && old(now.flight)[h].stage == Used ==> now.flight[h].stage == Done
      ensures !ok ==> exists h :: h in now.flight && h < |info| && now.flight[h].stage == Used && info[h].status != 0
      ensures old(now.ran) <= now.ran
    {
      hide Valid;
      hide Partition, ReqsOk, RingHolds, QueueOf, LogOk, StaleOk, DeviceOk, DeviceMoved, InfoKept, EffectsOk;
      assert AllAhead(now.flight, now.flight);
      while seenIdx != usedIdx
        invariant Valid() && old(own.log) <= own.log && own == old(own).(log := own.log)
        invariant old(now.ran) <= now.ran && AllAhead(old(now.flight), now.flight)
        decreases |Unfinished(now.flight)|
      {
        ghost var f := now.flight;
        ghost var h;
        ok, h := IntrOne();
        if !ok { return; }
        RoundAhead(old(now.flight), f, now.flight, h);
      }
      AllReported();
      ok := true;
    }

    // free_chain: the three descriptors of the chain at h, by their next fields; false stands for a panic.
    method FreeChain(h: nat, ghost r: Req) returns (ok: bool)
      requires Valid() && |free| == NUM && |own.role| == NUM && |desc| == NUM && |ops| == NUM
      requires AsSubmitted(desc, ops, h, r)
      requires h != r.d1 && h != r.d2 && r.d1 != r.d2
      requires own.role[h] == Reserved && own.role[r.d1] == Reserved && own.role[r.d2] == Reserved
      modifies this`free, this`desc, this`takenIdx, this`holds, this`reporting, this`info, this`usedRing,
               this`usedIdx, this`world, this`now, this`own
      ensures Valid() && ok && DeviceMoved(old(now.flight), now.flight)
      ensures free == old(free)[h := true][r.d1 := true][r.d2 := true]
      ensures own == old(own).(role := old(own.role)[h := Role.Free][r.d1 := Role.Free][r.d2 := Role.Free])
      ensures |desc| == NUM && forall j :: 0 <= j < NUM && j != h && j != r.d1 && j != r.d2 ==> desc[j] == old(desc)[j]
      ensures old(now.ran) <= now.ran
    {
      hide Valid;
      hide Partition, ReqsOk, RingHolds, QueueOf, LogOk, StaleOk, DeviceOk, DeviceMoved, InfoKept, EffectsOk;
      LaterSame(now.flight);
      Held(h);
      Held(r.d1);
      Held(r.d2);
      var i := h;
      ghost var k := 0;
      while true
        invariant Valid() && DeviceMoved(old(now.flight), now.flight) && old(now.ran) <= now.ran
        invariant own == old(own).(role := own.role)
        invariant 0 <= k < 3 && i == SlotOf(h, r, k) && |free| == NUM && |own.role| == NUM && |desc| == NUM
        invariant forall j :: 0 <= j < NUM && !(k > 0 && j == h) && !(k > 1 && j == r.d1) ==>
                    desc[j] == old(desc)[j] && free[j] == old(free)[j] && own.role[j] == old(own.role)[j]
        invariant k > 0 ==> free[h] && own.role[h] == Role.Free
        invariant k > 1 ==> free[r.d1] && own.role[r.d1] == Role.Free
        decreases 3 - k
      {
        var flag, nxt := desc[i].flags, desc[i].next;
        ghost var f := now.flight;
        ok := FreeDesc(i);
        LaterTrans(old(now.flight), f, now.flight);
        if !ok { return; }
        if flag % 2 != F_NEXT { break; }
        i := nxt;
        k := k + 1;
      }
      assert own.role == old(own.role)[h := Role.Free][r.d1 := Role.Free][r.d2 := Role.Free];
      ok := true;
    }

    // VirtioRw after its wait: the finished request leaves and its descriptors are free again.
    method Retire(h: nat) returns (ok: bool)
      requires AtRest() && h in now.flight && now.flight[h].stage == Done
      modifies this`free, this`desc, this`takenIdx, this`holds, this`reporting, this`info, this`usedRing,
               this`usedIdx, this`world, this`now, this`own
      ensures ok && AtRest() && DeviceMoved(old(now.flight) - {h}, now.flight)
      ensures own == old(own).(role := own.role)
      ensures |desc| == NUM == |old(desc)| == |old(free)|
      ensures var r := old(now.flight)[h];
              forall j :: 0 <= j < NUM && !old(free)[j] && j != h && j != r.d1 && j != r.d2 ==> desc[j] == old(desc)[j]
      ensures old(now.ran) <= now.ran
    {
      hide Valid, Partition, ReqsOk, RingHolds, QueueOf, LogOk, StaleOk, DeviceOk, DeviceMoved, InfoKept, EffectsOk;
      FreeAtRest();
      Sizes();
      ghost var r := now.flight[h];
      Withdraw(h);
      ghost var f := now.flight;
      PutInfo(h, info[h].(data := 0));
      ghost var f1 := now.flight;
      ok := FreeChain(h, r);
      LaterTrans(f, f1, now.flight);
    }

    // info[h].finish tells whether the request of h is done.
    lemma FinishFlag(h: nat)
      requires Valid() && h in now.flight
      ensures h < |info| && (info[h].finish <==> now.flight[h].stage == Done)
    {
      hide Partition, RingHolds, QueueOf, LogOk, StaleOk, DeviceOk, EffectsOk, AsSubmitted;
    }

    lemma Effects()
      requires Valid()
      ensures EffectsOk(world, first, own.asked, now.ran, now.flight, info, reporting, own.log, own.nextId)
      ensures own.nextId == |own.asked|
    {
      hide Partition, ReqsOk, RingHolds, QueueOf, LogOk, StaleOk, DeviceOk, RansOk, Settled, Replay;
    }

    lemma DoneHasRun(h: nat)
      requires Valid() && h in now.flight && now.flight[h].stage == Done
      ensures now.flight[h].id in now.ran
    {
      hide Partition, ReqsOk, RingHolds, QueueOf, LogOk, StaleOk, DeviceOk, Settled, Replay;
    }

    /** VirtioRw on a disk without other requests, through any number of device steps and
        interrupts: once it is finished, a read has copied the sector into the buffer and a
        write the buffer into the sector, and nothing else has changed. */
    method Rw(buf: nat, sector: nat, write: bool) returns (res: RwResult)
      requires AtRest() && now.flight == map[]
      modifies this
      ensures res.Finished? ==> AtRest() && now.flight == map[] && sector in old(world).disk
      ensures res.Finished? && !write ==>
                world == World(old(world).disk, Put(old(world).mem, buf, old(world).disk[sector]))
      ensures res.Finished? && write ==>
                world == World(old(world).disk[sector := Load(old(world).mem, buf, SECTOR)], old(world).mem)
      ensures res.NotSent? ==> AtRest() && now.flight == map[]
    {
      hide StateOk, DeviceMoved, InfoKept, EffectsOk, Put, Load, AllAhead;
      Effects();
      var head := Submit(buf, sector, write);
      if head == -1 {
        MovedKeys(old(now.flight), now.flight);
        return NotSent;
      }
      ghost var id := old(own.nextId);
      SentAlone(old(now.flight), now.flight, head,
                Req(id, buf, sector, write, now.flight[head].d1, now.flight[head].d2, Avail));
      FinishFlag(head);
      var rounds: nat := *;
      while rounds > 0 && !info[head].finish
        invariant AtRest() && now.flight.Keys == {head} && now.flight[head].id == id && head < |info|
        invariant info[head].finish <==> now.flight[head].stage == Done
        invariant own == Ledger(own.role, own.stale, own.log, id + 1, old(own.asked) + [Transfer(buf, sector, write)])
        invariant old(now.ran) <= now.ran
      {
        ghost var f := now.flight;
        Interfere();
        MovedKeys(f, now.flight);
        LaterOf(f, now.flight, head);
        f := now.flight;
        var ok := Intr();
        if !ok { return Panicked; }
        AheadOf(f, now.flight, head);
        FinishFlag(head);
        rounds := rounds - 1;
      }
      if !info[head].finish { return UnderWay; }
      DoneHasRun(head);
      ghost var f := now.flight;
      var ok := Retire(head);
      MovedKeys(f - {head}, now.flight);
      assert now.flight == map[];
      res := Finished;
      Effects();
      OnlyNext(old(world), first, old(own.asked), old(now.ran), old(info), old(reporting), old(own.log),
               Transfer(buf, sector, write), world, now.ran, now.flight, info, reporting, own.log);
    }

    /** A client of these contracts: what the kernel stores in one buffer and writes to a
        sector is what it reads back from there into another. */
    method WriteThenRead(buf: nat, data: seq<Byte>, sector: nat, other: nat) returns (done: bool)
      requires AtRest() && now.flight == map[] && |data| == SECTOR
      modifies this
      ensures done ==> AtRest() && Load(world.mem, other, SECTOR) == data
    {
      hide StateOk, Put, Load;
      KernelStore(buf, data);
      PutLoad(old(world).mem, buf, data);
      var written := Rw(buf, sector, true);
      if !written.Finished? { return false; }
      ghost var mem := world.mem;
      var read := Rw(other, sector, false);
      if !read.Finished? { return false; }
      PutLoad(mem, other, data);
      return true;
    }

    // The finished request is no longer in flight; the driver holds its descriptors.
    ghost method Withdraw(h: nat)
      requires Valid() && own.stale == [] && h in now.flight && now.flight[h].stage == Done
      modifies this`now, this`own
      ensures Valid() && now.flight == old(now.flight) - {h} && h in old(now.flight) && now.ran == old(now.ran)
      ensures |own.role| == NUM == |old(own.role)| && |desc| == NUM && |ops| == NUM && |free| == NUM
      ensures var r := old(now.flight)[h];
              && AsSubmitted(desc, ops, h, r) && h != r.d1 && h != r.d2 && r.d1 != r.d2
              && own == old(own).(role := old(own.role)[h := Reserved][r.d1 := Reserved][r.d2 := Reserved])
              && !free[h] && !free[r.d1] && !free[r.d2]
    {
      hide Partition, ReqsOk, RingHolds, QueueOf, LogOk, StaleOk, DeviceOk, EffectsOk;
      var r := now.flight[h];
      ChainFacts(desc, ops, info, free, own.role, now.flight, h);
      RetireParts(free, own.role, now.flight, h);
      RetireReqs(desc, ops, info, info, now.flight, h);
      RetireQueues(now.availQ, now.usedQ, now.flight, h);
      RetireLog(own.log, now.flight, own.nextId, h);
      DeviceLeft(holds, reporting, usedRing, usedIdx, now.flight, h);
      LeaveEffects(world, first, own.asked, now.ran, now.flight, info, reporting, own.log, own.nextId, h);
      NoStale(now.flight - {h});
      own := own.(role := own.role[h := Reserved][r.d1 := Reserved][r.d2 := Reserved]);
      now := now.(flight := now.flight - {h});
    }
  }
}
