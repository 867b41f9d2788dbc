/** The pipe of kernel/fs/Pipe.cpp. Each method is what read, write or close does from
    taking the pipe lock to releasing it: up to a sleep, or to the end. sleep puts the
    task on a channel and releases the lock in one step, as proved for the sleep lock. */
module Pipe {
  import opened Common

  const PIPESIZE: nat := 512

  /** A pipe as its users see it: a queue, two open ends, and the tasks asleep on
      &nread (waiting for data) and on &nwrite (waiting for space). */
  datatype State = State(q: seq<Byte>, readopen: bool, writeopen: bool, readers: set<nat>, writers: set<nat>)

  datatype ReadResult = ReadSleeps | ReadKilled | Got(bytes: seq<Byte>)

  // Writing sleeps or ends with the first i bytes of the source accepted, or fails.
  datatype WriteResult = WriteSleeps(i: nat) | Wrote(i: nat) | WriteFails

  function Min(a: nat, b: nat): nat { if a < b then a else b }

  // ---- What one critical section does ---------------------------------------------

  function ReadResultOf(s: State, n: nat, killed: bool): ReadResult {
    if s.q == [] && s.writeopen then (if killed then ReadKilled else ReadSleeps)
    else Got(s.q[..Min(n, |s.q|)])
  }

  function ReadStep(s: State, t: nat, n: nat, killed: bool): State {
    match ReadResultOf(s, n, killed)
    case ReadKilled => s
    case ReadSleeps => s.(readers := s.readers + {t})
    case Got(bytes) => s.(q := s.q[|bytes|..], writers := {})
  }

  // How many more bytes of the source fit, starting at i.
  function Fitting(s: State, src: seq<Byte>, i: nat): nat
    requires i <= |src|
  {
    Min(|src| - i, if |s.q| < PIPESIZE then PIPESIZE - |s.q| else 0)
  }

  function WriteResultOf(s: State, src: seq<Byte>, i: nat, killed: bool): WriteResult
    requires i <= |src|
  {
    var k := i + Fitting(s, src, i);
    if k == |src| then Wrote(k) else if !s.readopen || killed then WriteFails else WriteSleeps(k)
  }

  function WriteStep(s: State, t: nat, src: seq<Byte>, i: nat, killed: bool): State
    requires i <= |src|
  {
    var s' := s.(q := s.q + src[i..i + Fitting(s, src, i)]);
    match WriteResultOf(s, src, i, killed)
    case Wrote(_) => s'.(readers := {})
    case WriteFails => s'
    case WriteSleeps(_) => s'.(readers := {}, writers := s.writers + {t})
  }

  function CloseStep(s: State, readEnd: bool): State {
    if readEnd then s.(readopen := false, writers := {}) else s.(writeopen := false, readers := {})
  }

  // ---- Nobody sleeps in vain -------------------------------------------------------

  /** No reader sleeps with data present or the write end closed, and no writer sleeps
      with space free or the read end closed. */
  predicate Fair(s: State) {
    && (s.readers != {} ==> s.q == [] && s.writeopen)
    && (s.writers != {} ==> |s.q| == PIPESIZE && s.readopen)
  }

  predicate Bounded(s: State) { |s.q| <= PIPESIZE }

  lemma ReadFair(s: State, t: nat, n: nat, killed: bool)
    requires Bounded(s) && Fair(s)
    ensures Bounded(ReadStep(s, t, n, killed)) && Fair(ReadStep(s, t, n, killed))
  {
  }

  lemma CloseFair(s: State, readEnd: bool)
    requires Bounded(s) && Fair(s)
    ensures Bounded(CloseStep(s, readEnd)) && Fair(CloseStep(s, readEnd))
  {
  }

  // A pipe closed at both ends has nobody asleep on it, so deleting it strands nobody.
  lemma DeletedAlone(s: State, readEnd: bool)
    requires Fair(s) && !CloseStep(s, readEnd).readopen && !CloseStep(s, readEnd).writeopen
    ensures CloseStep(s, readEnd).readers == {} && CloseStep(s, readEnd).writers == {}
  {
  }

  /** A write keeps everybody fairly asleep if and only if it does not fail after
      filling a pipe with sleeping readers: that exit has no wakeup. */
  lemma WriteFairIff(s: State, t: nat, src: seq<Byte>, i: nat, killed: bool)
    requires Bounded(s) && Fair(s) && i <= |src|
    ensures Bounded(WriteStep(s, t, src, i, killed))
    ensures Fair(WriteStep(s, t, src, i, killed)) <==>
              !(|src| - i > PIPESIZE - |s.q| && (killed || !s.readopen) && s.readers != {})
  {
    var k := Fitting(s, src, i);
    assert |src[i..i + k]| == k;
  }

  // A writer killed when the pipe is full leaves a reader asleep beside 512 bytes.
  lemma KilledWriterStrandsReader()
    ensures var s := State([], true, true, {1}, {});
            var src: seq<Byte> := seq(PIPESIZE + 1, _ => 0);
            Fair(s) && Bounded(s) && !Fair(WriteStep(s, 2, src, 0, true))
  {
    var src: seq<Byte> := seq(PIPESIZE + 1, _ => 0);
    WriteFairIff(State([], true, true, {1}, {}), 2, src, 0, true);
  }

  // ---- Whole runs --------------------------------------------------------------------

  datatype Event =
    | Read(t: nat, n: nat, killed: bool)
    | Write(t: nat, src: seq<Byte>, i: nat, killed: bool)
    | Close(readEnd: bool)
    | Wake(t: nat) // kill makes a sleeping task runnable

  function Do(s: State, e: Event): State {
    match e
    case Read(t, n, killed) => ReadStep(s, t, n, killed)
    case Write(t, src, i, killed) => if i <= |src| then WriteStep(s, t, src, i, killed) else s
    case Close(readEnd) => CloseStep(s, readEnd)
    case Wake(t) => s.(readers := s.readers - {t}, writers := s.writers - {t})
  }

  // The bytes an event takes into the pipe, and those it hands out.
  function Taken(s: State, e: Event): seq<Byte> {
    if e.Write? && e.i <= |e.src| then e.src[e.i..e.i + Fitting(s, e.src, e.i)] else []
  }

  function Given(s: State, e: Event): seq<Byte> {
    if e.Read? && ReadResultOf(s, e.n, e.killed).Got? then ReadResultOf(s, e.n, e.killed).bytes else []
  }

  function StateAfter(es: seq<Event>): State {
    if es == [] then State([], true, true, {}, {}) else Do(StateAfter(es[..|es| - 1]), es[|es| - 1])
  }

  function Accepted(es: seq<Event>): seq<Byte> {
    if es == [] then [] else Accepted(es[..|es| - 1]) + Taken(StateAfter(es[..|es| - 1]), es[|es| - 1])
  }

  function Delivered(es: seq<Event>): seq<Byte> {
    if es == [] then [] else Delivered(es[..|es| - 1]) + Given(StateAfter(es[..|es| - 1]), es[|es| - 1])
  }

  /** The pipe is a FIFO: after any events in any order, the bytes delivered and then
      the at most 512 bytes inside are exactly the bytes accepted. */
  lemma {:induction false} Fifo(es: seq<Event>)
    ensures Accepted(es) == Delivered(es) + StateAfter(es).q
    ensures Bounded(StateAfter(es))
    ensures Delivered(es) <= Accepted(es)
  {
    hide Do, Taken, Given;
    if es != [] {
      var es0, e := es[..|es| - 1], es[|es| - 1];
      Fifo(es0);
      var s := StateAfter(es0);
      FifoStep(s, e);
      Queue(Delivered(es0), s.q, Taken(s, e), Given(s, e), Do(s, e).q);
    }
  }

  lemma FifoStep(s: State, e: Event)
    requires Bounded(s)
    ensures s.q + Taken(s, e) == Given(s, e) + Do(s, e).q
    ensures Bounded(Do(s, e))
  {
  }

  lemma Queue(out: seq<Byte>, q: seq<Byte>, more: seq<Byte>, given: seq<Byte>, q': seq<Byte>)
    requires q + more == given + q'
    ensures (out + q) + more == (out + given) + q'
  {
    assert (out + q) + more == out + (q + more);
    assert (out + given) + q' == out + (given + q');
  }

  // A write that fails on a full pipe while a reader sleeps.
  predicate Strands(s: State, e: Event) {
    e.Write? && e.i <= |e.src| && |e.src| - e.i > PIPESIZE - |s.q| && (e.killed || !s.readopen) && s.readers != {}
  }

  ghost predicate NoStranding(es: seq<Event>) {
    forall k :: 0 <= k < |es| ==> !Strands(StateAfter(es[..k]), es[k])
  }

  ghost predicate FairThroughout(es: seq<Event>) {
    forall k :: 0 <= k <= |es| ==> Fair(StateAfter(es[..k]))
  }

  /** No lost wakeup over whole runs, exactly where the code gives it: every prefix of
      the run leaves nobody asleep in vain just when no write strands a reader. */
  lemma {:induction false} FairRuns(es: seq<Event>)
    ensures FairThroughout(es) <==> NoStranding(es)
  {
    hide Strands, Fair, Do, NoStranding, FairThroughout;
    if es == [] {
      FairAtStart();
    } else {
      var es0 := es[..|es| - 1];
      FairRuns(es0);
      Fifo(es0);
      LastPrefix(es);
      if FairThroughout(es0) {
        FairNow(es0);
        FairStep(StateAfter(es0), es[|es| - 1]);
      }
    }
  }

  lemma FairAtStart()
    ensures FairThroughout([]) && NoStranding([])
  {
    var es: seq<Event> := [];
    assert es[..0] == es;
  }

  lemma FairNow(es: seq<Event>)
    requires FairThroughout(es)
    ensures Fair(StateAfter(es))
  {
    hide Fair, Do;
    assert es[..|es|] == es;
  }

  lemma LastPrefix(es: seq<Event>)
    requires es != []
    ensures var es0 := es[..|es| - 1];
            && (FairThroughout(es) <==> FairThroughout(es0) && Fair(StateAfter(es)))
            && (NoStranding(es) <==> NoStranding(es0) && !Strands(StateAfter(es0), es[|es| - 1]))
  {
    hide Strands, Fair, StateAfter;
    var es0 := es[..|es| - 1];
    assert es[..|es|] == es;
    assert forall k :: 0 <= k < |es| ==> es[..k] == es0[..k];
  }

  lemma FairStep(s: State, e: Event)
    requires Bounded(s) && Fair(s)
    ensures Fair(Do(s, e)) <==> !Strands(s, e)
  {
    match e
    case Read(t, n, killed) => ReadFair(s, t, n, killed);
    case Write(t, src, i, killed) => if i <= |src| { WriteFairIff(s, t, src, i, killed); }
    case Close(readEnd) => CloseFair(s, readEnd);
    case Wake(t) =>
  }

  // ---- Whole calls of write ------------------------------------------------------------------

  // What the critical section at place k of a run answers, if it is one of write.
  function Answer(es: seq<Event>, k: nat): WriteResult
    requires k < |es| && es[k].Write? && es[k].i <= |es[k].src|
  {
    WriteResultOf(StateAfter(es[..k]), es[k].src, es[k].i, es[k].killed)
  }

  // The section at place k of a run is one of task t writing src.
  predicate IsSection(es: seq<Event>, t: nat, src: seq<Byte>, k: nat) {
    k < |es| && es[k].Write? && es[k].t == t && es[k].src == src && es[k].i <= |src|
  }

  /** The places ks of a run are the sections of one call of write by task t: the first from
      index 0, and each further one from the index with which the one before went to sleep. */
  ghost predicate IsCall(es: seq<Event>, t: nat, src: seq<Byte>, ks: seq<nat>) {
    && (forall j :: 0 <= j < |ks| ==> IsSection(es, t, src, ks[j]))
    && (forall j :: 0 < j < |ks| ==> ks[j - 1] < ks[j] && Answer(es, ks[j - 1]) == WriteSleeps(es[ks[j]].i))
    && (ks != [] ==> es[ks[0]].i == 0)
  }

  // The bytes that the sections at ks took into the pipe, one after the other.
  function TakenAt(es: seq<Event>, ks: seq<nat>): seq<Byte>
    requires forall j :: 0 <= j < |ks| ==> ks[j] < |es|
  {
    if ks == [] then []
    else
      var k := ks[|ks| - 1];
      TakenAt(es, ks[..|ks| - 1]) + Taken(StateAfter(es[..k]), es[k])
  }

  /** A call of write sends its bytes once and in order, whatever others do while it sleeps.
      Asleep at index k it has sent the first k bytes, and the pipe is full; at its end it
      has sent all of them and says so; failed, it has sent some but not all. */
  lemma {:induction false} CallSends(es: seq<Event>, t: nat, src: seq<Byte>, ks: seq<nat>)
    requires IsCall(es, t, src, ks) && ks != []
    ensures var sent := TakenAt(es, ks);
            match Answer(es, ks[|ks| - 1])
            case Wrote(n) => n == |src| && sent == src
            case WriteSleeps(k) => k < |src| && sent == src[..k] && |StateAfter(es[..ks[|ks| - 1] + 1]).q| == PIPESIZE
            case WriteFails => sent < src
    decreases |ks|
  {
    hide StateAfter, WriteResultOf, Do, Taken;
    var last := ks[|ks| - 1];
    assert IsSection(es, t, src, last);
    var init := ks[..|ks| - 1];
    Fifo(es[..last]);
    if init != [] {
      CallSends(es, t, src, init);
      assert Answer(es, ks[|ks| - 1 - 1]) == WriteSleeps(es[ks[|ks| - 1]].i);
    }
    assert TakenAt(es, init) == src[..es[last].i];
    SectionSends(StateAfter(es[..last]), es[last]);
    NextState(es, last);
  }

  // One section, after the bytes before its index were sent.
  lemma SectionSends(s: State, e: Event)
    requires Bounded(s) && e.Write? && e.i <= |e.src|
    ensures var sent := e.src[..e.i] + Taken(s, e);
            match WriteResultOf(s, e.src, e.i, e.killed)
            case Wrote(n) => n == |e.src| && sent == e.src
            case WriteSleeps(k) =>
              k < |e.src| && sent == e.src[..k] && |Do(s, e).q| == PIPESIZE && e.t in Do(s, e).writers
            case WriteFails => sent < e.src
  {
    var k := e.i + Fitting(s, e.src, e.i);
    assert e.src[..e.i] + e.src[e.i..k] == e.src[..k];
    assert e.src[..|e.src|] == e.src;
  }

  lemma NextState(es: seq<Event>, k: nat)
    requires k < |es|
    ensures StateAfter(es[..k + 1]) == Do(StateAfter(es[..k]), es[k])
  {
    hide Do;
    assert es[..k + 1][..k] == es[..k];
  }

  /** A read takes from the front as many bytes as it may, up to all; it sleeps exactly on an
      empty pipe with an open write end. */
  lemma ReadTakes(s: State, t: nat, n: nat, killed: bool)
    ensures var s' := Do(s, Read(t, n, killed));
            match ReadResultOf(s, n, killed)
            case Got(bytes) => s.q == bytes + s'.q && |bytes| <= n && (|bytes| == n || s'.q == [])
            case ReadSleeps => s.q == [] && s.writeopen && !killed && t in s'.readers && s'.q == []
            case ReadKilled => s.q == [] && s.writeopen && killed && s' == s
  {
  }

  // ---- The two ends --------------------------------------------------------------------------

  // An end is open until its close.
  lemma {:induction false} OpenIff(es: seq<Event>)
    ensures StateAfter(es).readopen <==> Close(true) !in es
    ensures StateAfter(es).writeopen <==> Close(false) !in es
  {
    if es != [] {
      OpenIff(es[..|es| - 1]);
      assert es == es[..|es| - 1] + [es[|es| - 1]];
    }
  }

  /** A write that does not fit, by a task not killed, fails exactly after a close of the read
      end; a read of an empty pipe is given nothing exactly after a close of the write end. */
  lemma ClosedIff(es: seq<Event>, src: seq<Byte>, i: nat, n: nat)
    requires i <= |src|
    ensures |src| - i > PIPESIZE - |StateAfter(es).q| ==>
              (WriteResultOf(StateAfter(es), src, i, false) == WriteFails <==> Close(true) in es)
    ensures StateAfter(es).q == [] ==>
              (ReadResultOf(StateAfter(es), n, false) == Got([]) <==> Close(false) in es)
  {
    hide StateAfter;
    OpenIff(es);
    Fifo(es);
  }

  // ---- The ring buffer -------------------------------------------------------------

  // The ring from counter nread on holds q; both counters are 32 bits wide and wrap.
  ghost predicate Holds(data: seq<Byte>, nread: nat, nwrite: nat, q: seq<Byte>) {
    && |data| == PIPESIZE && nread < U32 && nwrite < U32 && |q| <= PIPESIZE
    && nwrite == (nread + |q|) % U32
    && forall i :: 0 <= i < |q| ==> data[(nread + i) % PIPESIZE] == q[i]
  }

  lemma WrapSlot(x: nat)
    ensures (x % U32) % PIPESIZE == x % PIPESIZE
  {
    var w := x / U32;
    assert x % U32 == x - 512 * (8388608 * w);
    DropRounds(x, 8388608 * w);
  }

  lemma DropRounds(x: nat, k: nat)
    requires 512 * k <= x
    ensures (x - 512 * k) % 512 == x % 512
  {
  }

  lemma SlotsDiffer(c: nat, i: nat, j: nat)
    requires i < j < i + PIPESIZE
    ensures (c + i) % PIPESIZE != (c + j) % PIPESIZE
  {
  }

  // The two tests of the code on the counters are exact.
  lemma CounterTests(data: seq<Byte>, nread: nat, nwrite: nat, q: seq<Byte>)
    requires Holds(data, nread, nwrite, q)
    ensures nread == nwrite <==> q == []
    ensures nwrite == (nread + PIPESIZE) % U32 <==> |q| == PIPESIZE
  {
  }

  lemma PutByte(data: seq<Byte>, nread: nat, nwrite: nat, q: seq<Byte>, b: Byte)
    requires Holds(data, nread, nwrite, q) && |q| < PIPESIZE
    ensures Holds(data[nwrite % PIPESIZE := b], nread, (nwrite + 1) % U32, q + [b])
  {
    var data' := data[nwrite % PIPESIZE := b];
    WrapSlot(nread + |q|);
    forall i | 0 <= i < |q + [b]| ensures data'[(nread + i) % PIPESIZE] == (q + [b])[i] {
      if i < |q| { SlotsDiffer(nread, i, |q|); }
    }
  }

  lemma GetByte(data: seq<Byte>, nread: nat, nwrite: nat, q: seq<Byte>)
    requires Holds(data, nread, nwrite, q) && q != []
    ensures data[nread % PIPESIZE] == q[0] && Holds(data, (nread + 1) % U32, nwrite, q[1..])
  {
    assert data[(nread + 0) % PIPESIZE] == q[0];
    forall i | 0 <= i < |q[1..]| ensures data[((nread + 1) % U32 + i) % PIPESIZE] == q[1..][i] {
      NextSlot(nread, i);
    }
    assert ((nread + 1) % U32 + (|q| - 1)) % U32 == (nread + |q|) % U32;
  }

  lemma NextSlot(c: nat, i: nat)
    requires c < U32
    ensures ((c + 1) % U32 + i) % PIPESIZE == (c + (i + 1)) % PIPESIZE
  {
    if c + 1 == U32 { DropRounds(c + 1 + i, 8388608); }
  }

  lemma HoldsBounds(data: seq<Byte>, nread: nat, nwrite: nat, q: seq<Byte>)
    requires Holds(data, nread, nwrite, q)
    ensures |data| == PIPESIZE && nread < U32 && nwrite < U32 && |q| <= PIPESIZE
  {
  }

  lemma TookPrefix(q: seq<Byte>, bytes: seq<Byte>, rest: seq<Byte>, n: nat)
    requires q == bytes + rest && |bytes| <= n && (|bytes| == n || rest == [])
    ensures bytes == q[..Min(n, |q|)] && rest == q[|bytes|..]
  {
  }

  lemma ReadGets(s: State, t: nat, n: nat, killed: bool, bytes: seq<Byte>, rest: seq<Byte>)
    requires s.q == [] ==> !s.writeopen
    requires s.q == bytes + rest && |bytes| <= n && (|bytes| == n || rest == [])
    ensures ReadResultOf(s, n, killed) == Got(bytes)
    ensures ReadStep(s, t, n, killed) == State(rest, s.readopen, s.writeopen, s.readers, {})
  {
    TookPrefix(s.q, bytes, rest, n);
  }

  lemma ReadWaits(s: State, t: nat, n: nat, killed: bool)
    requires s.q == [] && s.writeopen
    ensures ReadResultOf(s, n, killed) == if killed then ReadKilled else ReadSleeps
    ensures ReadStep(s, t, n, killed) == if killed then s else s.(readers := s.readers + {t})
  {
  }

  class Pipe {
    const data: array<Byte>
    var nread: nat
    var nwrite: nat
    var readopen: bool
    var writeopen: bool
    // The tasks asleep on the two channels.
    var readers: set<nat>
    var writers: set<nat>
    ghost var q: seq<Byte>

    ghost predicate Valid()
      reads this, data
    {
      data.Length == PIPESIZE && Holds(data[..], nread, nwrite, q)
    }

    ghost function Abs(): State
      reads this
    {
      State(q, readopen, writeopen, readers, writers)
    }

    constructor ()
      ensures Valid() && Abs() == State([], true, true, {}, {})
    {
      data := new Byte[PIPESIZE];
      nread, nwrite, readopen, writeopen, readers, writers, q := 0, 0, true, true, {}, {}, [];
    }

    method Empty() returns (r: bool)
      requires Valid()
      ensures r <==> q == []
    {
      CounterTests(data[..], nread, nwrite, q);
      return nread == nwrite;
    }

    method Full() returns (r: bool)
      requires Valid()
      ensures r <==> |q| == PIPESIZE
    {
      CounterTests(data[..], nread, nwrite, q);
      return nwrite == (nread + PIPESIZE) % U32;
    }

    method GetOne() returns (b: Byte)
      requires Valid() && q != []
      modifies this`nread, this`q
      ensures Valid() && old(q) == [b] + q
    {
      GetByte(data[..], nread, nwrite, q);
      b := data[nread % PIPESIZE];
      nread := (nread + 1) % U32;
      q := q[1..];
    }

    method PutOne(b: Byte)
      requires Valid() && |q| < PIPESIZE
      modifies this`nwrite, this`q, data
      ensures Valid() && q == old(q) + [b]
    {
      PutByte(data[..], nread, nwrite, q, b);
      ghost var was := data[..];
      data[nwrite % PIPESIZE] := b;
      assert data[..] == was[nwrite % PIPESIZE := b];
      nwrite := (nwrite + 1) % U32;
      q := q + [b];
    }

    method Read(task: nat, n: nat, killed: bool) returns (r: ReadResult)
      requires Valid()
      modifies this`nread, this`q, this`readers, this`writers
      ensures Valid() && r == ReadResultOf(old(Abs()), n, killed)
      ensures Abs() == ReadStep(old(Abs()), task, n, killed)
    {
      hide Holds, ReadResultOf, ReadStep;
      var empty := Empty();
      ghost var s := Abs();
      if empty && writeopen {
        ReadWaits(s, task, n, killed);
        if killed { return ReadKilled; }
        readers := readers + {task};
        return ReadSleeps;
      }
      var bytes := Drain(n, empty);
      writers := {};
      ReadGets(s, task, n, killed, bytes, q);
      return Got(bytes);
    }

    method Drain(n: nat, nothing: bool) returns (bytes: seq<Byte>)
      requires Valid() && (nothing <==> q == [])
      modifies this`nread, this`q
      ensures Valid() && old(q) == bytes + q && |bytes| <= n && (|bytes| == n || q == [])
    {
      hide Holds;
      bytes := [];
      var empty := nothing;
      while |bytes| < n && !empty
        invariant Valid() && |bytes| <= n && old(q) == bytes + q
        invariant empty <==> q == []
        decreases n - |bytes|
      {
        var b := GetOne();
        bytes := bytes + [b];
        empty := Empty();
      }
    }

    method Write(task: nat, src: seq<Byte>, from: nat, killed: bool) returns (r: WriteResult)
      requires Valid() && from <= |src|
      modifies this`nwrite, this`q, this`readers, this`writers, data
      ensures Valid() && r == WriteResultOf(old(Abs()), src, from, killed)
      ensures Abs() == WriteStep(old(Abs()), task, src, from, killed)
    {
      hide Holds;
      HoldsBounds(data[..], nread, nwrite, q);
      var i := Fill(src, from);
      if i < |src| {
        if !readopen || killed { return WriteFails; }
        readers := {};
        writers := writers + {task};
        return WriteSleeps(i);
      }
      readers := {};
      return Wrote(i);
    }

    method Fill(src: seq<Byte>, from: nat) returns (i: nat)
      requires Valid() && from <= |src|
      modifies this`nwrite, this`q, data
      ensures from <= i <= |src| && Valid() && q == old(q) + src[from..i]
      ensures i == |src| || |q| == PIPESIZE
      ensures |q| <= PIPESIZE
    {
      hide Holds;
      i := from;
      HoldsBounds(data[..], nread, nwrite, q);
      while i < |src|
        invariant from <= i <= |src| && Valid() && q == old(q) + src[from..i]
        invariant |q| <= PIPESIZE
      {
        var full := Full();
        if full { return; }
        PutOne(src[i]);
        i := i + 1;
        HoldsBounds(data[..], nread, nwrite, q);
      }
    }

    // close: the pipe is deleted with its second end.
    method Close(readEnd: bool) returns (deleted: bool)
      requires Valid()
      modifies this`readopen, this`writeopen, this`readers, this`writers
      ensures Valid() && Abs() == CloseStep(old(Abs()), readEnd)
      ensures deleted <==> !readopen && !writeopen
    {
      if readEnd {
        readopen, writers := false, {};
      } else {
        writeopen, readers := false, {};
      }
      return !readopen && !writeopen;
    }
  }
}
