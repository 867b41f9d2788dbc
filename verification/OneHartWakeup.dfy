/** wakeup reaches every sleeper (kernel/os/TaskScheduler.cpp): over any run, whoever sleeps
    on the channel when a wakeup starts has been awake by the time it ends. */
module OneHartWakeup {
  import opened Common
  import opened OneHart

  ghost predicate SleepsOn(s: State, j: nat, chan: Chan) {
    j < |s.tasks| && s.tasks[j].status == Sleeping && s.tasks[j].chan == chan
  }

  // The channel and the next task of the wakeup that a task is in, also while it is preempted there.
  function WakePos(pc: Pc): Option<(Chan, nat)> {
    match pc
    case Wake(chan, k, _, _) => Some((chan, k))
    case Switched(AfterYield(resume, _)) => WakePos(resume)
    case _ => None
  }

  ghost predicate InWakeup(s: State, i: nat) { i < |s.tasks| && WakePos(s.tasks[i].pc).Some? }

  // The step that starts a wakeup of task i on chan: a call, or exit for its parent.
  predicate StartsWakeup(s: State, a: Action, i: nat, chan: Chan) {
    && s.sched == Gone(i) && i < |s.tasks|
    && (|| a == CallAct(WakeCall(chan))
        || (a == TaskAct && s.tasks[i].pc.Reparent? && s.tasks[i].pc.k >= |s.tasks| &&
            chan.TaskChan? && s.tasks[i].parent == Some(chan.t)))
  }

  // ---- What a step does to the tasks that do not take it ----------------------------------------------

  // The task stays where it is, or is a slot that a fork takes, and falls asleep nowhere.
  predicate Minor(t: Task, t': Task) {
    && (t'.pc == t.pc || t.status == Unused)
    && (t'.status == Sleeping ==> t.status == Sleeping && t'.chan == t.chan)
  }

  ghost predicate AllMinor(s: State, s': State, except: Option<nat>) {
    |s'.tasks| == |s.tasks| && forall j: nat :: j < |s.tasks| && Some(j) != except ==> Minor(s.tasks[j], s'.tasks[j])
  }

  lemma ResumeMinor(s: State, i: nat, next: Next)
    requires i < |s.tasks| && Resume(s, i, next).Ok?
    ensures AllMinor(s, Resume(s, i, next).s, Some(i))
    ensures next.AfterYield? ==> Resume(s, i, next).s.tasks[i].pc == next.resume
  {
    hide Acquire, Release;
    var s1 := s.(cpu := s.cpu.(enable := s.tasks[i].saved));
    LocksOnly(s1, TaskLock(i));
    LocksOnly(SetTask(s1, i, s1.tasks[i].(chan := NoChan)), TaskLock(i));
  }

  lemma ScanMinor(s: State, i: nat, k: nat, have: bool)
    requires i < |s.tasks| && k < |s.tasks| && ScanOne(s, i, k, have).Ok?
    ensures AllMinor(s, ScanOne(s, i, k, have).s, Some(i))
  {
    hide Acquire, Release;
    LocksOnly(s, TaskLock(k));
    if Acquire(s, TaskLock(k)).Ok? {
      var s1 := Acquire(s, TaskLock(k)).s;
      LocksOnly(s1, TaskLock(k));
      var s2 := SetTask(s1, k, Freed(s1.tasks[k]));
      LocksOnly(s2, TaskLock(k));
      if Release(s2, TaskLock(k)).Ok? { LocksOnly(Release(s2, TaskLock(k)).s, TaskLock(i)); }
    }
  }

  lemma Scan4Minor(s: State, i: nat, c: nat)
    requires i < |s.tasks| && c < |s.tasks| && Scan4One(s, i, c).Ok?
    ensures AllMinor(s, Scan4One(s, i, c).s, Some(i))
  {
    hide Acquire, Release;
    LocksOnly(s, TaskLock(c));
    var s1 := Acquire(s, TaskLock(c)).s;
    LocksOnly(s1, TaskLock(c));
    var s2 := SetTask(s1, c, Freed(s1.tasks[c]));
    LocksOnly(s2, TaskLock(c));
    if Release(s2, TaskLock(c)).Ok? { LocksOnly(Release(s2, TaskLock(c)).s, TaskLock(i)); }
  }

  /** One round of wakeup: task k is not asleep on the channel afterwards, and no other task
      is touched. */
  lemma RoundWakes(s: State, chan: Chan, k: nat)
    requires k < |s.tasks| && WakeOne(s, chan, k).Ok?
    ensures var r := WakeOne(s, chan, k).s;
            && |r.tasks| == |s.tasks| && r.sched == s.sched && r.init == s.init && !SleepsOn(r, k, chan)
            && (forall j: nat :: j < |s.tasks| && j != k ==> r.tasks[j] == s.tasks[j])
            && r.tasks[k] == if SleepsOn(s, k, chan) then s.tasks[k].(status := Runnable) else s.tasks[k]
  {
    hide WakeOne;
    WakeOneOnly(s, chan, k);
  }

  lemma WakeMinor(s: State, i: nat)
    requires Inv(s) && s.sched == Gone(i) && i < |s.tasks| && s.tasks[i].pc.Wake? && TaskStep(s, i).Ok?
    ensures var pc, r := s.tasks[i].pc, TaskStep(s, i).s;
            && AllMinor(s, r, Some(i))
            && if pc.k < |s.tasks|
               then WakePos(r.tasks[i].pc) == Some((pc.chan, pc.k + 1)) && !SleepsOn(r, pc.k, pc.chan)
               else WakePos(r.tasks[i].pc) == None
  {
    hide WakeOne, Inv;
    SelfAwake(s, i);
    var pc := s.tasks[i].pc;
    if pc.k < |s.tasks| { RoundWakes(s, pc.chan, pc.k); }
  }

  lemma TaskMinor(s: State, i: nat)
    requires Inv(s) && s.sched == Gone(i) && i < |s.tasks| && !s.tasks[i].pc.Run? && TaskStep(s, i).Ok?
    ensures AllMinor(s, TaskStep(s, i).s, Some(i))
  {
    hide Inv, Acquire, Release, Resume, ScanOne, Scan4One, WakeOne;
    LocksOnly(s, TaskLock(i));
    match s.tasks[i].pc
    case Switched(next) => ResumeMinor(s, i, next);
    case Relock(lk) => LocksOnly(s, lk);
    case Scan(k, have) => if k < |s.tasks| { ScanMinor(s, i, k, have); }
    case Scan4(d) => if d < |s.tasks| { Scan4Minor(s, i, d); }
    case Wake(_, _, _, _) => WakeMinor(s, i);
    case _ =>
  }

  lemma CallMinor(s: State, i: nat, call: Call)
    requires i < |s.tasks| && s.tasks[i].pc.Run?
    requires Disciplined(s, i, s.tasks[i].pc.held, call) && DoCall(s, i, s.tasks[i].pc.held, call).Ok?
    ensures AllMinor(s, DoCall(s, i, s.tasks[i].pc.held, call).s, Some(i))
  {
    hide Acquire, Release;
    LocksOnly(s, TaskLock(i));
    match call {
      case LockCall(lk) => LocksOnly(s, lk);
      case UnlockCall(lk) => LocksOnly(s, lk);
      case SleepCall(_, lk) =>
        if Acquire(s, TaskLock(i)).Ok? { LocksOnly(Acquire(s, TaskLock(i)).s, lk); }
      case Wait4Call(d) =>
        LocksOnly(s, TaskLock(d));
        if Acquire(s, TaskLock(d)).Ok? { LocksOnly(Acquire(s, TaskLock(d)).s, TaskLock(d)); }
      case _ =>
    }
  }

  lemma TimerMinor(s: State, i: nat)
    requires i < |s.tasks| && Timer(s, i).Ok?
    ensures AllMinor(s, Timer(s, i).s, Some(i)) && WakePos(Timer(s, i).s.tasks[i].pc) == WakePos(s.tasks[i].pc)
  {
    hide Acquire;
    LocksOnly(s.(cpu := s.cpu.(intr := false)), TaskLock(i));
  }

  lemma SchedMinor(s: State)
    requires s.init < |s.tasks| && !s.sched.Gone? && SchedStep(s).Ok?
    ensures AllMinor(s, SchedStep(s).s, None)
  {
    hide Acquire, Release;
    LocksOnly(s, TaskLock(s.sched.i));
    LocksOnly(s.(cpu := s.cpu.(task := None)), TaskLock(s.sched.i));
    LocksOnly(Poke(s), TaskLock(s.sched.i));
  }

  // ---- The interrupt handler ------------------------------------------------------------------------

  lemma {:induction false} WakesFrom(s: State, chan: Chan, k: nat)
    requires k <= |s.tasks| && WakeFrom(s, chan, k).Ok?
    ensures var r := WakeFrom(s, chan, k).s;
            && r.sched == s.sched && r.init == s.init && |r.tasks| == |s.tasks|
            && forall j: nat :: j < |s.tasks| ==>
                r.tasks[j] == if k <= j && SleepsOn(s, j, chan) then s.tasks[j].(status := Runnable) else s.tasks[j]
    decreases |s.tasks| - k
  {
    hide WakeOne;
    if k < |s.tasks| {
      RoundWakes(s, chan, k);
      WakesFrom(WakeOne(s, chan, k).s, chan, k + 1);
    }
  }

  /** A device interrupt makes exactly the sleepers on its channel runnable. */
  lemma HandlerWakes(s: State, chan: Chan)
    requires Inv(s) && s.cpu.intr
    ensures Device(s, chan).Ok?
    ensures var r := Device(s, chan).s;
            && r.sched == s.sched && r.init == s.init && |r.tasks| == |s.tasks|
            && forall j: nat :: j < |s.tasks| ==>
                 && r.tasks[j] == s.tasks[j].(status := r.tasks[j].status)
                 && r.tasks[j].status ==
                      (if s.tasks[j].status == Sleeping && s.tasks[j].chan == chan then Runnable else s.tasks[j].status)
  {
    hide Inv, WakeFrom;
    DeviceOk(s, chan);
    WakesFrom(s.(cpu := s.cpu.(intr := false)), chan, 0);
  }

  // ---- Any step ------------------------------------------------------------------------------------

  // The task that takes a step, if any.
  function Actor(s: State, a: Action): Option<nat> {
    if s.sched.Gone? && (a == TaskAct || a.CallAct? || a == TimerAct) then Some(s.sched.i) else None
  }

  lemma StepMinor(s: State, a: Action)
    requires Inv(s) && Enabled(s, a) && s.init < |s.tasks| && Do(s, a).Ok?
    ensures AllMinor(s, Do(s, a).s, Actor(s, a))
  {
    hide Inv, SchedStep, TaskStep, DoCall, Timer, Device, Minor;
    match a
    case SchedAct => SchedMinor(s);
    case TaskAct => TaskMinor(s, s.sched.i);
    case CallAct(call) => CallMinor(s, s.sched.i, call);
    case TimerAct => if s.sched.Gone? { TimerMinor(s, s.sched.i); } else { NothingMinor(s); }
    case DeviceAct(chan) => HandlerWakes(s, chan); HandlerMinor(s, Device(s, chan).s);
  }

  lemma NothingMinor(s: State)
    ensures AllMinor(s, s, None)
  {
  }

  lemma HandlerMinor(s: State, r: State)
    requires |r.tasks| == |s.tasks|
    requires forall j: nat :: j < |s.tasks| ==>
               r.tasks[j] == s.tasks[j] || r.tasks[j] == s.tasks[j].(status := Runnable)
    ensures AllMinor(s, r, None)
  {
  }

  // A task that stays asleep stays on its channel.
  lemma StaysOn(s: State, a: Action, j: nat, chan: Chan)
    requires Inv(s) && Enabled(s, a) && s.init < |s.tasks| && Do(s, a).Ok? && SleepsOn(s, j, chan)
    ensures |Do(s, a).s.tasks| == |s.tasks|
    ensures Do(s, a).s.tasks[j].status == Sleeping ==> SleepsOn(Do(s, a).s, j, chan)
  {
    hide Inv, Do;
    StepMinor(s, a);
    if Actor(s, a) == Some(j) { SelfAwake(s, j); }
  }

  // A wakeup stands still, goes on to the next task, or ends after the last one.
  lemma WakerStep(s: State, a: Action, i: nat, chan: Chan, k: nat)
    requires Inv(s) && Enabled(s, a) && s.init < |s.tasks| && Do(s, a).Ok?
    requires i < |s.tasks| && WakePos(s.tasks[i].pc) == Some((chan, k))
    ensures var r := Do(s, a).s;
            && |r.tasks| == |s.tasks|
            && var p := WakePos(r.tasks[i].pc);
               || p == Some((chan, k))
               || (k < |s.tasks| && p == Some((chan, k + 1)) && !SleepsOn(r, k, chan))
               || (k >= |s.tasks| && p == None)
  {
    hide Inv, SchedStep, TaskStep, DoCall, Timer, Device;
    StepMinor(s, a);
    if Actor(s, a) != Some(i) {
      NotUnused(s, i);
    } else if a == TimerAct {
      TimerMinor(s, i);
    } else if s.tasks[i].pc.Wake? {
      WakeMinor(s, i);
    } else {
      ResumesWakeup(s, i);
    }
  }

  lemma NotUnused(s: State, i: nat)
    requires Inv(s) && i < |s.tasks| && WakePos(s.tasks[i].pc).Some?
    ensures s.tasks[i].status != Unused
  {
    hide PcOk;
    assert TaskOk(s.tasks[i], i, s.sched == Gone(i), s.init);
  }

  lemma ResumesWakeup(s: State, i: nat)
    requires i < |s.tasks| && s.tasks[i].pc.Switched? && WakePos(s.tasks[i].pc).Some? && TaskStep(s, i).Ok?
    ensures |TaskStep(s, i).s.tasks| == |s.tasks|
    ensures WakePos(TaskStep(s, i).s.tasks[i].pc) == WakePos(s.tasks[i].pc)
  {
    hide Resume;
    ResumeMinor(s, i, s.tasks[i].pc.next);
  }

  lemma Starts(s: State, a: Action, i: nat, chan: Chan)
    requires StartsWakeup(s, a, i, chan) && Enabled(s, a) && s.init < |s.tasks| && Do(s, a).Ok?
    ensures i < |Do(s, a).s.tasks| && WakePos(Do(s, a).s.tasks[i].pc) == Some((chan, 0))
  {
  }

  // ---- Whole wakeups ---------------------------------------------------------------------------------

  // A task is awake in one of the first n + 1 states of a run.
  ghost predicate AwakeBy(states: seq<State>, j: nat, n: nat) {
    exists m :: 0 <= m <= n && m < |states| && j < |states[m].tasks| && states[m].tasks[j].status != Sleeping
  }

  // After n steps the wakeup has passed the tasks before its place, and each of them, if it
  // slept on the channel, has been awake.
  lemma {:induction false} PassedAwake(states: seq<State>, acts: seq<Action>, i: nat, chan: Chan, j: nat, n: nat)
    requires IsRun(states, acts) && 0 < n < |states| && StartsWakeup(states[0], acts[0], i, chan)
    requires forall m :: 0 < m <= n ==> InWakeup(states[m], i)
    requires SleepsOn(states[0], j, chan)
    ensures |states[n].tasks| == |states[0].tasks|
    ensures AwakeBy(states, j, n) || SleepsOn(states[n], j, chan)
    ensures InWakeup(states[n], i)
    ensures var p := WakePos(states[n].tasks[i].pc).value; p.0 == chan && (p.1 <= j || AwakeBy(states, j, n))
  {
    hide Inv, Do, WakePos, StartsWakeup;
    IsRunInv(states, acts, n - 1);
    var s, a := states[n - 1], acts[n - 1];
    assert Enabled(s, a) && s.init < |s.tasks| && Do(s, a) == Ok(states[n - 1 + 1]);
    assert InWakeup(states[n], i);
    if n == 1 {
      Starts(s, a, i, chan);
      StaysOn(s, a, j, chan);
    } else {
      PassedAwake(states, acts, i, chan, j, n - 1);
      assert InWakeup(s, i) && InWakeup(states[n], i);
      WakerStep(s, a, i, chan, WakePos(s.tasks[i].pc).value.1);
      if !AwakeBy(states, j, n - 1) { StaysOn(s, a, j, chan); }
      Awaker(states, j, n - 1);
    }
    AwakeNow(states, j, n);
  }

  lemma Awaker(states: seq<State>, j: nat, n: nat)
    ensures AwakeBy(states, j, n) ==> AwakeBy(states, j, n + 1)
  {
  }

  lemma AwakeNow(states: seq<State>, j: nat, n: nat)
    requires n < |states| && j < |states[n].tasks|
    ensures states[n].tasks[j].status != Sleeping ==> AwakeBy(states, j, n)
  {
  }

  /** No sleeper is missed by a wakeup: in any run from the step that starts it to the step
      that ends its loop, with whatever else happens in between, every task asleep on the
      channel at the start is awake in some state. */
  lemma WakeupWakes(states: seq<State>, acts: seq<Action>, i: nat, chan: Chan, j: nat)
    requires IsRun(states, acts) && |acts| > 1 && StartsWakeup(states[0], acts[0], i, chan)
    requires forall m :: 0 < m < |acts| ==> InWakeup(states[m], i)
    requires !InWakeup(states[|acts|], i)
    requires SleepsOn(states[0], j, chan)
    ensures exists m :: 0 <= m < |states| && j < |states[m].tasks| && states[m].tasks[j].status != Sleeping
  {
    hide Inv, Do, WakePos, StartsWakeup;
    var n := |acts| - 1;
    PassedAwake(states, acts, i, chan, j, n);
    IsRunInv(states, acts, n);
    assert InWakeup(states[n], i);
    WakerStep(states[n], acts[n], i, chan, WakePos(states[n].tasks[i].pc).value.1);
    assert AwakeBy(states, j, n);
  }

  // ---- The other side: sleep -------------------------------------------------------------------------

  /** sleep puts the caller, and nobody else, to sleep on the channel it names, gives up the
      lock it was given, and hands the CPU back. */
  lemma SleepSleeps(s: State, chan: Chan, lk: Lock)
    requires Inv(s) && Enabled(s, CallAct(SleepCall(chan, lk)))
    ensures s.init < |s.tasks| && Do(s, CallAct(SleepCall(chan, lk))).Ok?
    ensures var i, r := s.sched.i, Do(s, CallAct(SleepCall(chan, lk))).s;
            && |r.tasks| == |s.tasks| && r.sched == Back(i) && r.locks == {TaskLock(i)}
            && r.tasks[i].status == Sleeping && r.tasks[i].chan == chan && lk !in r.locks
            && forall j: nat :: j < |s.tasks| && j != i ==> r.tasks[j] == s.tasks[j]
  {
    hide Inv, Acquire, Release, PcOk;
    StepInv(s, CallAct(SleepCall(chan, lk)));
    var i := s.sched.i;
    CurrentOk(s, i);
    LocksOnly(s, TaskLock(i));
    LocksOnly(Acquire(s, TaskLock(i)).s, lk);
    HeldIsOther(s, lk);
    GoodPlace(Do(s, CallAct(SleepCall(chan, lk))).s);
  }

  lemma HeldIsOther(s: State, lk: Lock)
    requires Inv(s) && s.sched.Gone? && s.sched.i < |s.tasks| && s.tasks[s.sched.i].pc == Run({lk})
    ensures lk.Other?
  {
    assert TaskOk(s.tasks[s.sched.i], s.sched.i, true, s.init);
  }

  lemma GoodPlace(s: State)
    requires Inv(s)
    ensures s.sched.Back? ==> s.locks == {TaskLock(s.sched.i)}
  {
  }

  /** A sleeper that is scheduled again returns from sleep in two steps, on no channel and
      with exactly the lock it gave up. */
  lemma SleepReturns(s: State, lk: Lock)
    requires Inv(s) && s.sched.Gone? && s.sched.i < |s.tasks| && s.tasks[s.sched.i].pc == Switched(AfterSleep(lk))
    ensures s.init < |s.tasks| && Enabled(s, TaskAct) && Do(s, TaskAct).Ok?
    ensures var s1 := Do(s, TaskAct).s; s1.init < |s1.tasks| && Enabled(s1, TaskAct) && Do(s1, TaskAct).Ok?
    ensures var i, r := s.sched.i, Do(Do(s, TaskAct).s, TaskAct).s;
            && r.sched == s.sched && |r.tasks| == |s.tasks| && r.locks == {lk}
            && r.tasks[i].pc == Run({lk}) && r.tasks[i].status == Running && r.tasks[i].chan == NoChan
  {
    hide Inv, Acquire, Release, PcOk;
    var i := s.sched.i;
    CurrentOk(s, i);
    StepInv(s, TaskAct);
    var s0 := s.(cpu := s.cpu.(enable := s.tasks[i].saved));
    LocksOnly(SetTask(s0, i, s0.tasks[i].(chan := NoChan)), TaskLock(i));
    var s1 := Do(s, TaskAct).s;
    CurrentOk(s1, i);
    StepInv(s1, TaskAct);
    LocksOnly(s1, lk);
    GonePlace(Do(s1, TaskAct).s);
  }

  lemma GonePlace(s: State)
    requires Inv(s) && s.sched.Gone?
    ensures s.sched.i < |s.tasks| && s.locks == LocksAt(s.tasks[s.sched.i].pc, s.sched.i)
  {
  }

  // ---- Preemption ------------------------------------------------------------------------------------

  /** A timer interrupt takes the CPU from the running task, which stays runnable. */
  lemma TimerPreempts(s: State)
    requires Inv(s) && Enabled(s, TimerAct) && s.sched.Gone? && s.tasks[s.sched.i].status == Running
    ensures s.init < |s.tasks| && Do(s, TimerAct).Ok?
    ensures var i, r := s.sched.i, Do(s, TimerAct).s;
            && r.sched == Back(i) && |r.tasks| == |s.tasks|
            && r.tasks[i].status == Runnable && r.tasks[i].pc == Switched(AfterYield(s.tasks[i].pc, true))
            && forall j: nat :: j < |s.tasks| && j != i ==> r.tasks[j] == s.tasks[j]
  {
    hide Inv, Acquire;
    StepInv(s, TimerAct);
    LocksOnly(s.(cpu := s.cpu.(intr := false)), TaskLock(s.sched.i));
  }

  /** Scheduled again, a preempted task goes on where it was, without locks and with
      interrupts on. */
  lemma PreemptedGoesOn(s: State, pc: Pc)
    requires Inv(s) && s.sched.Gone? && s.sched.i < |s.tasks|
    requires s.tasks[s.sched.i].pc == Switched(AfterYield(pc, true))
    ensures s.init < |s.tasks| && Enabled(s, TaskAct) && Do(s, TaskAct).Ok?
    ensures var i, r := s.sched.i, Do(s, TaskAct).s;
            && r.sched == s.sched && |r.tasks| == |s.tasks| && r.cpu.intr && r.locks == {}
            && r.tasks[i] == s.tasks[i].(pc := pc)
            && forall j: nat :: j < |s.tasks| && j != i ==> r.tasks[j] == s.tasks[j]
  {
    hide Inv, Acquire, Release, PcOk;
    var i := s.sched.i;
    StepInv(s, TaskAct);
    LocksOnly(s.(cpu := s.cpu.(enable := s.tasks[i].saved)), TaskLock(i));
    InterruptsOnUnlocked(Do(s, TaskAct).s);
  }

  lemma InterruptsOnUnlocked(s: State)
    requires Inv(s)
    ensures s.cpu.intr ==> s.locks == {}
  {
  }
}
