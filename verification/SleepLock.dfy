/** kernel/os/SleepLock.cpp over sleep, wakeup, yield and the scheduler of
    kernel/os/TaskScheduler.cpp and the spin locks of kernel/os/SpinLock.cpp, for any
    number of tasks and CPUs, one atomic action at a time. */
module SleepLock {
  import opened Common

  datatype RunState = RUNNABLE | RUNNING | SLEEPING

  /** Why a task gives up its CPU: to wait for the lock, or at a timer tick while
      it holds the lock or not. */
  datatype Why = ForLock | TickFree | TickHeld

  /** What a task does next.
      lock: Acquire, Check, Taken; sleep: SleepTask, SleepRelease, SleepMark, Switch,
      Off, Resumed; unlock: Drop, Clear, Wake, WakeIn, Leave; yield: Yield, YieldMark. */
  datatype Pc =
    | Out                 // not using the lock
    | Acquire             // spinning for the lock's spin lock
    | Check               // spin lock held: test locked
    | Taken               // spin lock held, locked set: about to release the spin lock
    | SleepTask           // spin lock held: acquire the task's own lock
    | SleepRelease        // both held: release the spin lock
    | SleepMark           // own lock held: set chan and SLEEPING
    | Yield(why: Why)     // acquire the task's own lock
    | YieldMark(why: Why) // own lock held: set RUNNABLE
    | Switch(why: Why)    // own lock held: prepareSched, pswitch
    | Off(why: Why)       // switched out
    | Resumed(why: Why)   // running again, own lock held: release it
    | Held                // holds the sleep lock
    | Drop                // spinning for the spin lock, to unlock
    | Clear               // spin lock held: clear locked
    | Wake(i: nat)        // spin lock held: acquire the lock of task i
    | WakeIn(i: nat)      // spin lock and the lock of task i held
    | Leave               // spin lock held: release it

  datatype Holder = Task(t: nat) | Sched(c: nat)

  /** What a CPU does: look for a task, hold the lock of one it looks at, run one, or
      hold the lock of one that just switched out. */
  datatype Cpu = Idle | Look(t: nat) | Run(t: nat) | Back(t: nat)

  datatype State = State(
    spin: Option<nat>,            // the task that holds the spin lock
    locked: bool,
    pid: Option<nat>,
    own: seq<Option<Holder>>,     // the lock of each task
    run: seq<RunState>,
    chan: seq<bool>,              // whether the task's chan is this lock
    pc: seq<Pc>,
    cpu: seq<Cpu>)

  // Well-formed: one entry of each kind per task, and locked exactly when pid names a task.
  predicate Formed(s: State) {
    Shaped(s) && (s.locked <==> s.pid.Some?) && (s.pid.Some? ==> s.pid.value < |s.pc|)
  }

  // The same tasks and CPUs, none of which starts to run a task.
  predicate SameShape(s: State, s': State) {
    && Formed(s') && |s'.pc| == |s.pc| && |s'.cpu| == |s.cpu|
    && forall d :: 0 <= d < |s.cpu| && s'.cpu[d].Run? ==> s'.cpu[d] == s.cpu[d]
  }

  // ---- Actions -------------------------------------------------------------------

  datatype Action =
    | Do(c: nat, tick: bool)      // CPU c performs the next action of its task
    | Pick(c: nat, t: nat)        // the scheduler of c acquires the lock of task t
    | Switched(c: nat)            // it runs the task, or lets it be
    | Release(c: nat)             // it releases the lock of the task that switched out
    | Rouse(t: nat)               // another wakeup or kill makes t RUNNABLE, t's lock being free

  predicate Shaped(s: State) {
    |s.own| == |s.run| == |s.chan| == |s.pc|
  }

  // lock, outside of sleep.
  function LockStep(s: State, t: nat, tick: bool): (s': State)
    requires Formed(s) && t < |s.pc|
    ensures SameShape(s, s')
  {
    match s.pc[t]
    case Out => s.(pc := s.pc[t := if tick then Yield(TickFree) else Acquire])
    case Acquire => if s.spin == None then s.(spin := Some(t), pc := s.pc[t := Check]) else s
    case Check =>
      if s.locked then s.(pc := s.pc[t := SleepTask])
      else s.(locked := true, pid := Some(t), pc := s.pc[t := Taken])
    case Taken => s.(spin := None, pc := s.pc[t := Held])
    case Held => s.(pc := s.pc[t := if tick then Yield(TickHeld) else Drop])
    case _ => s
  }

  // sleep up to the context switch, and yield.
  function SleepStep(s: State, c: nat, t: nat): (s': State)
    requires Formed(s) && t < |s.pc| && c < |s.cpu|
    ensures SameShape(s, s')
  {
    match s.pc[t]
    case SleepTask =>
      if s.own[t] == None then s.(own := s.own[t := Some(Task(t))], pc := s.pc[t := SleepRelease]) else s
    case SleepRelease => s.(spin := None, pc := s.pc[t := SleepMark])
    case SleepMark => s.(chan := s.chan[t := true], run := s.run[t := SLEEPING], pc := s.pc[t := Switch(ForLock)])
    case Yield(w) =>
      if s.own[t] == None then s.(own := s.own[t := Some(Task(t))], pc := s.pc[t := YieldMark(w)]) else s
    case YieldMark(w) => s.(run := s.run[t := RUNNABLE], pc := s.pc[t := Switch(w)])
    case _ => s
  }

  // The context switch out of a task, with its lock, and what it does when it is back.
  function SwitchStep(s: State, c: nat, t: nat): (s': State)
    requires Formed(s) && t < |s.pc| && c < |s.cpu|
    ensures SameShape(s, s')
  {
    match s.pc[t]
    case Switch(w) => s.(own := s.own[t := Some(Sched(c))], cpu := s.cpu[c := Back(t)], pc := s.pc[t := Off(w)])
    case Resumed(w) =>
      s.(own := s.own[t := None], chan := s.chan[t := if w == ForLock then false else s.chan[t]],
         pc := s.pc[t := if w == ForLock then Acquire else if w == TickHeld then Held else Out])
    case _ => s
  }

  // unlock, with the loop of wakeup.
  function UnlockStep(s: State, t: nat): (s': State)
    requires Formed(s) && t < |s.pc|
    ensures SameShape(s, s')
  {
    match s.pc[t]
    case Drop => if s.spin == None then s.(spin := Some(t), pc := s.pc[t := Clear]) else s
    case Clear => s.(locked := false, pid := None, pc := s.pc[t := Wake(0)])
    case Wake(i) =>
      if i >= |s.pc| then s.(pc := s.pc[t := Leave])
      else if s.own[i] == None then s.(own := s.own[i := Some(Task(t))], pc := s.pc[t := WakeIn(i)]) else s
    case WakeIn(i) =>
      if i >= |s.pc| then s
      else
        var run' := if s.run[i] == SLEEPING && s.chan[i] then s.run[i := RUNNABLE] else s.run;
        s.(own := s.own[i := None], run := run', pc := s.pc[t := Wake(i + 1)])
    case Leave => s.(spin := None, pc := s.pc[t := Out])
    case _ => s
  }

  // The next action of task t, running on CPU c.
  function TaskStep(s: State, c: nat, t: nat, tick: bool): (s': State)
    requires Formed(s) && t < |s.pc| && c < |s.cpu|
    ensures SameShape(s, s')
  {
    var p := s.pc[t];
    if p.Out? || p.Acquire? || p.Check? || p.Taken? || p.Held? then LockStep(s, t, tick)
    else if p.Switch? || p.Resumed? then SwitchStep(s, c, t)
    else if p.Drop? || p.Clear? || p.Wake? || p.WakeIn? || p.Leave? then UnlockStep(s, t)
    else SleepStep(s, c, t)
  }

  function Step(s: State, a: Action): Option<State>
    requires Formed(s)
  {
    match a
    case Do(c, tick) =>
      if c < |s.cpu| && s.cpu[c].Run? && s.cpu[c].t < |s.pc| then Some(TaskStep(s, c, s.cpu[c].t, tick)) else None
    case Pick(c, t) =>
      if c < |s.cpu| && s.cpu[c] == Idle && t < |s.pc| && s.own[t] == None
      then Some(s.(own := s.own[t := Some(Sched(c))], cpu := s.cpu[c := Look(t)])) else None
    case Switched(c) =>
      if c < |s.cpu| && s.cpu[c].Look? && s.cpu[c].t < |s.pc| then
        var t := s.cpu[c].t;
        if s.run[t] == RUNNABLE && s.pc[t].Off? then
          Some(s.(run := s.run[t := RUNNING], own := s.own[t := Some(Task(t))],
                  cpu := s.cpu[c := Run(t)], pc := s.pc[t := Resumed(s.pc[t].why)]))
        else if s.run[t] == RUNNABLE then None
        else Some(s.(own := s.own[t := None], cpu := s.cpu[c := Idle]))
      else None
    case Release(c) =>
      if c < |s.cpu| && s.cpu[c].Back? && s.cpu[c].t < |s.pc|
      then Some(s.(own := s.own[s.cpu[c].t := None], cpu := s.cpu[c := Idle])) else None
    case Rouse(t) =>
      if t < |s.pc| && s.own[t] == None && s.run[t] == SLEEPING then Some(s.(run := s.run[t := RUNNABLE])) else None
  }

  // ---- The invariant ---------------------------------------------------------------

  predicate InSpin(p: Pc) {
    p.Check? || p.Taken? || p.SleepTask? || p.SleepRelease? || p.Clear? || p.Wake? || p.WakeIn? || p.Leave?
  }

  predicate InOwn(p: Pc) {
    p.SleepRelease? || p.SleepMark? || p.YieldMark? || p.Switch? || p.Resumed?
  }

  // The task holds the sleep lock.
  predicate Holds(p: Pc) {
    || p.Taken? || p.Held? || p.Drop? || p.Clear?
    || ((p.Yield? || p.YieldMark? || p.Switch? || p.Off? || p.Resumed?) && p.why == TickHeld)
  }

  // The task is asleep on the lock, or will be without testing locked again.
  predicate Committed(p: Pc, r: RunState) {
    p.SleepMark? || p == Switch(ForLock) || (p == Off(ForLock) && r == SLEEPING)
  }

  // A wakeup is under way and has not passed task t.
  predicate WakeComing(s: State, t: nat) {
    && s.spin.Some? && s.spin.value < |s.pc|
    && (s.pc[s.spin.value].Wake? || s.pc[s.spin.value].WakeIn?) && s.pc[s.spin.value].i <= t
  }

  // A task is inside the spin lock, holds the sleep lock and has its own lock exactly where its code says so.
  predicate TaskOk(s: State, t: nat)
    requires Shaped(s) && t < |s.pc|
  {
    var p := s.pc[t];
    && (InSpin(p) <==> s.spin == Some(t))
    && (Holds(p) <==> s.pid == Some(t))
    && (p.SleepTask? || p.SleepRelease? ==> s.locked)
    && (InOwn(p) ==> s.own[t] == Some(Task(t)))
    && (p.WakeIn? ==> p.i < |s.pc| && s.own[p.i] == Some(Task(t)))
  }

  // Its run state fits, and it is committed to sleep only while the lock is taken or a wakeup is on its way.
  predicate RunOk(s: State, t: nat)
    requires Shaped(s) && t < |s.pc|
  {
    var p, r := s.pc[t], s.run[t];
    && (r == SLEEPING ==> p == Switch(ForLock) || p == Off(ForLock))
    && (r == RUNNABLE ==> p.Switch? || p.Off?)
    && (p.Off? || p.Switch? ==> r != RUNNING)
    && (p == Off(ForLock) || p == Switch(ForLock) ==> s.chan[t])
    && (p == Switch(ForLock) ==> r == SLEEPING)
    && (p.Yield? || p.YieldMark? ==> p.why != ForLock)
    && (!s.locked && Committed(p, r) ==> WakeComing(s, t))
  }

  // The holder of a task's lock, across context switches, is where it holds it.
  predicate LockOk(s: State, i: nat)
    requires Shaped(s) && i < |s.pc|
  {
    match s.own[i]
    case None => true
    case Some(Task(t)) => t < |s.pc| && ((t == i && InOwn(s.pc[t])) || s.pc[t] == WakeIn(i))
    case Some(Sched(c)) => c < |s.cpu| && (s.cpu[c] == Look(i) || s.cpu[c] == Back(i))
  }

  predicate CpuOk(s: State, c: nat)
    requires Shaped(s) && c < |s.cpu|
  {
    match s.cpu[c]
    case Idle => true
    case Run(t) => t < |s.pc| && !s.pc[t].Off?
    case Look(t) => t < |s.pc| && s.own[t] == Some(Sched(c))
    case Back(t) => t < |s.pc| && s.own[t] == Some(Sched(c)) && s.pc[t].Off?
  }

  ghost predicate Inv(s: State) {
    && Formed(s)
    && (forall t {:trigger TaskOk(s, t)} :: 0 <= t < |s.pc| ==> TaskOk(s, t))
    && (forall t {:trigger RunOk(s, t)} :: 0 <= t < |s.pc| ==> RunOk(s, t))
    && (forall i {:trigger LockOk(s, i)} :: 0 <= i < |s.pc| ==> LockOk(s, i))
    && (forall c {:trigger CpuOk(s, c)} :: 0 <= c < |s.cpu| ==> CpuOk(s, c))
    && (forall c, d :: 0 <= c < |s.cpu| && 0 <= d < |s.cpu| && s.cpu[c].Run? && s.cpu[d] == s.cpu[c] ==> c == d)
  }

  // At the start every task is switched out, ready to run outside the lock.
  ghost predicate Init(s: State) {
    && Shaped(s) && s.spin == None && !s.locked && s.pid == None
    && (forall t :: 0 <= t < |s.pc| ==>
        s.own[t] == None && s.run[t] == RUNNABLE && !s.chan[t] && s.pc[t] == Off(TickFree))
    && (forall c :: 0 <= c < |s.cpu| ==> s.cpu[c] == Idle)
  }

  lemma InitInv(s: State)
    requires Init(s)
    ensures Inv(s)
  {
  }

  // Task t is running on CPU c.
  ghost predicate Running(s: State, c: nat, t: nat) {
    Inv(s) && c < |s.cpu| && t < |s.pc| && s.cpu[c] == Run(t)
  }

  lemma LockKeepsTask(s: State, c: nat, t: nat, tick: bool, u: nat)
    requires Running(s, c, t) && u < |s.pc|
    ensures var s' := LockStep(s, t, tick); Shaped(s') && |s'.pc| == |s.pc| && TaskOk(s', u)
  {
    assert TaskOk(s, t) && TaskOk(s, u) && LockOk(s, t) && LockOk(s, u) && CpuOk(s, c);
    if s.pid.Some? { assert TaskOk(s, s.pid.value); }
  }

  lemma LockKeepsRun(s: State, c: nat, t: nat, tick: bool, u: nat)
    requires Running(s, c, t) && u < |s.pc|
    ensures var s' := LockStep(s, t, tick); Shaped(s') && |s'.pc| == |s.pc| && RunOk(s', u)
  {
    hide TaskOk, RunOk;
    assert TaskOk(s, t) && RunOk(s, t) && RunOk(s, u);
    if u == t { LockRunSelf(s, t, tick); } else { LockRunOther(s, t, tick, u); }
  }

  lemma LockRunSelf(s: State, t: nat, tick: bool)
    requires Formed(s) && t < |s.pc| && TaskOk(s, t) && RunOk(s, t)
    ensures RunOk(LockStep(s, t, tick), t)
  {
  }

  lemma LockRunOther(s: State, t: nat, tick: bool, u: nat)
    requires Formed(s) && t < |s.pc| && u < |s.pc| && u != t && TaskOk(s, t) && RunOk(s, u)
    ensures RunOk(LockStep(s, t, tick), u)
  {
  }

  lemma LockKeepsLock(s: State, c: nat, t: nat, tick: bool, i: nat)
    requires Running(s, c, t) && i < |s.pc|
    ensures var s' := LockStep(s, t, tick); Shaped(s') && |s'.pc| == |s.pc| && LockOk(s', i)
  {
    assert TaskOk(s, t) && LockOk(s, i) && LockOk(s, t) && CpuOk(s, c);
  }

  lemma LockKeepsCpu(s: State, c: nat, t: nat, tick: bool, d: nat)
    requires Running(s, c, t) && d < |s.cpu|
    ensures var s' := LockStep(s, t, tick); Shaped(s') && |s'.cpu| == |s.cpu| && CpuOk(s', d)
  {
    assert TaskOk(s, t) && CpuOk(s, c) && CpuOk(s, d);
  }

  lemma SleepKeepsTask(s: State, c: nat, t: nat, u: nat)
    requires Running(s, c, t) && u < |s.pc|
    ensures var s' := SleepStep(s, c, t); Shaped(s') && |s'.pc| == |s.pc| && TaskOk(s', u)
  {
    assert TaskOk(s, t) && TaskOk(s, u) && LockOk(s, t) && LockOk(s, u) && CpuOk(s, c);
    if s.pid.Some? { assert TaskOk(s, s.pid.value); }
  }

  lemma SleepKeepsRun(s: State, c: nat, t: nat, u: nat)
    requires Running(s, c, t) && u < |s.pc|
    ensures var s' := SleepStep(s, c, t); Shaped(s') && |s'.pc| == |s.pc| && RunOk(s', u)
  {
    assert TaskOk(s, t) && TaskOk(s, u) && RunOk(s, t) && RunOk(s, u) && CpuOk(s, c) && LockOk(s, u);
    if s.spin.Some? && s.spin.value < |s.pc| { assert TaskOk(s, s.spin.value); }
    if s.pid.Some? { assert TaskOk(s, s.pid.value); }
  }

  lemma SleepKeepsLock(s: State, c: nat, t: nat, i: nat)
    requires Running(s, c, t) && i < |s.pc|
    ensures var s' := SleepStep(s, c, t); Shaped(s') && |s'.pc| == |s.pc| && LockOk(s', i)
  {
    assert TaskOk(s, t) && LockOk(s, i) && LockOk(s, t) && CpuOk(s, c);
  }

  lemma SleepKeepsCpu(s: State, c: nat, t: nat, d: nat)
    requires Running(s, c, t) && d < |s.cpu|
    ensures var s' := SleepStep(s, c, t); Shaped(s') && |s'.cpu| == |s.cpu| && CpuOk(s', d)
  {
    assert TaskOk(s, t) && CpuOk(s, c) && CpuOk(s, d);
  }

  lemma SwitchKeepsTask(s: State, c: nat, t: nat, u: nat)
    requires Running(s, c, t) && u < |s.pc|
    ensures var s' := SwitchStep(s, c, t); Shaped(s') && |s'.pc| == |s.pc| && TaskOk(s', u)
  {
    assert TaskOk(s, t) && TaskOk(s, u) && LockOk(s, t) && LockOk(s, u) && CpuOk(s, c);
    if s.pid.Some? { assert TaskOk(s, s.pid.value); }
  }

  lemma SwitchKeepsRun(s: State, c: nat, t: nat, u: nat)
    requires Running(s, c, t) && u < |s.pc|
    ensures var s' := SwitchStep(s, c, t); Shaped(s') && |s'.pc| == |s.pc| && RunOk(s', u)
  {
    assert TaskOk(s, t) && TaskOk(s, u) && RunOk(s, t) && RunOk(s, u) && CpuOk(s, c) && LockOk(s, u);
    if s.spin.Some? && s.spin.value < |s.pc| { assert TaskOk(s, s.spin.value); }
    if s.pid.Some? { assert TaskOk(s, s.pid.value); }
  }

  lemma SwitchKeepsLock(s: State, c: nat, t: nat, i: nat)
    requires Running(s, c, t) && i < |s.pc|
    ensures var s' := SwitchStep(s, c, t); Shaped(s') && |s'.pc| == |s.pc| && LockOk(s', i)
  {
    assert TaskOk(s, t) && LockOk(s, i) && LockOk(s, t) && CpuOk(s, c);
  }

  lemma SwitchKeepsCpu(s: State, c: nat, t: nat, d: nat)
    requires Running(s, c, t) && d < |s.cpu|
    ensures var s' := SwitchStep(s, c, t); Shaped(s') && |s'.cpu| == |s.cpu| && CpuOk(s', d)
  {
    assert TaskOk(s, t) && CpuOk(s, c) && CpuOk(s, d);
  }

  lemma UnlockKeepsTask(s: State, c: nat, t: nat, u: nat)
    requires Running(s, c, t) && u < |s.pc|
    ensures var s' := UnlockStep(s, t); Shaped(s') && |s'.pc| == |s.pc| && TaskOk(s', u)
  {
    assert TaskOk(s, t) && TaskOk(s, u) && LockOk(s, t) && LockOk(s, u) && CpuOk(s, c);
    if s.pid.Some? { assert TaskOk(s, s.pid.value); }
  }

  lemma UnlockKeepsRun(s: State, c: nat, t: nat, u: nat)
    requires Running(s, c, t) && u < |s.pc|
    ensures var s' := UnlockStep(s, t); Shaped(s') && |s'.pc| == |s.pc| && RunOk(s', u)
  {
    assert TaskOk(s, t) && TaskOk(s, u) && RunOk(s, t) && RunOk(s, u) && CpuOk(s, c) && LockOk(s, u);
    if s.spin.Some? && s.spin.value < |s.pc| { assert TaskOk(s, s.spin.value); }
    if s.pid.Some? { assert TaskOk(s, s.pid.value); }
  }

  lemma UnlockKeepsLock(s: State, c: nat, t: nat, i: nat)
    requires Running(s, c, t) && i < |s.pc|
    ensures var s' := UnlockStep(s, t); Shaped(s') && |s'.pc| == |s.pc| && LockOk(s', i)
  {
    assert TaskOk(s, t) && LockOk(s, i) && LockOk(s, t) && CpuOk(s, c);
  }

  lemma UnlockKeepsCpu(s: State, c: nat, t: nat, d: nat)
    requires Running(s, c, t) && d < |s.cpu|
    ensures var s' := UnlockStep(s, t); Shaped(s') && |s'.cpu| == |s.cpu| && CpuOk(s', d)
  {
    assert TaskOk(s, t) && CpuOk(s, c) && CpuOk(s, d);
  }

  lemma TaskStepInv(s: State, c: nat, t: nat, tick: bool)
    requires Running(s, c, t)
    ensures Inv(TaskStep(s, c, t, tick))
  {
    var s' := TaskStep(s, c, t, tick);
    hide TaskOk, RunOk, LockOk, CpuOk, LockStep, SleepStep, SwitchStep, UnlockStep;
    forall u | 0 <= u < |s.pc| ensures TaskOk(s', u) && RunOk(s', u) && LockOk(s', u) {
      LockKeepsTask(s, c, t, tick, u);
      LockKeepsRun(s, c, t, tick, u);
      LockKeepsLock(s, c, t, tick, u);
      SleepKeepsTask(s, c, t, u);
      SleepKeepsRun(s, c, t, u);
      SleepKeepsLock(s, c, t, u);
      SwitchKeepsTask(s, c, t, u);
      SwitchKeepsRun(s, c, t, u);
      SwitchKeepsLock(s, c, t, u);
      UnlockKeepsTask(s, c, t, u);
      UnlockKeepsRun(s, c, t, u);
      UnlockKeepsLock(s, c, t, u);
    }
    forall d | 0 <= d < |s.cpu| ensures CpuOk(s', d) {
      LockKeepsCpu(s, c, t, tick, d);
      SleepKeepsCpu(s, c, t, d);
      SwitchKeepsCpu(s, c, t, d);
      UnlockKeepsCpu(s, c, t, d);
    }
  }

  // The scheduler's actions and other wakeups.
  lemma SchedKeepsTask(s: State, a: Action, s': State, u: nat)
    requires Inv(s) && !a.Do? && Step(s, a) == Some(s') && u < |s.pc|
    ensures Shaped(s') && |s'.pc| == |s.pc| && TaskOk(s', u)
  {
    assert TaskOk(s, u) && LockOk(s, u);
    if a.Switched? || a.Release? { assert CpuOk(s, a.c); }
  }

  lemma SchedKeepsRun(s: State, a: Action, s': State, u: nat)
    requires Inv(s) && !a.Do? && Step(s, a) == Some(s') && u < |s.pc|
    ensures Shaped(s') && |s'.pc| == |s.pc| && RunOk(s', u)
  {
    assert TaskOk(s, u) && RunOk(s, u) && LockOk(s, u);
    if a.Switched? || a.Release? { assert CpuOk(s, a.c); }
    if s.spin.Some? && s.spin.value < |s.pc| { assert TaskOk(s, s.spin.value); }
  }

  lemma SchedKeepsLock(s: State, a: Action, s': State, i: nat)
    requires Inv(s) && !a.Do? && Step(s, a) == Some(s') && i < |s.pc|
    ensures Shaped(s') && |s'.pc| == |s.pc| && LockOk(s', i)
  {
    assert LockOk(s, i);
    if a.Switched? || a.Release? { assert CpuOk(s, a.c); }
    if s.own[i].Some? && s.own[i].value.Task? { assert TaskOk(s, s.own[i].value.t); }
  }

  lemma SchedKeepsCpu(s: State, a: Action, s': State, d: nat)
    requires Inv(s) && !a.Do? && Step(s, a) == Some(s') && d < |s.cpu|
    ensures Shaped(s') && |s'.cpu| == |s.cpu| && CpuOk(s', d)
  {
    assert CpuOk(s, d);
    if a.Switched? || a.Release? { assert CpuOk(s, a.c); }
  }

  lemma SchedInv(s: State, a: Action, s': State)
    requires Inv(s) && !a.Do? && Step(s, a) == Some(s')
    ensures Inv(s')
  {
    assert Shaped(s') && |s'.pc| == |s.pc| && |s'.cpu| == |s.cpu|;
    forall u | 0 <= u < |s.pc| ensures TaskOk(s', u) && RunOk(s', u) && LockOk(s', u) {
      SchedKeepsTask(s, a, s', u);
      SchedKeepsRun(s, a, s', u);
      SchedKeepsLock(s, a, s', u);
    }
    forall d | 0 <= d < |s.cpu| ensures CpuOk(s', d) && CpuOk(s, d) {
      SchedKeepsCpu(s, a, s', d);
      assert CpuOk(s, d);
    }
    forall c, d | 0 <= c < |s'.cpu| && 0 <= d < |s'.cpu| && s'.cpu[c].Run? && s'.cpu[d] == s'.cpu[c] ensures c == d {
      assert CpuOk(s, c) && CpuOk(s, d);
    }
  }

  lemma StepInv(s: State, a: Action, s': State)
    requires Inv(s) && Step(s, a) == Some(s')
    ensures Inv(s')
  {
    hide Inv;
    if a.Do? {
      TaskStepInv(s, a.c, s.cpu[a.c].t, a.tick);
    } else {
      SchedInv(s, a, s');
    }
  }

  // ---- Whole runs -----------------------------------------------------------------

  // A run: states joined by actions of any tasks and CPUs, in any order.
  ghost predicate IsRun(states: seq<State>, actions: seq<Action>) {
    && |states| == |actions| + 1 && Init(states[0])
    && forall k {:trigger Joined(states, actions, k)} :: 0 <= k < |actions| ==> Joined(states, actions, k)
  }

  predicate Joined(states: seq<State>, actions: seq<Action>, k: nat)
    requires k < |actions| && k + 1 < |states|
  {
    Formed(states[k]) && Step(states[k], actions[k]) == Some(states[k + 1])
  }

  lemma {:induction false} RunInv(states: seq<State>, actions: seq<Action>, k: nat)
    requires IsRun(states, actions) && k < |states|
    ensures Inv(states[k])
  {
    if k == 0 {
      InitInv(states[0]);
    } else {
      RunInv(states, actions, k - 1);
      assert Joined(states, actions, k - 1);
      StepInv(states[k - 1], actions[k - 1], states[k]);
    }
  }

  /** In every state of every run at most one task holds the sleep lock, and then
      locked is set and pid names it. */
  lemma MutualExclusion(states: seq<State>, actions: seq<Action>, k: nat, t: nat, u: nat)
    requires IsRun(states, actions) && k < |states|
    requires t < |states[k].pc| && u < |states[k].pc| && Holds(states[k].pc[t]) && Holds(states[k].pc[u])
    ensures t == u && states[k].locked && states[k].pid == Some(t)
  {
    RunInv(states, actions, k);
    assert TaskOk(states[k], t) && TaskOk(states[k], u);
  }

  /** No lost wakeup: whenever the spin lock is free and the sleep lock is not taken, no
      task is asleep on it or on its way to sleep without testing it again. */
  lemma NoLostWakeup(states: seq<State>, actions: seq<Action>, k: nat, t: nat)
    requires IsRun(states, actions) && k < |states| && t < |states[k].pc|
    requires states[k].spin == None && !states[k].locked
    ensures Shaped(states[k]) && !Committed(states[k].pc[t], states[k].run[t]) && !states[k].pc[t].SleepTask?
    ensures !states[k].pc[t].SleepRelease?
    ensures states[k].run[t] != SLEEPING
  {
    RunInv(states, actions, k);
    assert TaskOk(states[k], t) && RunOk(states[k], t);
  }

  // Every context switch out happens with the task's own lock held by the task, and by no one else.
  lemma SwitchHoldsOwnLock(states: seq<State>, actions: seq<Action>, k: nat, t: nat)
    requires IsRun(states, actions) && k < |states| && t < |states[k].pc| && states[k].pc[t].Switch?
    ensures Shaped(states[k]) && states[k].own[t] == Some(Task(t)) && states[k].spin != Some(t)
    ensures states[k].run[t] != RUNNING
  {
    RunInv(states, actions, k);
    assert TaskOk(states[k], t) && RunOk(states[k], t);
  }

  // ---- What stops a task ------------------------------------------------------------------------

  // The task waits for a spin lock that somebody holds.
  predicate Spins(s: State, t: nat)
    requires Shaped(s) && t < |s.pc|
  {
    match s.pc[t]
    case Acquire => s.spin != None
    case Drop => s.spin != None
    case SleepTask => s.own[t] != None
    case Yield(_) => s.own[t] != None
    case Wake(i) => i < |s.pc| && s.own[i] != None
    case _ => false
  }

  /** A running task gets on with every action of its own, except exactly while it spins. */
  lemma StuckIff(s: State, c: nat, tick: bool)
    requires Inv(s) && c < |s.cpu| && s.cpu[c].Run?
    ensures s.cpu[c].t < |s.pc| && Step(s, Do(c, tick)).Some?
    ensures Step(s, Do(c, tick)).value == s <==> Spins(s, s.cpu[c].t)
  {
    assert CpuOk(s, c);
    var t := s.cpu[c].t;
    assert TaskOk(s, t) && RunOk(s, t);
    assert TaskStep(s, c, t, tick) != s || Spins(s, t) by { StuckSpins(s, c, t, tick); }
  }

  lemma StuckSpins(s: State, c: nat, t: nat, tick: bool)
    requires Formed(s) && t < |s.pc| && c < |s.cpu| && TaskOk(s, t) && !s.pc[t].Off?
    ensures TaskStep(s, c, t, tick) == s ==> Spins(s, t)
  {
    var s' := TaskStep(s, c, t, tick);
    if !Spins(s, t) { assert s'.pc[t] != s.pc[t]; }
  }

  /** Nobody else in the way, lock takes the lock in three actions and unlock gives it up in
      two, with a wakeup of all tasks to follow. */
  lemma Uncontended(s: State, c: nat)
    requires Formed(s) && c < |s.cpu| && s.cpu[c].Run? && s.cpu[c].t < |s.pc| && s.spin == None
    ensures var t := s.cpu[c].t;
            s.pc[t].Acquire? && !s.locked ==>
              var s3 := TaskStep(TaskStep(TaskStep(s, c, t, false), c, t, false), c, t, false);
              s3 == s.(locked := true, pid := Some(t), pc := s.pc[t := Held])
    ensures var t := s.cpu[c].t;
            s.pc[t].Drop? ==>
              var s2 := TaskStep(TaskStep(s, c, t, false), c, t, false);
              s2 == s.(spin := Some(t), locked := false, pid := None, pc := s.pc[t := Wake(0)])
  {
    var t := s.cpu[c].t;
    assert s.pc[t := Check][t := Taken][t := Held] == s.pc[t := Held];
    assert s.pc[t := Clear][t := Wake(0)] == s.pc[t := Wake(0)];
  }
}
