/** The scheduler on one hart (kernel/os/TaskScheduler.cpp): the scheduling loop, sleep,
    wakeup, yield, wait, wait4 and exit over the nested interrupt switch of kernel/os/Intr.cpp
    and the spin locks, with device and timer interrupts wherever they are enabled. Every
    check of the code that panics is kept, and shown never to fire. */
module OneHart {
  import opened Common

  datatype Lock = TaskLock(t: nat) | Other(l: nat)

  datatype Chan = NoChan | TaskChan(t: nat) | OtherChan(c: nat)

  datatype Status = Unused | Runnable | Running | Sleeping | Zombie

  /** Where a task is. Between two steps it may be interrupted if interrupts are on. */
  datatype Pc =
    | Fresh                                  // at the start of forkret
    | Run(held: set<Lock>)                   // anywhere else in the kernel or in user code
    | Switched(next: Next)                   // inside pswitch, called from prepareSched
    | Relock(lk: Lock)                       // at the end of sleep
    | Scan(k: nat, have: bool)               // in wait, before task k
    | Check4(c: nat)                         // in wait4, parent checked, own lock not yet taken
    | Scan4(c: nat)                          // in wait4, own lock held
    | Reparent(k: nat)                       // in exit, before task k
    | Wake(chan: Chan, k: nat, held: set<Lock>, dying: bool) // in wakeup, before task k
    | Dead                                   // in exit, after wakeup
    | Over                                   // switched away for good

  // What the caller of prepareSched does when it returns.
  datatype Next =
    | AfterSleep(lk: Lock)
    | AfterYield(resume: Pc, trap: bool)
    | AfterWait
    | AfterWait4(c: nat)

  datatype Task = Task(status: Status, chan: Chan, parent: Option<nat>, pc: Pc, saved: bool)

  datatype Cpu = Cpu(intr: bool, noff: nat, enable: bool, task: Option<nat>)

  /** The scheduler thread: before task i, holding its lock, switched away to it, or
      just switched back from it. */
  datatype Sched = Idle(i: nat) | Have(i: nat) | Gone(i: nat) | Back(i: nat)

  datatype State = State(cpu: Cpu, tasks: seq<Task>, locks: set<Lock>, sched: Sched, init: nat)

  datatype Why =
    | ReAcquire | NotHolding
    | PopOffOn | PopOffDepth
    | SchedLock | SchedLocks | SchedRunning | SchedIntr
    | InitExit

  datatype Res = Ok(s: State) | Panic(why: Why) {
    predicate IsFailure() { Panic? }
    function PropagateFailure(): Res requires Panic? { this }
    function Extract(): State requires Ok? { s }
  }

  // ---- Interrupt nesting, locks and the switch ---------------------------------------------

  function PushOff(s: State): State {
    var c := s.cpu;
    s.(cpu := c.(intr := false, noff := c.noff + 1, enable := if c.noff == 0 then c.intr else c.enable))
  }

  function PopOff(s: State): Res {
    var c := s.cpu;
    if c.intr then Panic(PopOffOn)
    else if c.noff < 1 then Panic(PopOffDepth)
    else Ok(s.(cpu := c.(noff := c.noff - 1, intr := c.noff == 1 && c.enable)))
  }

  // One hart: whoever finds a lock taken is the one holding it.
  function Acquire(s: State, l: Lock): Res {
    if l in s.locks then Panic(ReAcquire) else Ok(PushOff(s).(locks := s.locks + {l}))
  }

  function Release(s: State, l: Lock): Res {
    if l !in s.locks then Panic(NotHolding) else PopOff(s.(locks := s.locks - {l}))
  }

  function SetTask(s: State, i: nat, t: Task): State
    requires i < |s.tasks|
  {
    s.(tasks := s.tasks[i := t])
  }

  function SetPc(s: State, i: nat, pc: Pc): State
    requires i < |s.tasks|
  {
    SetTask(s, i, s.tasks[i].(pc := pc))
  }

  /** prepareSched of task i: four checks, then the switch to the scheduler. */
  function PrepareSched(s: State, i: nat, pc: Pc): Res
    requires i < |s.tasks|
  {
    if TaskLock(i) !in s.locks then Panic(SchedLock)
    else if s.cpu.noff != 1 then Panic(SchedLocks)
    else if s.tasks[i].status == Running then Panic(SchedRunning)
    else if s.cpu.intr then Panic(SchedIntr)
    else Ok(SetTask(s, i, s.tasks[i].(pc := pc, saved := s.cpu.enable)).(sched := Back(i)))
  }

  // ---- What tasks do -----------------------------------------------------------------------

  function Sleep(s: State, i: nat, chan: Chan, lk: Lock): Res
    requires i < |s.tasks|
  {
    var s1 :- Acquire(s, TaskLock(i));
    var s2 :- Release(s1, lk);
    PrepareSched(SetTask(s2, i, s2.tasks[i].(chan := chan, status := Sleeping)), i, Switched(AfterSleep(lk)))
  }

  // sleep(task, &task->lock), the call in wait and wait4: the lock is already the task's own.
  function SleepOnSelf(s: State, i: nat, next: Next): Res
    requires i < |s.tasks|
  {
    PrepareSched(SetTask(s, i, s.tasks[i].(chan := TaskChan(i), status := Sleeping)), i, Switched(next))
  }

  function Yield(s: State, i: nat, next: Next): Res
    requires i < |s.tasks|
  {
    var s1 :- Acquire(s, TaskLock(i));
    PrepareSched(SetTask(s1, i, s1.tasks[i].(status := Runnable)), i, Switched(next))
  }

  // The timer interrupt in kerneltrap: the hart enters with interrupts off and sret turns
  // them on again.
  function Timer(s: State, i: nat): Res
    requires i < |s.tasks|
  {
    if s.tasks[i].status != Running then Ok(s)
    else Yield(s.(cpu := s.cpu.(intr := false)), i, AfterYield(s.tasks[i].pc, true))
  }

  function Woken(t: Task, chan: Chan): Task {
    if t.status == Sleeping && t.chan == chan then t.(status := Runnable) else t
  }

  // One round of the loop of wakeup.
  function WakeOne(s: State, chan: Chan, k: nat): Res
    requires k < |s.tasks|
  {
    var s1 :- Acquire(s, TaskLock(k));
    Release(SetTask(s1, k, Woken(s1.tasks[k], chan)), TaskLock(k))
  }

  function WakeFrom(s: State, chan: Chan, k: nat): Res
    requires k <= |s.tasks|
    decreases |s.tasks| - k
  {
    if k == |s.tasks| then Ok(s)
    else
      var s1 :- WakeOne(s, chan, k);
      if |s1.tasks| == |s.tasks| then WakeFrom(s1, chan, k + 1) else Ok(s1)
  }

  // A device interrupt: the handler wakes the tasks on a channel.
  function Device(s: State, chan: Chan): Res {
    var r :- WakeFrom(s.(cpu := s.cpu.(intr := false)), chan, 0);
    Ok(r.(cpu := r.cpu.(intr := true)))
  }

  function Freed(t: Task): Task { t.(status := Unused, chan := NoChan, parent := None) }

  // One round of the loop of wait.
  function ScanOne(s: State, i: nat, k: nat, have: bool): Res
    requires i < |s.tasks| && k < |s.tasks|
  {
    if s.tasks[k].parent != Some(i) then Ok(SetPc(s, i, Scan(k + 1, have)))
    else
      var s1 :- Acquire(s, TaskLock(k));
      if s1.tasks[k].status != Zombie then
        var s2 :- Release(s1, TaskLock(k));
        Ok(SetPc(s2, i, Scan(k + 1, true)))
      else
        var s2 :- Release(SetTask(s1, k, Freed(s1.tasks[k])), TaskLock(k));
        var s3 :- Release(s2, TaskLock(i));
        Ok(SetPc(s3, i, Run({})))
  }

  function EndScan(s: State, i: nat, have: bool): Res
    requires i < |s.tasks|
  {
    if !have then
      var s1 :- Release(s, TaskLock(i));
      Ok(SetPc(s1, i, Run({})))
    else SleepOnSelf(s, i, AfterWait)
  }

  function Scan4One(s: State, i: nat, c: nat): Res
    requires i < |s.tasks| && c < |s.tasks|
  {
    var s1 :- Acquire(s, TaskLock(c));
    if s1.tasks[c].status == Zombie then
      var s2 :- Release(SetTask(s1, c, Freed(s1.tasks[c])), TaskLock(c));
      var s3 :- Release(s2, TaskLock(i));
      Ok(SetPc(s3, i, Run({})))
    else
      var s2 :- Release(s1, TaskLock(c));
      SleepOnSelf(s2, i, AfterWait4(c))
  }

  function Wait4(s: State, i: nat, c: nat): Res
    requires i < |s.tasks| && c < |s.tasks|
  {
    var s1 :- Acquire(s, TaskLock(c));
    var s2 :- Release(s1, TaskLock(c));
    Ok(SetPc(s2, i, if s1.tasks[c].parent == Some(i) then Check4(c) else Run({})))
  }

  // prepareSched returns to its caller.
  function Resume(s: State, i: nat, next: Next): Res
    requires i < |s.tasks|
  {
    var s1 := s.(cpu := s.cpu.(enable := s.tasks[i].saved));
    match next
    case AfterYield(resume, trap) =>
      var s2 :- Release(s1, TaskLock(i));
      Ok(SetPc(if trap then s2.(cpu := s2.cpu.(intr := true)) else s2, i, resume))
    case AfterSleep(lk) =>
      var s2 :- Release(SetTask(s1, i, s1.tasks[i].(chan := NoChan)), TaskLock(i));
      Ok(SetPc(s2, i, Relock(lk)))
    case AfterWait => Ok(SetTask(s1, i, s1.tasks[i].(chan := NoChan, pc := Scan(0, false))))
    case AfterWait4(c) => Ok(SetTask(s1, i, s1.tasks[i].(chan := NoChan, pc := Scan4(c))))
  }

  function ParentChan(t: Task): Chan {
    match t.parent case Some(p) => TaskChan(p) case None => NoChan
  }

  // exit becomes a zombie, without its lock, and starts to wake its parent.
  function BecomeZombie(s: State, i: nat): State
    requires i < |s.tasks|
  {
    SetTask(s, i, s.tasks[i].(status := Zombie, pc := Wake(ParentChan(s.tasks[i]), 0, {}, true)))
  }

  function LastSwitch(s: State, i: nat): Res
    requires i < |s.tasks|
  {
    var s1 :- Acquire(s, TaskLock(i));
    PrepareSched(s1, i, Over)
  }

  /** Calls a task makes from ordinary kernel code. */
  datatype Call =
    | SetIntr(on: bool)
    | LockCall(lk: Lock)
    | UnlockCall(lk: Lock)
    | SleepCall(chan: Chan, lk: Lock)
    | WakeCall(chan: Chan)
    | YieldCall
    | WaitCall
    | Wait4Call(c: nat)
    | ForkCall(c: nat)
    | ExitCall

  /** How the kernel uses these calls: interrupts are switched by hand only outside locks,
      sleep is given the one lock its caller holds, yield, wait, wait4 and exit are called
      without locks, and fork finds a free slot. */
  predicate Disciplined(s: State, i: nat, held: set<Lock>, c: Call) {
    match c
    case SetIntr(_) => held == {}
    case LockCall(lk) => lk.Other? && lk !in held
    case UnlockCall(lk) => lk in held
    case SleepCall(chan, lk) => held == {lk} && !chan.TaskChan? && !chan.NoChan?
    case WakeCall(_) => true
    case YieldCall => held == {}
    case WaitCall => held == {}
    case Wait4Call(c) => held == {} && c < |s.tasks|
    case ForkCall(c) => c < |s.tasks| && c != i && s.tasks[c].status == Unused
    case ExitCall => held == {} && i != s.init
  }

  function DoCall(s: State, i: nat, held: set<Lock>, c: Call): Res
    requires i < |s.tasks| && (c.Wait4Call? || c.ForkCall? ==> c.c < |s.tasks|)
  {
    match c
    case SetIntr(on) => Ok(s.(cpu := s.cpu.(intr := on)))
    case LockCall(lk) =>
      var s1 :- Acquire(s, lk);
      Ok(SetPc(s1, i, Run(held + {lk})))
    case UnlockCall(lk) =>
      var s1 :- Release(s, lk);
      Ok(SetPc(s1, i, Run(held - {lk})))
    case SleepCall(chan, lk) => Sleep(s, i, chan, lk)
    case WakeCall(chan) => Ok(SetPc(s, i, Wake(chan, 0, held, false)))
    case YieldCall => Yield(s, i, AfterYield(Run(held), false))
    case WaitCall =>
      var s1 :- Acquire(s, TaskLock(i));
      Ok(SetPc(s1, i, Scan(0, false)))
    case Wait4Call(c) => Wait4(s, i, c)
    case ForkCall(c) => Ok(SetTask(s, c, Task(Runnable, NoChan, Some(i), Fresh, s.tasks[c].saved)))
    case ExitCall => if i == s.init then Panic(InitExit) else Ok(SetPc(s, i, Reparent(0)))
  }

  // The next step of task i where its code leaves no choice.
  function TaskStep(s: State, i: nat): Res
    requires i < |s.tasks|
  {
    var t := s.tasks[i];
    match t.pc
    case Fresh =>
      var s1 :- Release(s, TaskLock(i));
      Ok(SetPc(s1, i, Run({})))
    case Switched(next) => Resume(s, i, next)
    case Relock(lk) =>
      var s1 :- Acquire(s, lk);
      Ok(SetPc(s1, i, Run({lk})))
    case Scan(k, have) => if k < |s.tasks| then ScanOne(s, i, k, have) else EndScan(s, i, have)
    case Check4(c) =>
      var s1 :- Acquire(s, TaskLock(i));
      Ok(SetPc(s1, i, Scan4(c)))
    case Scan4(c) => if c < |s.tasks| then Scan4One(s, i, c) else Ok(s)
    case Reparent(k) =>
      if k >= |s.tasks| then Ok(BecomeZombie(s, i))
      else
        var s1 := if s.tasks[k].parent == Some(i) then SetTask(s, k, s.tasks[k].(parent := Some(s.init))) else s;
        Ok(SetPc(s1, i, Reparent(k + 1)))
    case Wake(chan, k, held, dying) =>
      if k >= |s.tasks| then Ok(SetPc(s, i, if dying then Dead else Run(held)))
      else
        var s1 :- WakeOne(s, chan, k);
        if i < |s1.tasks| then Ok(SetPc(s1, i, Wake(chan, k + 1, held, dying))) else Ok(s1)
    case Dead => LastSwitch(s, i)
    case Run(_) => Ok(s)
    case Over => Ok(s)
  }

  // ---- What the scheduler does -----------------------------------------------------------

  function Poke(s: State): State
    requires s.init < |s.tasks|
  {
    SetTask(s, s.init, s.tasks[s.init].(status := Runnable))
  }

  function SchedStep(s: State): Res
    requires s.init < |s.tasks|
  {
    match s.sched
    case Idle(i) =>
      if i >= |s.tasks| then Ok(s.(sched := Idle(0), cpu := s.cpu.(intr := true)))
      else
        var s1 :- Acquire(s, TaskLock(i));
        Ok(s1.(sched := Have(i)))
    case Have(i) =>
      if i >= |s.tasks| then Ok(s)
      else
        var s1 := if s.tasks[i].status == Zombie then Poke(s) else s;
        if s1.tasks[i].status == Runnable then
          Ok(SetTask(s1, i, s1.tasks[i].(status := Running)).(cpu := s1.cpu.(task := Some(i)), sched := Gone(i)))
        else
          var s2 :- Release(s1, TaskLock(i));
          Ok(s2.(sched := Idle(i + 1)))
    case Back(i) =>
      var s1 :- Release(s.(cpu := s.cpu.(task := None)), TaskLock(i));
      Ok(s1.(sched := Idle(i + 1)))
    case Gone(_) => Ok(s)
  }

  datatype Action = SchedAct | TaskAct | CallAct(call: Call) | TimerAct | DeviceAct(chan: Chan)

  predicate Enabled(s: State, a: Action) {
    match a
    case SchedAct => !s.sched.Gone?
    case TaskAct => s.sched.Gone? && s.sched.i < |s.tasks| && !s.tasks[s.sched.i].pc.Run?
    case CallAct(c) =>
      && s.sched.Gone? && s.sched.i < |s.tasks| && s.tasks[s.sched.i].pc.Run?
      && Disciplined(s, s.sched.i, s.tasks[s.sched.i].pc.held, c)
    case TimerAct => s.cpu.intr && (s.sched.Gone? ==> s.sched.i < |s.tasks|)
    case DeviceAct(_) => s.cpu.intr
  }

  function Do(s: State, a: Action): Res
    requires Enabled(s, a) && s.init < |s.tasks|
  {
    match a
    case SchedAct => SchedStep(s)
    case TaskAct => TaskStep(s, s.sched.i)
    case CallAct(c) => DoCall(s, s.sched.i, s.tasks[s.sched.i].pc.held, c)
    case TimerAct => if s.sched.Gone? then Timer(s, s.sched.i) else Ok(s)
    case DeviceAct(chan) => Device(s, chan)
  }

  // ---- The invariant -----------------------------------------------------------------------

  // A place where a task may be while it holds no lock and is running.
  predicate Unlocked(pc: Pc) {
    match pc
    case Run(held) => held == {}
    case Wake(_, _, held, dying) => held == {} && !dying
    case Relock(_) => true
    case Check4(_) => true
    case Reparent(_) => true
    case _ => false
  }

  ghost predicate Others(held: set<Lock>) { forall l :: l in held ==> l.Other? }

  // The locks held by a task at pc.
  function LocksAt(pc: Pc, i: nat): set<Lock> {
    match pc
    case Run(held) => held
    case Wake(_, _, held, _) => held
    case Fresh => {TaskLock(i)}
    case Switched(_) => {TaskLock(i)}
    case Scan(_, _) => {TaskLock(i)}
    case Scan4(_) => {TaskLock(i)}
    case _ => {}
  }

  predicate Dying(pc: Pc) { pc.Dead? || (pc.Wake? && pc.dying) }

  ghost predicate PcOk(t: Task, pc: Pc, i: nat, init: nat)
    decreases pc
  {
    match pc
    case Run(held) => Others(held)
    case Wake(chan, _, held, dying) => Others(held) && (dying ==> held == {} && i != init && chan == ParentChan(t))
    case Relock(lk) => lk.Other?
    case Reparent(_) => i != init
    case Dead => i != init
    case Switched(next) =>
      && (next.AfterSleep? ==> next.lk.Other?)
      && (next.AfterYield? ==> Unlocked(next.resume) && PcOk(t, next.resume, i, init))
    case _ => true
  }

  ghost predicate TaskOk(t: Task, i: nat, current: bool, init: nat) {
    && PcOk(t, t.pc, i, init)
    && t.parent != Some(i)
    && if current then !t.pc.Over? && t.status == (if Dying(t.pc) then Zombie else Running)
       else match t.status
         case Running => false
         case Unused => t.pc.Over? && t.parent == None
         case Zombie => t.pc.Over?
         case Runnable => t.pc.Fresh? || t.pc.Switched?
         case Sleeping => t.pc.Switched? && !t.pc.next.AfterYield? && (!t.pc.next.AfterSleep? ==> t.chan == TaskChan(i))
  }

  // The child a task in wait4 has chosen, also while the task is preempted there.
  function WaitsFor(pc: Pc): Option<nat> {
    match pc
    case Check4(c) => Some(c)
    case Scan4(c) => Some(c)
    case Switched(AfterWait4(c)) => Some(c)
    case Switched(AfterYield(resume, _)) => WaitsFor(resume)
    case _ => None
  }

  ghost predicate Chosen(tasks: seq<Task>, p: nat)
    requires p < |tasks|
  {
    match WaitsFor(tasks[p].pc)
    case Some(c) => c < |tasks| && tasks[c].parent == Some(p) && tasks[c].status != Unused
    case None => true
  }

  // Task c is on its way to waking task p.
  predicate Pending(tasks: seq<Task>, sched: Sched, c: nat, p: nat)
    requires c < |tasks|
  {
    sched == Gone(c) && tasks[c].pc.Wake? && tasks[c].pc.dying && tasks[c].pc.k <= p
  }

  // Task p is asleep in wait, or in wait4 for c.
  predicate AsleepFor(t: Task, c: nat) {
    t.status == Sleeping && t.pc.Switched? && (t.pc.next.AfterWait? || t.pc.next == AfterWait4(c))
  }

  ghost predicate NotMissed(tasks: seq<Task>, sched: Sched, init: nat, p: nat, c: nat)
    requires p < |tasks| && c < |tasks|
  {
    (AsleepFor(tasks[p], c) && tasks[c].parent == Some(p) && tasks[c].status == Zombie &&
     (p != init || tasks[p].pc.next.AfterWait4?)) ==> Pending(tasks, sched, c, p)
  }

  // The children already seen by a running wait are not zombies.
  ghost predicate Scanned(tasks: seq<Task>, p: nat, c: nat)
    requires p < |tasks| && c < |tasks|
  {
    tasks[p].pc.Scan? && c < tasks[p].pc.k && tasks[c].parent == Some(p) ==> tasks[c].status != Zombie
  }

  ghost predicate AllOk(tasks: seq<Task>, sched: Sched, init: nat) {
    forall i: nat :: i < |tasks| ==> TaskOk(tasks[i], i, sched == Gone(i), init)
  }

  ghost predicate AllChosen(tasks: seq<Task>) {
    forall p: nat {:trigger Chosen(tasks, p)} :: p < |tasks| ==> Chosen(tasks, p)
  }

  ghost predicate NoneMissed(tasks: seq<Task>, sched: Sched, init: nat) {
    forall p: nat, c: nat {:trigger NotMissed(tasks, sched, init, p, c)} :: p < |tasks| && c < |tasks| ==>
      NotMissed(tasks, sched, init, p, c)
  }

  ghost predicate AllScanned(tasks: seq<Task>) {
    forall p: nat, c: nat {:trigger Scanned(tasks, p, c)} :: p < |tasks| && c < |tasks| ==> Scanned(tasks, p, c)
  }

  ghost predicate InitOk(tasks: seq<Task>, init: nat) {
    init < |tasks| && tasks[init].parent == None && tasks[init].status != Unused && tasks[init].status != Zombie
  }

  ghost predicate TasksInv(tasks: seq<Task>, sched: Sched, init: nat) {
    InitOk(tasks, init) && AllOk(tasks, sched, init) && AllChosen(tasks) && NoneMissed(tasks, sched, init) &&
        AllScanned(tasks)
  }

  // The nesting depth is the number of locks held, and interrupts are off inside locks.
  predicate CpuOk(cpu: Cpu, locks: set<Lock>) {
    cpu.noff == |locks| && (locks != {} ==> !cpu.intr)
  }

  // The locks held and the current task of the CPU, by the place of the scheduler.
  ghost predicate Placed(s: State) {
    match s.sched
    case Idle(i) => s.locks == {} && s.cpu.task == None
    case Have(i) => i < |s.tasks| && s.locks == {TaskLock(i)} && s.cpu.task == None
    case Back(i) => i < |s.tasks| && s.locks == {TaskLock(i)} && s.cpu.task == Some(i)
    case Gone(i) => i < |s.tasks| && s.locks == LocksAt(s.tasks[i].pc, i) && s.cpu.task == Some(i)
  }

  ghost predicate Inv(s: State) {
    CpuOk(s.cpu, s.locks) && Placed(s) && TasksInv(s.tasks, s.sched, s.init)
  }

  // ---- Locks -------------------------------------------------------------------------------

  lemma AcquireOk(s: State, l: Lock)
    requires CpuOk(s.cpu, s.locks) && l !in s.locks
    ensures var r := Acquire(s, l);
            && r.Ok? && r.s == s.(cpu := r.s.cpu, locks := s.locks + {l})
            && CpuOk(r.s.cpu, r.s.locks) && !r.s.cpu.intr && r.s.cpu.task == s.cpu.task
  {
  }

  lemma ReleaseOk(s: State, l: Lock)
    requires CpuOk(s.cpu, s.locks) && l in s.locks
    ensures var r := Release(s, l);
            && r.Ok? && r.s == s.(cpu := r.s.cpu, locks := s.locks - {l})
            && CpuOk(r.s.cpu, r.s.locks) && r.s.cpu.task == s.cpu.task
  {
    assert |s.locks - {l}| == |s.locks| - 1;
  }

  lemma PrepareSchedOk(s: State, i: nat, pc: Pc)
    requires i < |s.tasks| && CpuOk(s.cpu, s.locks) && s.locks == {TaskLock(i)} && s.tasks[i].status != Running
    ensures PrepareSched(s, i, pc) == Ok(SetTask(s, i, s.tasks[i].(pc := pc, saved := s.cpu.enable)).(sched := Back(i)))
  {
  }

  // ---- Steps on the task table ---------------------------------------------------------------

  // The current task goes on, and did not become a zombie.
  lemma Moves(tasks: seq<Task>, i: nat, t: Task, init: nat)
    requires i < |tasks| && TasksInv(tasks, Gone(i), init)
    requires tasks[i].status == t.status == Running && t.parent == tasks[i].parent && TaskOk(t, i, true, init)
    requires WaitsFor(t.pc) == WaitsFor(tasks[i].pc) || Chosen(tasks[i := t], i)
    requires t.pc.Scan? ==> forall c: nat :: c < |tasks| && c < t.pc.k && tasks[c].parent == Some(i) ==>
               tasks[c].status != Zombie
    ensures TasksInv(tasks[i := t], Gone(i), init)
  {
    hide TaskOk;
    var tasks' := tasks[i := t];
    forall p: nat | p < |tasks| ensures Chosen(tasks', p) {
      assert Chosen(tasks, p);
    }
    forall p: nat, c: nat | p < |tasks| && c < |tasks| ensures NotMissed(tasks', Gone(i), init, p, c) {
      assert NotMissed(tasks, Gone(i), init, p, c);
    }
    forall p: nat, c: nat | p < |tasks| && c < |tasks| ensures Scanned(tasks', p, c) {
      assert Scanned(tasks, p, c);
    }
  }

  // The current task switches away, asleep or runnable.
  lemma SwitchesAway(tasks: seq<Task>, i: nat, t: Task, init: nat)
    requires i < |tasks| && TasksInv(tasks, Gone(i), init)
    requires tasks[i].status == Running && (t.status == Sleeping || t.status == Runnable)
    requires t.parent == tasks[i].parent && TaskOk(t, i, false, init) && t.pc.Switched?
    requires WaitsFor(t.pc) == WaitsFor(tasks[i].pc)
    requires forall c: nat :: c < |tasks| && AsleepFor(t, c) && tasks[c].parent == Some(i) ==> tasks[c].status != Zombie
    ensures TasksInv(tasks[i := t], Back(i), init)
  {
    hide PcOk;
    var tasks' := tasks[i := t];
    forall j: nat | j < |tasks| ensures TaskOk(tasks'[j], j, Back(i) == Gone(j), init) {
      assert TaskOk(tasks[j], j, Gone(i) == Gone(j), init);
    }
    forall p: nat | p < |tasks| ensures Chosen(tasks', p) {
      assert Chosen(tasks, p);
    }
    forall p: nat, c: nat | p < |tasks| && c < |tasks| ensures NotMissed(tasks', Back(i), init, p, c) {
      assert NotMissed(tasks, Gone(i), init, p, c);
    }
    forall p: nat, c: nat | p < |tasks| && c < |tasks| ensures Scanned(tasks', p, c) {
      assert Scanned(tasks, p, c);
    }
  }

  // An exited task switches away for good.
  lemma Leaves(tasks: seq<Task>, i: nat, saved: bool, init: nat)
    requires i < |tasks| && TasksInv(tasks, Gone(i), init) && tasks[i].pc == Dead
    ensures TasksInv(tasks[i := tasks[i].(pc := Over, saved := saved)], Back(i), init)
  {
    hide PcOk;
    var t := tasks[i].(pc := Over, saved := saved);
    var tasks' := tasks[i := t];
    forall j: nat | j < |tasks| ensures TaskOk(tasks'[j], j, Back(i) == Gone(j), init) {
      assert TaskOk(tasks[j], j, Gone(i) == Gone(j), init);
      assert PcOk(t, Over, i, init) by { OverOk(t, i, init); }
    }
    forall p: nat | p < |tasks| ensures Chosen(tasks', p) {
      assert Chosen(tasks, p);
    }
    forall p: nat, c: nat | p < |tasks| && c < |tasks| ensures NotMissed(tasks', Back(i), init, p, c) {
      assert NotMissed(tasks, Gone(i), init, p, c);
    }
    forall p: nat, c: nat | p < |tasks| && c < |tasks| ensures Scanned(tasks', p, c) {
      assert Scanned(tasks, p, c);
    }
  }

  lemma OverOk(t: Task, i: nat, init: nat)
    ensures PcOk(t, Over, i, init)
  {
  }

  // The scheduler moves, or a device does, and no task runs before or after.
  lemma SchedMoves(tasks: seq<Task>, a: Sched, b: Sched, init: nat)
    requires TasksInv(tasks, a, init) && !a.Gone? && !b.Gone?
    ensures TasksInv(tasks, b, init)
  {
    hide TaskOk, AsleepFor;
    forall p: nat, c: nat | p < |tasks| && c < |tasks| ensures NotMissed(tasks, b, init, p, c) {
      assert NotMissed(tasks, a, init, p, c);
    }
    forall j: nat | j < |tasks| ensures TaskOk(tasks[j], j, b == Gone(j), init) {
      assert TaskOk(tasks[j], j, a == Gone(j), init);
    }
  }

  // A runnable task is switched to.
  lemma Dispatches(tasks: seq<Task>, a: Sched, i: nat, init: nat)
    requires i < |tasks| && TasksInv(tasks, a, init) && !a.Gone? && tasks[i].status == Runnable
    ensures TasksInv(tasks[i := tasks[i].(status := Running)], Gone(i), init)
  {
    hide PcOk;
    var t := tasks[i].(status := Running);
    var tasks' := tasks[i := t];
    SamePc(tasks[i], t, t.pc, i, init);
    assert TaskOk(tasks[i], i, a == Gone(i), init);
    forall j: nat | j < |tasks| ensures TaskOk(tasks'[j], j, Gone(i) == Gone(j), init) {
      assert TaskOk(tasks[j], j, a == Gone(j), init);
    }
    forall p: nat | p < |tasks| ensures Chosen(tasks', p) {
      assert Chosen(tasks, p);
    }
    forall p: nat, c: nat | p < |tasks| && c < |tasks| ensures NotMissed(tasks', Gone(i), init, p, c) {
      assert NotMissed(tasks, a, init, p, c);
    }
    forall p: nat, c: nat | p < |tasks| && c < |tasks| ensures Scanned(tasks', p, c) {
      assert Scanned(tasks, p, c);
    }
  }

  // What is asked of a place depends only on the task's parent.
  lemma {:induction false} SamePc(t: Task, u: Task, pc: Pc, i: nat, init: nat)
    requires PcOk(t, pc, i, init) && t.parent == u.parent
    ensures PcOk(u, pc, i, init)
    decreases pc
  {
    if pc.Switched? && pc.next.AfterYield? { SamePc(t, u, pc.next.resume, i, init); }
  }

  // A sleeping task becomes runnable.
  lemma Wakes(tasks: seq<Task>, sched: Sched, k: nat, init: nat)
    requires k < |tasks| && TasksInv(tasks, sched, init) && tasks[k].status == Sleeping
    ensures TasksInv(tasks[k := tasks[k].(status := Runnable)], sched, init)
  {
    hide PcOk;
    var t := tasks[k].(status := Runnable);
    var tasks' := tasks[k := t];
    SamePc(tasks[k], t, t.pc, k, init) by { assert TaskOk(tasks[k], k, sched == Gone(k), init); }
    forall j: nat | j < |tasks| ensures TaskOk(tasks'[j], j, sched == Gone(j), init) {
      assert TaskOk(tasks[j], j, sched == Gone(j), init);
    }
    forall p: nat | p < |tasks| ensures Chosen(tasks', p) {
      assert Chosen(tasks, p);
    }
    forall p: nat, c: nat | p < |tasks| && c < |tasks| ensures NotMissed(tasks', sched, init, p, c) {
      assert NotMissed(tasks, sched, init, p, c);
    }
    forall p: nat, c: nat | p < |tasks| && c < |tasks| ensures Scanned(tasks', p, c) {
      assert Scanned(tasks, p, c);
    }
  }

  // The running parent frees a zombie child.
  lemma Frees(tasks: seq<Task>, i: nat, c: nat, init: nat)
    requires i < |tasks| && c < |tasks| && TasksInv(tasks, Gone(i), init)
    requires tasks[c].parent == Some(i) && tasks[c].status == Zombie && tasks[i].status == Running
    requires WaitsFor(tasks[i].pc) == None
    ensures TasksInv(tasks[c := Freed(tasks[c])], Gone(i), init)
  {
    hide PcOk;
    var t := Freed(tasks[c]);
    var tasks' := tasks[c := t];
    assert c != i && c != init;
    assert TaskOk(tasks[c], c, false, init);
    OverOk(t, c, init);
    forall j: nat | j < |tasks| ensures TaskOk(tasks'[j], j, Gone(i) == Gone(j), init) {
      assert TaskOk(tasks[j], j, Gone(i) == Gone(j), init);
    }
    forall p: nat | p < |tasks| ensures Chosen(tasks', p) {
      assert Chosen(tasks, p);
    }
    forall p: nat, d: nat | p < |tasks| && d < |tasks| ensures NotMissed(tasks', Gone(i), init, p, d) {
      assert NotMissed(tasks, Gone(i), init, p, d);
    }
    forall p: nat, d: nat | p < |tasks| && d < |tasks| ensures Scanned(tasks', p, d) {
      assert Scanned(tasks, p, d);
    }
  }

  // A task about to exit hands a child to init.
  lemma HandsOver(tasks: seq<Task>, i: nat, k: nat, init: nat)
    requires i < |tasks| && k < |tasks| && TasksInv(tasks, Gone(i), init)
    requires tasks[i].pc.Reparent? && tasks[k].parent == Some(i)
    ensures TasksInv(tasks[k := tasks[k].(parent := Some(init))], Gone(i), init)
  {
    hide PcOk;
    var t := tasks[k].(parent := Some(init));
    var tasks' := tasks[k := t];
    assert TaskOk(tasks[i], i, true, init) && TaskOk(tasks[k], k, i == k, init);
    assert k != i && k != init;
    ParentFree(tasks[k], t, t.pc, k, init);
    forall j: nat | j < |tasks| ensures TaskOk(tasks'[j], j, Gone(i) == Gone(j), init) {
      assert TaskOk(tasks[j], j, Gone(i) == Gone(j), init);
    }
    forall p: nat | p < |tasks| ensures Chosen(tasks', p) {
      assert Chosen(tasks, p);
    }
    forall p: nat, d: nat | p < |tasks| && d < |tasks| ensures NotMissed(tasks', Gone(i), init, p, d) {
      assert NotMissed(tasks, Gone(i), init, p, d);
      assert Chosen(tasks, p);
    }
    forall p: nat, d: nat | p < |tasks| && d < |tasks| ensures Scanned(tasks', p, d) {
      assert Scanned(tasks, p, d);
      assert TaskOk(tasks[p], p, i == p, init);
    }
  }

  // A task that is not dying may change its parent.
  lemma {:induction false} ParentFree(t: Task, u: Task, pc: Pc, i: nat, init: nat)
    requires PcOk(t, pc, i, init) && !Dying(pc)
    ensures PcOk(u, pc, i, init)
    decreases pc
  {
    if pc.Switched? && pc.next.AfterYield? { ParentFree(t, u, pc.next.resume, i, init); }
  }

  lemma Forks(tasks: seq<Task>, i: nat, c: nat, saved: bool, init: nat)
    requires i < |tasks| && c < |tasks| && c != i && TasksInv(tasks, Gone(i), init)
    requires tasks[c].status == Unused && tasks[i].pc.Run?
    ensures TasksInv(tasks[c := Task(Runnable, NoChan, Some(i), Fresh, saved)], Gone(i), init)
  {
    hide PcOk;
    var t := Task(Runnable, NoChan, Some(i), Fresh, saved);
    var tasks' := tasks[c := t];
    FreshOk(t, c, init);
    assert TaskOk(tasks[c], c, false, init);
    forall j: nat | j < |tasks| ensures TaskOk(tasks'[j], j, Gone(i) == Gone(j), init) {
      assert TaskOk(tasks[j], j, Gone(i) == Gone(j), init);
    }
    forall p: nat | p < |tasks| ensures Chosen(tasks', p) {
      assert Chosen(tasks, p);
    }
    forall p: nat, d: nat | p < |tasks| && d < |tasks| ensures NotMissed(tasks', Gone(i), init, p, d) {
      assert NotMissed(tasks, Gone(i), init, p, d);
    }
    forall p: nat, d: nat | p < |tasks| && d < |tasks| ensures Scanned(tasks', p, d) {
      assert Scanned(tasks, p, d);
    }
  }

  lemma FreshOk(t: Task, i: nat, init: nat)
    ensures PcOk(t, Fresh, i, init)
  {
  }

  // exit: the zombie's parent, asleep or not, is now awaited by its wakeup.
  lemma Dies(tasks: seq<Task>, i: nat, init: nat)
    requires i < |tasks| && TasksInv(tasks, Gone(i), init) && tasks[i].pc.Reparent?
    ensures var t := tasks[i].(status := Zombie, pc := Wake(ParentChan(tasks[i]), 0, {}, true));
            TasksInv(tasks[i := t], Gone(i), init)
  {
    var t := tasks[i].(status := Zombie, pc := Wake(ParentChan(tasks[i]), 0, {}, true));
    var tasks' := tasks[i := t];
    assert TaskOk(tasks[i], i, true, init);
    assert TaskOk(t, i, true, init);
    hide PcOk;
    forall j: nat | j < |tasks| ensures TaskOk(tasks'[j], j, Gone(i) == Gone(j), init) {
      assert TaskOk(tasks[j], j, Gone(i) == Gone(j), init);
    }
    forall p: nat | p < |tasks| ensures Chosen(tasks', p) {
      assert Chosen(tasks, p);
    }
    forall p: nat, d: nat | p < |tasks| && d < |tasks| ensures NotMissed(tasks', Gone(i), init, p, d) {
      assert NotMissed(tasks, Gone(i), init, p, d);
    }
    forall p: nat, d: nat | p < |tasks| && d < |tasks| ensures Scanned(tasks', p, d) {
      assert Scanned(tasks, p, d);
      assert TaskOk(tasks[p], p, i == p, init);
    }
  }

  // A dying task has woken task k, or found it not asleep on its channel.
  lemma WakesNext(tasks: seq<Task>, i: nat, init: nat)
    requires i < |tasks| && TasksInv(tasks, Gone(i), init) && tasks[i].pc.Wake? && tasks[i].pc.dying
    requires tasks[i].pc.k < |tasks| ==> Woken(tasks[tasks[i].pc.k], tasks[i].pc.chan) == tasks[tasks[i].pc.k]
    ensures var pc := tasks[i].pc;
            var pc' := if pc.k < |tasks| then Wake(pc.chan, pc.k + 1, pc.held, true) else Dead;
            TasksInv(tasks[i := tasks[i].(pc := pc')], Gone(i), init)
  {
    var pc := tasks[i].pc;
    var t := tasks[i].(pc := if pc.k < |tasks| then Wake(pc.chan, pc.k + 1, pc.held, true) else Dead);
    var tasks' := tasks[i := t];
    assert TaskOk(tasks[i], i, true, init);
    assert TaskOk(t, i, true, init);
    hide PcOk;
    forall j: nat | j < |tasks| ensures TaskOk(tasks'[j], j, Gone(i) == Gone(j), init) {
      assert TaskOk(tasks[j], j, Gone(i) == Gone(j), init);
    }
    forall p: nat | p < |tasks| ensures Chosen(tasks', p) {
      assert Chosen(tasks, p);
    }
    forall p: nat, d: nat | p < |tasks| && d < |tasks| ensures NotMissed(tasks', Gone(i), init, p, d) {
      assert NotMissed(tasks, Gone(i), init, p, d);
      assert TaskOk(tasks[p], p, i == p, init);
    }
    forall p: nat, d: nat | p < |tasks| && d < |tasks| ensures Scanned(tasks', p, d) {
      assert Scanned(tasks, p, d);
    }
  }

  // The scheduler makes init runnable.
  lemma Pokes(tasks: seq<Task>, sched: Sched, init: nat)
    requires TasksInv(tasks, sched, init) && !sched.Gone?
    ensures TasksInv(tasks[init := tasks[init].(status := Runnable)], sched, init)
  {
    assert TaskOk(tasks[init], init, false, init);
    if tasks[init].status == Sleeping {
      Wakes(tasks, sched, init, init);
    } else {
      assert tasks[init := tasks[init].(status := Runnable)] == tasks;
    }
  }

  // ---- Every step keeps the invariant and passes every check ------------------------------------

  ghost predicate Good(r: Res) { r.Ok? && Inv(r.s) }

  lemma CurrentOk(s: State, i: nat)
    requires Inv(s) && s.sched == Gone(i)
    ensures i < |s.tasks| && TaskOk(s.tasks[i], i, true, s.init) && Chosen(s.tasks, i)
    ensures s.locks == LocksAt(s.tasks[i].pc, i) && s.cpu.task == Some(i)
  {
  }

  // A lock of a task other than the current one is free.
  lemma OtherFree(s: State, i: nat, k: nat)
    requires Inv(s) && s.sched == Gone(i) && i < |s.tasks|
    requires k != i || TaskLock(i) !in LocksAt(s.tasks[i].pc, i)
    ensures TaskLock(k) !in s.locks
  {
    assert TaskOk(s.tasks[i], i, true, s.init);
  }

  lemma WokenOk(tasks: seq<Task>, sched: Sched, k: nat, chan: Chan, init: nat)
    requires k < |tasks| && TasksInv(tasks, sched, init)
    ensures TasksInv(tasks[k := Woken(tasks[k], chan)], sched, init)
  {
    if Woken(tasks[k], chan) == tasks[k] {
      assert tasks[k := Woken(tasks[k], chan)] == tasks;
    } else {
      Wakes(tasks, sched, k, init);
    }
  }

  lemma WakeOneOk(s: State, chan: Chan, k: nat)
    requires CpuOk(s.cpu, s.locks) && k < |s.tasks| && TaskLock(k) !in s.locks && TasksInv(s.tasks, s.sched, s.init)
    ensures var r := WakeOne(s, chan, k);
            && r.Ok? && r.s == s.(cpu := r.s.cpu, tasks := s.tasks[k := Woken(s.tasks[k], chan)])
            && CpuOk(r.s.cpu, s.locks) && r.s.cpu.task == s.cpu.task && TasksInv(r.s.tasks, s.sched, s.init)
  {
    hide Acquire, Release, TasksInv, CpuOk;
    AcquireOk(s, TaskLock(k));
    var s1 := Acquire(s, TaskLock(k)).s;
    var s2 := SetTask(s1, k, Woken(s1.tasks[k], chan));
    ReleaseOk(s2, TaskLock(k));
    assert s1.locks - {TaskLock(k)} == s.locks;
    WokenOk(s.tasks, s.sched, k, chan, s.init);
  }

  lemma {:induction false} WakeFromOk(s: State, chan: Chan, k: nat)
    requires Inv(s) && s.locks == {} && k <= |s.tasks|
    ensures Good(WakeFrom(s, chan, k)) && WakeFrom(s, chan, k).s.locks == {}
    decreases |s.tasks| - k
  {
    hide TasksInv, WakeOne, CpuOk;
    if k < |s.tasks| {
      WakeOneOk(s, chan, k);
      var s1 := WakeOne(s, chan, k).s;
      WakeFromOk(s1, chan, k + 1);
    }
  }

  lemma DeviceOk(s: State, chan: Chan)
    requires Inv(s) && s.cpu.intr
    ensures Good(Device(s, chan))
  {
    hide TasksInv;
    WakeFromOk(s.(cpu := s.cpu.(intr := false)), chan, 0);
  }

  lemma TimerOk(s: State, i: nat)
    requires Inv(s) && s.cpu.intr && s.sched == Gone(i)
    ensures i < |s.tasks| && Good(Timer(s, i))
  {
    hide TasksInv;
    CurrentOk(s, i);
    if s.tasks[i].status == Running {
      InterruptedAt(s.tasks[i], i, s.init);
      YieldOk(s.(cpu := s.cpu.(intr := false)), i, AfterYield(s.tasks[i].pc, true));
    }
  }

  // With no lock held, a running task is at a place it can be resumed at.
  lemma InterruptedAt(t: Task, i: nat, init: nat)
    requires TaskOk(t, i, true, init) && t.status == Running && LocksAt(t.pc, i) == {}
    ensures Unlocked(t.pc)
  {
  }

  lemma YieldOk(s: State, i: nat, next: Next)
    requires Inv(s) && s.sched == Gone(i) && i < |s.tasks| && s.locks == {} && s.tasks[i].status == Running
    requires next.AfterYield? && next.resume == s.tasks[i].pc && Unlocked(next.resume)
    ensures Good(Yield(s, i, next))
  {
    hide Acquire, PrepareSched, TasksInv, CpuOk;
    CurrentOk(s, i);
    AcquireOk(s, TaskLock(i));
    var s1 := Acquire(s, TaskLock(i)).s;
    var s2 := SetTask(s1, i, s1.tasks[i].(status := Runnable));
    PrepareSchedOk(s2, i, Switched(next));
    var t := s.tasks[i].(status := Runnable, pc := Switched(next), saved := s1.cpu.enable);
    YieldedOk(s.tasks[i], t, i, s.init);
    SwitchesAway(s.tasks, i, t, s.init);
    assert PrepareSched(s2, i, Switched(next)).s.tasks == s.tasks[i := t];
  }

  lemma YieldedOk(t: Task, u: Task, i: nat, init: nat)
    requires TaskOk(t, i, true, init) && t.status == Running && u.pc.Switched? && u.pc.next.AfterYield?
    requires u.pc.next.resume == t.pc && Unlocked(t.pc) && u.parent == t.parent && u.status == Runnable
    ensures TaskOk(u, i, false, init) && WaitsFor(u.pc) == WaitsFor(t.pc)
  {
    SamePc(t, u, t.pc, i, init);
  }

  /** sleep passes the checks of prepareSched exactly when the lock it is given is the
      only lock its caller holds. */
  lemma SleepOk(s: State, i: nat, chan: Chan, lk: Lock)
    requires Inv(s) && s.sched == Gone(i) && i < |s.tasks| && s.tasks[i].pc.Run? && lk in s.locks
    ensures Sleep(s, i, chan, lk).Ok? <==> s.locks == {lk}
    ensures s.locks == {lk} ==> Inv(Sleep(s, i, chan, lk).s)
  {
    hide Acquire, Release, TasksInv, CpuOk;
    CurrentOk(s, i);
    OtherFree(s, i, i);
    AcquireOk(s, TaskLock(i));
    var s1 := Acquire(s, TaskLock(i)).s;
    ReleaseOk(s1, lk);
    var s2 := Release(s1, lk).s;
    var s3 := SetTask(s2, i, s2.tasks[i].(chan := chan, status := Sleeping));
    var pc := Switched(AfterSleep(lk));
    if s.locks == {lk} {
      assert s1.locks - {lk} == {TaskLock(i)};
      PrepareSchedOk(s3, i, pc);
      var t := s.tasks[i].(chan := chan, status := Sleeping, pc := pc, saved := s2.cpu.enable);
      assert TaskOk(t, i, false, s.init);
      SwitchesAway(s.tasks, i, t, s.init);
      assert PrepareSched(s3, i, pc).s.tasks == s.tasks[i := t];
    } else {
      MoreLocks(s2, s.locks, lk, i);
    }
  }

  lemma MoreLocks(s: State, held: set<Lock>, lk: Lock, i: nat)
    requires CpuOk(s.cpu, s.locks) && lk in held && held != {lk} && TaskLock(i) !in held
    requires s.locks == held + {TaskLock(i)} - {lk}
    ensures s.cpu.noff != 1
  {
    var other :| other in held && other != lk;
    assert {other, TaskLock(i)} <= s.locks;
    Bigger({other, TaskLock(i)}, s.locks);
  }

  lemma Bigger(a: set<Lock>, b: set<Lock>)
    requires a <= b
    ensures |a| <= |b|
  {
    assert b == a + (b - a);
  }

  lemma SleepOnSelfOk(s: State, i: nat, next: Next)
    requires Inv(s) && s.sched == Gone(i) && i < |s.tasks| && s.locks == {TaskLock(i)} && s.tasks[i].status == Running
    requires next.AfterWait? || next.AfterWait4?
    requires WaitsFor(s.tasks[i].pc) == WaitsFor(Switched(next))
    requires forall c: nat ::
               (c < |s.tasks| && (next.AfterWait? || next == AfterWait4(c)) && s.tasks[c].parent == Some(i)) ==>
                 s.tasks[c].status != Zombie
    ensures Good(SleepOnSelf(s, i, next))
  {
    hide PrepareSched, TasksInv, CpuOk;
    CurrentOk(s, i);
    var s1 := SetTask(s, i, s.tasks[i].(chan := TaskChan(i), status := Sleeping));
    PrepareSchedOk(s1, i, Switched(next));
    var t := s.tasks[i].(chan := TaskChan(i), status := Sleeping, pc := Switched(next), saved := s.cpu.enable);
    assert TaskOk(t, i, false, s.init);
    SwitchesAway(s.tasks, i, t, s.init);
    assert PrepareSched(s1, i, Switched(next)).s.tasks == s.tasks[i := t];
  }

  // The current task goes on to pc with cpu and locks to match.
  lemma GoesOn(s: State, i: nat, cpu: Cpu, locks: set<Lock>, t: Task)
    requires Inv(s) && s.sched == Gone(i) && i < |s.tasks| && s.tasks[i].status == Running
    requires CpuOk(cpu, locks) && locks == LocksAt(t.pc, i) && cpu.task == Some(i)
    requires t.status == Running && t.parent == s.tasks[i].parent && TaskOk(t, i, true, s.init)
    requires WaitsFor(t.pc) == WaitsFor(s.tasks[i].pc) || Chosen(s.tasks[i := t], i)
    requires t.pc.Scan? ==> forall c: nat :: c < |s.tasks| && c < t.pc.k && s.tasks[c].parent == Some(i) ==>
               s.tasks[c].status != Zombie
    ensures Inv(s.(cpu := cpu, locks := locks, tasks := s.tasks[i := t]))
  {
    hide TasksInv, TaskOk, CpuOk, LocksAt;
    Moves(s.tasks, i, t, s.init);
  }

  lemma UnlockAndGo(s: State, i: nat, pc: Pc)
    requires Inv(s) && s.sched == Gone(i) && i < |s.tasks| && s.tasks[i].status == Running
    requires s.locks == {TaskLock(i)} && Unlocked(pc) && PcOk(s.tasks[i], pc, i, s.init)
    requires WaitsFor(pc) == WaitsFor(s.tasks[i].pc) || WaitsFor(pc) == None
    ensures Release(s, TaskLock(i)).Ok? && Inv(SetPc(Release(s, TaskLock(i)).s, i, pc))
  {
    hide Release, TasksInv, CpuOk;
    CurrentOk(s, i);
    ReleaseOk(s, TaskLock(i));
    var r := Release(s, TaskLock(i)).s;
    var t := s.tasks[i].(pc := pc);
    SamePc(s.tasks[i], t, pc, i, s.init);
    GoesOn(s, i, r.cpu, r.locks, t);
  }

  lemma LockAndGo(s: State, i: nat, l: Lock, pc: Pc)
    requires Inv(s) && s.sched == Gone(i) && i < |s.tasks| && s.tasks[i].status == Running
    requires l !in s.locks && LocksAt(pc, i) == s.locks + {l} && PcOk(s.tasks[i], pc, i, s.init) && !Dying(pc)
    requires !pc.Over?
    requires WaitsFor(pc) == WaitsFor(s.tasks[i].pc) && (pc.Scan? ==> pc.k == 0)
    ensures Acquire(s, l).Ok? && Inv(SetPc(Acquire(s, l).s, i, pc))
  {
    hide Acquire, TasksInv, CpuOk;
    CurrentOk(s, i);
    AcquireOk(s, l);
    var r := Acquire(s, l).s;
    var t := s.tasks[i].(pc := pc);
    SamePc(s.tasks[i], t, pc, i, s.init);
    GoesOn(s, i, r.cpu, r.locks, t);
  }

  lemma ResumeOk(s: State, i: nat, next: Next)
    requires Inv(s) && s.sched == Gone(i) && i < |s.tasks| && s.tasks[i].pc == Switched(next)
    ensures Good(Resume(s, i, next))
  {
    hide Release, TasksInv;
    CurrentOk(s, i);
    var s1 := s.(cpu := s.cpu.(enable := s.tasks[i].saved));
    assert Inv(s1);
    match next
    case AfterYield(resume, trap) =>
      ReleaseOk(s1, TaskLock(i));
      UnlockAndGo(s1, i, resume);
      NoLocksAt(resume, i);
      assert Release(s1, TaskLock(i)).s.locks == {};
    case AfterSleep(lk) =>
      var t := s1.tasks[i].(chan := NoChan);
      assert TaskOk(t, i, true, s.init);
      GoesOn(s1, i, s1.cpu, s1.locks, t);
      UnlockAndGo(SetTask(s1, i, t), i, Relock(lk));
    case AfterWait =>
      GoesOn(s1, i, s1.cpu, s1.locks, s1.tasks[i].(chan := NoChan, pc := Scan(0, false)));
    case AfterWait4(c) =>
      var t := s1.tasks[i].(chan := NoChan, pc := Scan4(c));
      assert Chosen(s1.tasks[i := t], i);
      GoesOn(s1, i, s1.cpu, s1.locks, t);
  }

  lemma NoLocksAt(pc: Pc, i: nat)
    requires Unlocked(pc)
    ensures LocksAt(pc, i) == {}
  {
  }

  // Locking and unlocking task k around a look at it.
  lemma LookOk(s: State, k: nat)
    requires CpuOk(s.cpu, s.locks) && TaskLock(k) !in s.locks && s.locks != {}
    ensures var r := Acquire(s, TaskLock(k));
            && r.Ok? && r.s == s.(cpu := r.s.cpu, locks := s.locks + {TaskLock(k)})
            && CpuOk(r.s.cpu, r.s.locks) && r.s.cpu.task == s.cpu.task
            && Release(r.s, TaskLock(k)) == Ok(s)
  {
    assert s.locks + {TaskLock(k)} - {TaskLock(k)} == s.locks;
  }

  lemma ReapOk(s: State, i: nat, c: nat)
    requires Inv(s) && s.sched == Gone(i) && i < |s.tasks| && c < |s.tasks| && s.locks == {TaskLock(i)}
    requires s.tasks[i].status == Running && s.tasks[c].parent == Some(i) && s.tasks[c].status == Zombie
    ensures c != i
    ensures var s1 := SetTask(s, c, Freed(s.tasks[c]));
            Release(s1, TaskLock(i)).Ok? && Inv(SetPc(Release(s1, TaskLock(i)).s, i, Run({})))
  {
    hide Release, TasksInv;
    CurrentOk(s, i);
    ReleaseOk(s, TaskLock(i));
    UnlockAndGo(s, i, Run({}));
    var r := Release(s, TaskLock(i)).s;
    var s2 := SetPc(r, i, Run({}));
    ChildNotSelf(s, i, c);
    Frees(s2.tasks, i, c, s.init);
    ReleaseTasks(s, SetTask(s, c, Freed(s.tasks[c])), TaskLock(i));
    assert s.tasks[c := Freed(s.tasks[c])][i := s.tasks[i].(pc := Run({}))] == s2.tasks[c := Freed(s.tasks[c])];
  }

  // Unlocking does not look at the tasks.
  lemma ReleaseTasks(a: State, b: State, l: Lock)
    requires b == a.(tasks := b.tasks) && Release(a, l).Ok?
    ensures Release(b, l) == Ok(Release(a, l).s.(tasks := b.tasks))
  {
  }

  lemma ScanOneOk(s: State, i: nat, k: nat, have: bool)
    requires Inv(s) && s.sched == Gone(i) && i < |s.tasks| && k < |s.tasks| && s.tasks[i].pc == Scan(k, have)
    ensures Good(ScanOne(s, i, k, have))
  {
    hide Release, Acquire, TasksInv;
    CurrentOk(s, i);
    if s.tasks[k].parent != Some(i) {
      SeenOne(s, i, k, have);
    } else {
      OtherFree(s, i, k);
      LookOk(s, k);
      if s.tasks[k].status != Zombie {
        SeenOne(s, i, k, true);
      } else {
        ReapOk(s, i, k);
        var s1 := Acquire(s, TaskLock(k)).s;
        ReleaseTasks(s1, SetTask(s1, k, Freed(s1.tasks[k])), TaskLock(k));
      }
    }
  }

  lemma SeenOne(s: State, i: nat, k: nat, have: bool)
    requires Inv(s) && s.sched == Gone(i) && i < |s.tasks| && k < |s.tasks| && s.tasks[i].pc.Scan?
    requires s.tasks[i].pc.k == k
    requires s.tasks[k].parent == Some(i) ==> s.tasks[k].status != Zombie
    ensures Inv(SetPc(s, i, Scan(k + 1, have)))
  {
    CurrentOk(s, i);
    hide CpuOk;
    assert forall c: nat {:trigger Scanned(s.tasks, i, c)} :: c < |s.tasks| ==> Scanned(s.tasks, i, c);
    forall c: nat | c < |s.tasks| && c < k + 1 && s.tasks[c].parent == Some(i) ensures s.tasks[c].status != Zombie {
      assert Scanned(s.tasks, i, c);
    }
    GoesOn(s, i, s.cpu, s.locks, s.tasks[i].(pc := Scan(k + 1, have)));
  }

  lemma EndScanOk(s: State, i: nat, k: nat, have: bool)
    requires Inv(s) && s.sched == Gone(i) && i < |s.tasks| && k >= |s.tasks| && s.tasks[i].pc == Scan(k, have)
    ensures Good(EndScan(s, i, have))
  {
    CurrentOk(s, i);
    if have {
      forall c: nat | c < |s.tasks| && s.tasks[c].parent == Some(i) ensures s.tasks[c].status != Zombie {
        assert Scanned(s.tasks, i, c);
      }
      hide CpuOk, TasksInv;
      SleepOnSelfOk(s, i, AfterWait);
    } else {
      hide CpuOk, TasksInv, Release;
      UnlockAndGo(s, i, Run({}));
    }
  }

  lemma Scan4OneOk(s: State, i: nat, c: nat)
    requires Inv(s) && s.sched == Gone(i) && i < |s.tasks| && s.tasks[i].pc == Scan4(c)
    ensures c < |s.tasks| && Good(Scan4One(s, i, c))
  {
    hide Release, Acquire, TasksInv;
    CurrentOk(s, i);
    ChildNotSelf(s, i, c);
    OtherFree(s, i, c);
    LookOk(s, c);
    if s.tasks[c].status == Zombie {
      ReapOk(s, i, c);
      var s1 := Acquire(s, TaskLock(c)).s;
      ReleaseTasks(s1, SetTask(s1, c, Freed(s1.tasks[c])), TaskLock(c));
    } else {
      SleepOnSelfOk(s, i, AfterWait4(c));
    }
  }

  lemma ChildNotSelf(s: State, i: nat, c: nat)
    requires Inv(s) && i < |s.tasks| && c < |s.tasks| && s.tasks[c].parent == Some(i)
    ensures c != i
  {
    assert TaskOk(s.tasks[c], c, s.sched == Gone(c), s.init);
  }

  lemma Wait4Ok(s: State, i: nat, c: nat)
    requires Inv(s) && s.sched == Gone(i) && i < |s.tasks| && c < |s.tasks| && s.tasks[i].pc == Run({})
    ensures Good(Wait4(s, i, c))
  {
    hide Release, Acquire, TasksInv, CpuOk;
    CurrentOk(s, i);
    AcquireOk(s, TaskLock(c));
    var s1 := Acquire(s, TaskLock(c)).s;
    ReleaseOk(s1, TaskLock(c));
    var s2 := Release(s1, TaskLock(c)).s;
    assert s2.locks == {};
    var pc := if s.tasks[c].parent == Some(i) then Check4(c) else Run({});
    var t := s.tasks[i].(pc := pc);
    if pc.Check4? { ParentUsed(s, i, c, t); }
    GoesOn(s, i, s2.cpu, s2.locks, t);
  }

  lemma ParentUsed(s: State, i: nat, c: nat, t: Task)
    requires Inv(s) && i < |s.tasks| && c < |s.tasks| && s.tasks[c].parent == Some(i) && t.pc == Check4(c)
    ensures Chosen(s.tasks[i := t], i)
  {
    ChildNotSelf(s, i, c);
    assert TaskOk(s.tasks[c], c, s.sched == Gone(c), s.init);
  }

  lemma ReparentOk(s: State, i: nat, k: nat)
    requires Inv(s) && s.sched == Gone(i) && i < |s.tasks| && s.tasks[i].pc == Reparent(k)
    ensures Good(TaskStep(s, i))
  {
    hide TasksInv, CpuOk;
    CurrentOk(s, i);
    if k >= |s.tasks| {
      Dies(s.tasks, i, s.init);
    } else {
      var s1 := s;
      if s.tasks[k].parent == Some(i) {
        HandsOver(s.tasks, i, k, s.init);
        ChildNotSelf(s, i, k);
        s1 := SetTask(s, k, s.tasks[k].(parent := Some(s.init)));
      }
      assert Inv(s1);
      GoesOn(s1, i, s1.cpu, s1.locks, s1.tasks[i].(pc := Reparent(k + 1)));
    }
  }

  lemma WakeStepOk(s: State, i: nat)
    requires Inv(s) && s.sched == Gone(i) && i < |s.tasks| && s.tasks[i].pc.Wake?
    ensures Good(TaskStep(s, i))
  {
    hide TasksInv, CpuOk, WakeOne;
    CurrentOk(s, i);
    var pc := s.tasks[i].pc;
    var s1 := s;
    if pc.k < |s.tasks| {
      OtherFree(s, i, pc.k);
      WakeOneOk(s, pc.chan, pc.k);
      s1 := WakeOne(s, pc.chan, pc.k).s;
      SelfAwake(s, i);
    }
    assert s1.tasks[i] == s.tasks[i] && Inv(s1);
    if pc.dying {
      WakesNext(s1.tasks, i, s.init);
    } else {
      CurrentOk(s1, i);
      var pc' := if pc.k < |s.tasks| then Wake(pc.chan, pc.k + 1, pc.held, false) else Run(pc.held);
      GoesOn(s1, i, s1.cpu, s1.locks, s1.tasks[i].(pc := pc'));
    }
  }

  lemma SelfAwake(s: State, i: nat)
    requires Inv(s) && s.sched == Gone(i) && i < |s.tasks|
    ensures s.tasks[i].status != Sleeping
  {
    assert TaskOk(s.tasks[i], i, true, s.init);
  }

  lemma LastSwitchOk(s: State, i: nat)
    requires Inv(s) && s.sched == Gone(i) && i < |s.tasks| && s.tasks[i].pc == Dead
    ensures Good(LastSwitch(s, i))
  {
    hide Acquire, PrepareSched, TasksInv, CpuOk;
    CurrentOk(s, i);
    AcquireOk(s, TaskLock(i));
    var s1 := Acquire(s, TaskLock(i)).s;
    PrepareSchedOk(s1, i, Over);
    Leaves(s.tasks, i, s1.cpu.enable, s.init);
  }

  lemma TaskStepOk(s: State, i: nat)
    requires Inv(s) && s.sched == Gone(i) && i < |s.tasks| && !s.tasks[i].pc.Run?
    ensures Good(TaskStep(s, i))
  {
    hide Inv, Release, Acquire, Resume, ScanOne, EndScan, Scan4One, WakeOne, LastSwitch;
    CurrentOk(s, i);
    match s.tasks[i].pc
    case Fresh => UnlockAndGo(s, i, Run({}));
    case Switched(next) => ResumeOk(s, i, next);
    case Relock(lk) => LockAndGo(s, i, lk, Run({lk}));
    case Scan(k, have) => if k < |s.tasks| { ScanOneOk(s, i, k, have); } else { EndScanOk(s, i, k, have); }
    case Check4(c) => LockAndGo(s, i, TaskLock(i), Scan4(c));
    case Scan4(c) => Scan4OneOk(s, i, c);
    case Reparent(k) => ReparentOk(s, i, k);
    case Wake(_, _, _, _) => WakeStepOk(s, i);
    case Dead => LastSwitchOk(s, i);
    case Over => assert false;
  }

  lemma CallOk(s: State, i: nat, c: Call)
    requires Inv(s) && s.sched == Gone(i) && i < |s.tasks| && s.tasks[i].pc.Run?
    requires Disciplined(s, i, s.tasks[i].pc.held, c)
    ensures Good(DoCall(s, i, s.tasks[i].pc.held, c))
  {
    hide Release, Acquire, Sleep, Yield, Wait4, TasksInv, CpuOk;
    CurrentOk(s, i);
    var held := s.tasks[i].pc.held;
    match c
    case SetIntr(on) => NoLocksCpu(s.cpu, on);
    case LockCall(lk) => LockAndGo(s, i, lk, Run(held + {lk}));
    case UnlockCall(lk) => UnlockOther(s, i, lk);
    case SleepCall(chan, lk) => SleepOk(s, i, chan, lk);
    case WakeCall(chan) => GoesOn(s, i, s.cpu, s.locks, s.tasks[i].(pc := Wake(chan, 0, held, false)));
    case YieldCall => YieldOk(s, i, AfterYield(Run(held), false));
    case WaitCall => LockAndGo(s, i, TaskLock(i), Scan(0, false));
    case Wait4Call(c) => Wait4Ok(s, i, c);
    case ForkCall(c) => Forks(s.tasks, i, c, s.tasks[c].saved, s.init);
    case ExitCall => GoesOn(s, i, s.cpu, s.locks, s.tasks[i].(pc := Reparent(0)));
  }

  lemma NoLocksCpu(cpu: Cpu, on: bool)
    ensures CpuOk(cpu, {}) ==> CpuOk(cpu.(intr := on), {})
  {
  }

  lemma UnlockOther(s: State, i: nat, lk: Lock)
    requires Inv(s) && s.sched == Gone(i) && i < |s.tasks| && s.tasks[i].pc.Run? && lk in s.tasks[i].pc.held
    ensures Release(s, lk).Ok? && Inv(SetPc(Release(s, lk).s, i, Run(s.tasks[i].pc.held - {lk})))
  {
    hide Release, TasksInv, CpuOk;
    CurrentOk(s, i);
    ReleaseOk(s, lk);
    var r := Release(s, lk).s;
    GoesOn(s, i, r.cpu, r.locks, s.tasks[i].(pc := Run(s.tasks[i].pc.held - {lk})));
  }

  lemma SchedStepOk(s: State)
    requires Inv(s) && !s.sched.Gone?
    ensures Good(SchedStep(s))
  {
    hide Release, Acquire, TasksInv, CpuOk;
    match s.sched
    case Idle(i) =>
      SchedMoves(s.tasks, s.sched, Idle(0), s.init);
      NoLocksCpu(s.cpu, true);
      if i < |s.tasks| {
        AcquireOk(s, TaskLock(i));
        SchedMoves(s.tasks, s.sched, Have(i), s.init);
      }
    case Have(i) =>
      var s1 := s;
      if s.tasks[i].status == Zombie {
        InitIs(s);
        Pokes(s.tasks, s.sched, s.init);
        s1 := Poke(s);
      }
      assert Inv(s1);
      if s1.tasks[i].status == Runnable {
        Dispatches(s1.tasks, s1.sched, i, s1.init);
        DispatchedAt(s1, i);
      } else {
        ReleaseOk(s1, TaskLock(i));
        SchedMoves(s1.tasks, s1.sched, Idle(i + 1), s.init);
      }
    case Back(i) =>
      var s1 := s.(cpu := s.cpu.(task := None));
      assert CpuOk(s1.cpu, s1.locks) by { TaskField(s.cpu, s.locks, None); }
      ReleaseOk(s1, TaskLock(i));
      SchedMoves(s.tasks, s.sched, Idle(i + 1), s.init);
  }

  lemma InitIs(s: State)
    requires Inv(s)
    ensures s.init < |s.tasks| && s.tasks[s.init].status != Zombie
  {
  }

  lemma TaskField(cpu: Cpu, locks: set<Lock>, task: Option<nat>)
    requires CpuOk(cpu, locks)
    ensures CpuOk(cpu.(task := task), locks)
  {
  }

  lemma DispatchedAt(s: State, i: nat)
    requires Inv(s) && s.sched == Have(i) && s.tasks[i].status == Runnable
    ensures LocksAt(s.tasks[i].pc, i) == {TaskLock(i)} && CpuOk(s.cpu.(task := Some(i)), s.locks)
  {
    assert TaskOk(s.tasks[i], i, false, s.init);
  }

  /** Every step of the kernel keeps the invariant, and no check panics. */
  lemma StepInv(s: State, a: Action)
    requires Inv(s) && Enabled(s, a)
    ensures s.init < |s.tasks| && Good(Do(s, a))
  {
    hide Inv, SchedStep, TaskStep, DoCall, Timer, Device;
    InitIs(s);
    match a
    case SchedAct => SchedStepOk(s);
    case TaskAct => TaskStepOk(s, s.sched.i);
    case CallAct(c) => CallOk(s, s.sched.i, c);
    case TimerAct => if s.sched.Gone? { TimerOk(s, s.sched.i); }
    case DeviceAct(chan) => DeviceOk(s, chan);
  }

  // ---- Whole runs ------------------------------------------------------------------------------

  // Only init exists, ready to start, and the scheduler is at the top of its loop.
  predicate Booted(s: State) {
    && s.init < |s.tasks| && s.sched == Idle(0) && s.locks == {} && s.cpu.noff == 0 && s.cpu.task == None
    && forall i: nat :: i < |s.tasks| ==>
        s.tasks[i].parent == None && s.tasks[i].chan == NoChan &&
        s.tasks[i].status == (if i == s.init then Runnable else Unused) &&
        s.tasks[i].pc == (if i == s.init then Fresh else Over)
  }

  lemma BootedInv(s: State)
    requires Booted(s)
    ensures Inv(s)
  {
    forall i: nat | i < |s.tasks| ensures TaskOk(s.tasks[i], i, false, s.init) {
      FreshOk(s.tasks[i], i, s.init);
      OverOk(s.tasks[i], i, s.init);
    }
  }

  // Where a sequence of actions leads, or the first panic.
  ghost function After(s: State, acts: seq<Action>): Res {
    if acts == [] then Ok(s)
    else
      var r :- After(s, acts[..|acts| - 1]);
      if r.init < |r.tasks| && Enabled(r, acts[|acts| - 1]) then Do(r, acts[|acts| - 1]) else Ok(r)
  }

  /** No check of the kernel ever panics: whatever the tasks, the devices and the timer do,
      in any order. */
  lemma {:induction false} RunInv(s: State, acts: seq<Action>)
    requires Booted(s)
    ensures Good(After(s, acts))
  {
    hide Inv, Do;
    if acts == [] {
      BootedInv(s);
    } else {
      RunInv(s, acts[..|acts| - 1]);
      var r := After(s, acts[..|acts| - 1]).s;
      if r.init < |r.tasks| && Enabled(r, acts[|acts| - 1]) { StepInv(r, acts[|acts| - 1]); }
    }
  }

  // The two ends of a switch: the scheduler has just gone to task i, or come back from it.
  predicate AtSwitch(s: State, i: nat) {
    i < |s.tasks| && (s.sched == Back(i) || (s.sched == Gone(i) && (s.tasks[i].pc.Fresh? || s.tasks[i].pc.Switched?)))
  }

  /** Every switch happens with interrupts off, one level of nesting, and no lock held but
      the switched task's. */
  lemma SwitchSafe(s: State, acts: seq<Action>, i: nat)
    requires Booted(s) && After(s, acts).Ok? && AtSwitch(After(s, acts).s, i)
    ensures var r := After(s, acts).s; !r.cpu.intr && r.cpu.noff == 1 && r.locks == {TaskLock(i)}
  {
    hide After;
    RunInv(s, acts);
  }

  /** A running task is the CPU's current task, so at most one is running. */
  lemma RunningIsCurrent(s: State, acts: seq<Action>, i: nat)
    requires Booted(s) && After(s, acts).Ok? && i < |After(s, acts).s.tasks|
    requires After(s, acts).s.tasks[i].status == Running
    ensures After(s, acts).s.cpu.task == Some(i)
  {
    hide After, PcOk;
    RunInv(s, acts);
    var r := After(s, acts).s;
    assert TaskOk(r.tasks[i], i, r.sched == Gone(i), r.init);
  }

  /** The nesting depth counts the locks held, interrupts are never on while one is, and
      between two tasks the scheduler holds none. */
  lemma LocksAndInterrupts(s: State, acts: seq<Action>)
    requires Booted(s) && After(s, acts).Ok?
    ensures var r := After(s, acts).s;
            && r.cpu.noff == |r.locks| && (r.locks != {} ==> !r.cpu.intr)
            && (r.sched.Idle? ==> r.locks == {})
  {
    hide After;
    RunInv(s, acts);
  }

  /** No child is missed: while p sleeps in wait (p not init) or in wait4 for c, its zombie
      child c is one that is at this moment inside exit, on its way to waking p. */
  lemma NoChildMissed(s: State, acts: seq<Action>, p: nat, c: nat)
    requires Booted(s) && After(s, acts).Ok?
    requires var r := After(s, acts).s;
             && p < |r.tasks| && c < |r.tasks| && AsleepFor(r.tasks[p], c) && r.tasks[c].parent == Some(p) &&
                 r.tasks[c].status == Zombie
             && (p != r.init || r.tasks[p].pc.next.AfterWait4?)
    ensures var r := After(s, acts).s;
            Pending(r.tasks, r.sched, c, p) && r.tasks[c].pc.chan == r.tasks[p].chan == TaskChan(p)
  {
    hide After;
    RunInv(s, acts);
    var r := After(s, acts).s;
    assert NotMissed(r.tasks, r.sched, r.init, p, c);
    assert TaskOk(r.tasks[p], p, r.sched == Gone(p), r.init);
    assert TaskOk(r.tasks[c], c, true, r.init);
  }

  // ---- init and the children handed to it --------------------------------------------------------

  predicate InitWaits(s: State) {
    s.init < |s.tasks| && s.tasks[s.init].status == Sleeping && s.tasks[s.init].pc == Switched(AfterWait)
  }

  /** init sleeps in wait beside its zombie child c, and c is not on the way to wake it. */
  predicate Stranded(s: State, c: nat) {
    && InitWaits(s) && c < |s.tasks| && s.tasks[c].parent == Some(s.init) && s.tasks[c].status == Zombie
    && !Pending(s.tasks, s.sched, c, s.init)
  }

  // The step at which an exiting task gives its zombie child c to a sleeping init.
  predicate Strands(s: State, a: Action, c: nat) {
    && a == TaskAct && s.sched.Gone? && s.sched.i < |s.tasks| && c < |s.tasks|
    && s.tasks[s.sched.i].pc == Reparent(c) && s.tasks[c].parent == Some(s.sched.i) && s.tasks[c].status == Zombie
    && InitWaits(s)
  }

  // A change of a task that makes it neither a zombie nor a sleeper.
  predicate Calm(t: Task, t': Task) { t' == t || (t'.status != Zombie && t'.status != Sleeping) }

  // A step of the running task i that touches the others calmly and does not put init to wait.
  ghost predicate CalmStep(s: State, s': State, i: nat) {
    && i < |s.tasks| && s'.init == s.init && |s'.tasks| == |s.tasks| && (s'.sched == s.sched || s'.sched == Back(i))
    && (forall j: nat :: j < |s.tasks| && j != i ==> Calm(s.tasks[j], s'.tasks[j]))
    && s'.tasks[i].status != Zombie && !(i == s.init && InitWaits(s'))
  }

  lemma CalmStrands(s: State, s': State, i: nat, c: nat)
    requires Inv(s) && s.sched == Gone(i) && CalmStep(s, s', i) && Stranded(s', c)
    ensures Stranded(s, c)
  {
    assert c != i && s.tasks[c] == s'.tasks[c];
    assert i != s.init;
    assert s.tasks[s.init] == s'.tasks[s.init];
  }

  // Locking changes no task.
  lemma LocksOnly(s: State, l: Lock)
    ensures Acquire(s, l).Ok? ==> var r := Acquire(s, l).s; r.tasks == s.tasks && r.sched == s.sched && r.init == s.init
    ensures Release(s, l).Ok? ==> var r := Release(s, l).s; r.tasks == s.tasks && r.sched == s.sched && r.init == s.init
  {
  }

  lemma WakeOneOnly(s: State, chan: Chan, k: nat)
    requires k < |s.tasks| && WakeOne(s, chan, k).Ok?
    ensures var r := WakeOne(s, chan, k).s;
            r.tasks == s.tasks[k := Woken(s.tasks[k], chan)] && r.sched == s.sched && r.init == s.init
  {
    hide Acquire, Release;
    LocksOnly(s, TaskLock(k));
    var s1 := Acquire(s, TaskLock(k)).s;
    LocksOnly(SetTask(s1, k, Woken(s1.tasks[k], chan)), TaskLock(k));
  }

  lemma ResumeCalm(s: State, i: nat, next: Next)
    requires i < |s.tasks| && s.tasks[i].status == Running && Resume(s, i, next).Ok?
    ensures CalmStep(s, Resume(s, i, next).s, i)
  {
    hide Acquire, Release;
    var s1 := s.(cpu := s.cpu.(enable := s.tasks[i].saved));
    LocksOnly(s1, TaskLock(i));
    LocksOnly(SetTask(s1, i, s1.tasks[i].(chan := NoChan)), TaskLock(i));
  }

  lemma ScanCalm(s: State, i: nat, k: nat, have: bool)
    requires i < |s.tasks| && k < |s.tasks| && s.tasks[i].status == Running && ScanOne(s, i, k, have).Ok?
    requires s.tasks[k].parent == Some(i) ==> k != i
    ensures CalmStep(s, ScanOne(s, i, k, have).s, i)
  {
    hide Acquire, Release;
    LocksOnly(s, TaskLock(k));
    if Acquire(s, TaskLock(k)).Ok? {
      var s1 := Acquire(s, TaskLock(k)).s;
      LocksOnly(s1, TaskLock(k));
      var s2 := SetTask(s1, k, Freed(s1.tasks[k]));
      LocksOnly(s2, TaskLock(k));
      if Release(s2, TaskLock(k)).Ok? { LocksOnly(Release(s2, TaskLock(k)).s, TaskLock(i)); }
    }
  }

  lemma Scan4Calm(s: State, i: nat, c: nat)
    requires i < |s.tasks| && c < |s.tasks| && c != i && s.tasks[i].status == Running && Scan4One(s, i, c).Ok?
    ensures CalmStep(s, Scan4One(s, i, c).s, i)
  {
    hide Acquire, Release;
    LocksOnly(s, TaskLock(c));
    var s1 := Acquire(s, TaskLock(c)).s;
    LocksOnly(s1, TaskLock(c));
    var s2 := SetTask(s1, c, Freed(s1.tasks[c]));
    LocksOnly(s2, TaskLock(c));
    if Release(s2, TaskLock(c)).Ok? { LocksOnly(Release(s2, TaskLock(c)).s, TaskLock(i)); }
  }

  lemma SeenAll(s: State, i: nat, c: nat)
    requires Inv(s) && i < |s.tasks| && s.tasks[i].pc.Scan? && s.tasks[i].pc.k >= |s.tasks|
    ensures c < |s.tasks| && s.tasks[c].parent == Some(i) ==> s.tasks[c].status != Zombie
  {
    if c < |s.tasks| { assert Scanned(s.tasks, i, c); }
  }

  // wait goes to sleep only over children that are not zombies.
  lemma EndScanStrands(s: State, i: nat, k: nat, have: bool, c: nat)
    requires Inv(s) && s.sched == Gone(i) && i < |s.tasks| && k >= |s.tasks| && s.tasks[i].pc == Scan(k, have)
    requires EndScan(s, i, have).Ok? && Stranded(EndScan(s, i, have).s, c)
    ensures Stranded(s, c)
  {
    CurrentOk(s, i);
    hide Acquire, Release;
    LocksOnly(s, TaskLock(i));
    SeenAll(s, i, c);
    var s' := EndScan(s, i, have).s;
    if !(have && i == s.init) {
      assert CalmStep(s, s', i);
      CalmStrands(s, s', i, c);
    }
  }

  lemma ReparentStrands(s: State, i: nat, k: nat, c: nat)
    requires Inv(s) && s.sched == Gone(i) && i < |s.tasks| && s.tasks[i].pc == Reparent(k) && TaskStep(s, i).Ok?
    ensures Stranded(TaskStep(s, i).s, c) && !Stranded(s, c) <==> Strands(s, TaskAct, c)
  {
    CurrentOk(s, i);
    if c < |s.tasks| && s.tasks[c].parent == Some(i) { ChildNotSelf(s, i, c); }
    assert i != s.init;
    if k < |s.tasks| && s.tasks[k].parent == Some(i) { ChildNotSelf(s, i, k); }
  }

  lemma WakeStrands(s: State, i: nat, c: nat)
    requires Inv(s) && s.sched == Gone(i) && i < |s.tasks| && s.tasks[i].pc.Wake? && TaskStep(s, i).Ok?
    requires Stranded(TaskStep(s, i).s, c)
    ensures Stranded(s, c)
  {
    CurrentOk(s, i);
    hide WakeOne;
    var pc, s' := s.tasks[i].pc, TaskStep(s, i).s;
    if pc.k < |s.tasks| {
      WakeOneOnly(s, pc.chan, pc.k);
      SelfAwake(s, i);
    }
    SleepsOnSelf(s);
    if pc.dying && c == i {
      assert s.tasks[s.init] == s'.tasks[s.init];
    } else {
      assert c != i && s.tasks[c] == s'.tasks[c];
    }
  }

  // While init waits it sleeps on its own channel.
  lemma SleepsOnSelf(s: State)
    requires Inv(s)
    ensures InitWaits(s) ==> s.tasks[s.init].chan == TaskChan(s.init) && s.sched != Gone(s.init)
  {
    if InitWaits(s) { assert TaskOk(s.tasks[s.init], s.init, s.sched == Gone(s.init), s.init); }
  }

  lemma LastSwitchStrands(s: State, i: nat, c: nat)
    requires Inv(s) && s.sched == Gone(i) && i < |s.tasks| && s.tasks[i].pc == Dead && LastSwitch(s, i).Ok?
    requires Stranded(LastSwitch(s, i).s, c)
    ensures Stranded(s, c)
  {
    CurrentOk(s, i);
    hide Acquire;
    LocksOnly(s, TaskLock(i));
  }

  lemma TaskStrands(s: State, i: nat, c: nat)
    requires Inv(s) && s.sched == Gone(i) && i < |s.tasks| && !s.tasks[i].pc.Run? && TaskStep(s, i).Ok?
    ensures Stranded(TaskStep(s, i).s, c) && !Stranded(s, c) <==> Strands(s, TaskAct, c)
  {
    hide Inv, Acquire, Release, Resume, ScanOne, EndScan, Scan4One, LastSwitch, Stranded, CalmStep, WakeOne, PcOk;
    CurrentOk(s, i);
    var s' := TaskStep(s, i).s;
    LocksOnly(s, TaskLock(i));
    match s.tasks[i].pc
    case Fresh => if Stranded(s', c) { PcCalm(s, s', i); CalmStrands(s, s', i, c); }
    case Switched(next) => if Stranded(s', c) { ResumeCalm(s, i, next); CalmStrands(s, s', i, c); }
    case Relock(lk) => if Stranded(s', c) { LocksOnly(s, lk); PcCalm(s, s', i); CalmStrands(s, s', i, c); }
    case Scan(k, have) =>
      if Stranded(s', c) {
        if k < |s.tasks| {
          if s.tasks[k].parent == Some(i) { ChildNotSelf(s, i, k); }
          ScanCalm(s, i, k, have);
          CalmStrands(s, s', i, c);
        } else {
          EndScanStrands(s, i, k, have, c);
        }
      }
    case Check4(_) => if Stranded(s', c) { PcCalm(s, s', i); CalmStrands(s, s', i, c); }
    case Scan4(d) =>
      if Stranded(s', c) {
        ChildNotSelf(s, i, d);
        Scan4Calm(s, i, d);
        CalmStrands(s, s', i, c);
      }
    case Reparent(k) => ReparentStrands(s, i, k, c);
    case Wake(_, _, _, _) => if Stranded(s', c) { WakeStrands(s, i, c); }
    case Dead => if Stranded(s', c) { LastSwitchStrands(s, i, c); }
    case Over =>
  }

  // Only the place of the running task changed.
  lemma PcCalm(s: State, s': State, i: nat)
    requires i < |s.tasks| == |s'.tasks| && s.tasks[i].status == Running && s'.init == s.init && s'.sched == s.sched
    requires s'.tasks == s.tasks[i := s.tasks[i].(pc := s'.tasks[i].pc)]
    ensures CalmStep(s, s', i)
  {
  }

  lemma CallStrands(s: State, i: nat, call: Call, c: nat)
    requires Inv(s) && s.sched == Gone(i) && i < |s.tasks| && s.tasks[i].pc.Run?
    requires Disciplined(s, i, s.tasks[i].pc.held, call) && DoCall(s, i, s.tasks[i].pc.held, call).Ok?
    requires Stranded(DoCall(s, i, s.tasks[i].pc.held, call).s, c)
    ensures Stranded(s, c)
  {
    hide Inv, Acquire, Release, Stranded, PcOk;
    CurrentOk(s, i);
    var s' := DoCall(s, i, s.tasks[i].pc.held, call).s;
    LocksOnly(s, TaskLock(i));
    match call {
      case LockCall(lk) => LocksOnly(s, lk);
      case UnlockCall(lk) => LocksOnly(s, lk);
      case SleepCall(_, lk) =>
        if Acquire(s, TaskLock(i)).Ok? { LocksOnly(Acquire(s, TaskLock(i)).s, lk); }
      case Wait4Call(d) =>
        LocksOnly(s, TaskLock(d));
        if Acquire(s, TaskLock(d)).Ok? { LocksOnly(Acquire(s, TaskLock(d)).s, TaskLock(d)); }
      case _ =>
    }
    assert CalmStep(s, s', i);
    CalmStrands(s, s', i, c);
  }

  lemma {:induction false} WakeFromOnly(s: State, chan: Chan, k: nat)
    requires k <= |s.tasks| && WakeFrom(s, chan, k).Ok?
    ensures var r := WakeFrom(s, chan, k).s;
            && r.sched == s.sched && r.init == s.init && |r.tasks| == |s.tasks|
            && forall j: nat :: j < |s.tasks| ==>
                r.tasks[j] == s.tasks[j] || (s.tasks[j].status == Sleeping && r.tasks[j].status == Runnable)
    decreases |s.tasks| - k
  {
    hide WakeOne;
    if k < |s.tasks| {
      WakeOneOnly(s, chan, k);
      WakeFromOnly(WakeOne(s, chan, k).s, chan, k + 1);
    }
  }

  lemma DeviceStrands(s: State, chan: Chan, c: nat)
    requires Inv(s) && Device(s, chan).Ok? && Stranded(Device(s, chan).s, c)
    ensures Stranded(s, c)
  {
    hide WakeFrom, TasksInv;
    var s1 := s.(cpu := s.cpu.(intr := false));
    WakeFromOnly(s1, chan, 0);
    var s' := Device(s, chan).s;
    assert s'.tasks[c] == s.tasks[c] && s'.tasks[s.init] == s.tasks[s.init];
  }

  lemma TimerStrands(s: State, i: nat, c: nat)
    requires Inv(s) && s.sched == Gone(i) && i < |s.tasks| && Timer(s, i).Ok? && Stranded(Timer(s, i).s, c)
    ensures Stranded(s, c)
  {
    hide Acquire, Inv, Stranded;
    if s.tasks[i].status == Running {
      var s1 := s.(cpu := s.cpu.(intr := false));
      LocksOnly(s1, TaskLock(i));
      assert CalmStep(s, Timer(s, i).s, i);
      CalmStrands(s, Timer(s, i).s, i, c);
    }
  }

  lemma SchedStrands(s: State, c: nat)
    requires Inv(s) && !s.sched.Gone? && SchedStep(s).Ok? && Stranded(SchedStep(s).s, c)
    ensures Stranded(s, c)
  {
    hide Acquire, Release, TasksInv;
    InitIs(s);
    LocksOnly(s, TaskLock(s.sched.i));
    LocksOnly(s.(cpu := s.cpu.(task := None)), TaskLock(s.sched.i));
    LocksOnly(Poke(s), TaskLock(s.sched.i));
  }

  /** Exactly when a child is left behind: a step strands c that was not stranded before if
      and only if it is the exiting parent of c handing the zombie c over while init waits. */
  lemma StrandedIff(s: State, a: Action, c: nat)
    requires Inv(s) && Enabled(s, a)
    ensures s.init < |s.tasks| && Do(s, a).Ok?
    ensures !Stranded(s, c) && Stranded(Do(s, a).s, c) <==> Strands(s, a, c)
  {
    StepInv(s, a);
    hide Inv, SchedStep, TaskStep, DoCall, Timer, Device, Stranded;
    match a
    case SchedAct => if Stranded(Do(s, a).s, c) { SchedStrands(s, c); }
    case TaskAct => TaskStrands(s, s.sched.i, c);
    case CallAct(call) => if Stranded(Do(s, a).s, c) { CallStrands(s, s.sched.i, call, c); }
    case TimerAct => if s.sched.Gone? && Stranded(Do(s, a).s, c) { TimerStrands(s, s.sched.i, c); }
    case DeviceAct(chan) => if Stranded(Do(s, a).s, c) { DeviceStrands(s, chan, c); }
  }

  // ---- The scheduler finds every zombie --------------------------------------------------------------

  // Passing a zombie, the scheduler makes init runnable: nobody is stranded after it.
  lemma SchedulerPokesInit(s: State, c: nat)
    requires Inv(s) && s.sched.Have? && s.tasks[s.sched.i].status == Zombie
    ensures var r := SchedStep(s); r.Ok? && r.s.tasks[r.s.init].status == Runnable && !Stranded(r.s, c)
  {
    hide Release, TasksInv;
    SchedStepOk(s);
    InitIs(s);
    ReleaseOk(Poke(s), TaskLock(s.sched.i));
  }

  // A run from any state that keeps the invariant.
  ghost predicate IsRun(states: seq<State>, acts: seq<Action>) {
    && |states| == |acts| + 1 && Inv(states[0])
    && forall k :: 0 <= k < |acts| ==>
         Enabled(states[k], acts[k]) && states[k].init < |states[k].tasks| &&
             Do(states[k], acts[k]) == Ok(states[k + 1])
  }

  lemma {:induction false} IsRunInv(states: seq<State>, acts: seq<Action>, k: nat)
    requires IsRun(states, acts) && k < |states|
    ensures Inv(states[k])
  {
    hide Inv, Do;
    if k > 0 {
      IsRunInv(states, acts, k - 1);
      StepInv(states[k - 1], acts[k - 1]);
    }
  }

  // The scheduler has not passed task c, and is not at it except to look.
  predicate NotPast(s: State, c: nat) {
    s.sched.i <= c && s.sched != Gone(c) && s.sched != Back(c)
  }

  lemma NotPastStep(s: State, a: Action, c: nat)
    requires Inv(s) && Enabled(s, a) && NotPast(s, c) && c < |s.tasks| && s.tasks[c].status == Zombie
    ensures s.init < |s.tasks| && Do(s, a).Ok? && (!NotPast(Do(s, a).s, c) ==> s.sched == Have(c) && a == SchedAct)
  {
    StepInv(s, a);
    hide Inv, TasksInv;
    match a
    case SchedAct => SchedPast(s, c);
    case TaskAct => TaskPlace(s, s.sched.i);
    case CallAct(call) => CallPlace(s, s.sched.i, call);
    case TimerAct =>
      if s.sched.Gone? {
        hide Acquire;
        LocksOnly(s.(cpu := s.cpu.(intr := false)), TaskLock(s.sched.i));
      }
    case DeviceAct(chan) =>
      hide WakeFrom;
      WakeFromOnly(s.(cpu := s.cpu.(intr := false)), chan, 0);
  }

  lemma SchedPast(s: State, c: nat)
    requires Inv(s) && !s.sched.Gone? && NotPast(s, c) && c < |s.tasks| && s.tasks[c].status == Zombie
    ensures s.init < |s.tasks|
    ensures SchedStep(s).Ok? && !NotPast(SchedStep(s).s, c) ==> s.sched == Have(c)
  {
    hide Acquire, Release, TasksInv;
    InitIs(s);
    LocksOnly(s, TaskLock(s.sched.i));
    LocksOnly(s.(cpu := s.cpu.(task := None)), TaskLock(s.sched.i));
    LocksOnly(Poke(s), TaskLock(s.sched.i));
  }

  // A step of the running task leaves the scheduler where it is, or switches back to it.
  lemma TaskPlace(s: State, i: nat)
    requires Inv(s) && s.sched == Gone(i) && i < |s.tasks| && !s.tasks[i].pc.Run? && TaskStep(s, i).Ok?
    ensures TaskStep(s, i).s.sched == Gone(i) || TaskStep(s, i).s.sched == Back(i)
  {
    hide Inv, Acquire, Release, Resume, ScanOne, Scan4One, WakeOne, PcOk, CalmStep;
    CurrentOk(s, i);
    LocksOnly(s, TaskLock(i));
    match s.tasks[i].pc
    case Switched(next) => ResumeCalm(s, i, next); CalmPlace(s, TaskStep(s, i).s, i);
    case Relock(lk) => LocksOnly(s, lk);
    case Scan(k, have) =>
      if k < |s.tasks| {
        if s.tasks[k].parent == Some(i) { ChildNotSelf(s, i, k); }
        ScanCalm(s, i, k, have);
        CalmPlace(s, TaskStep(s, i).s, i);
      }
    case Scan4(d) =>
      ChildNotSelf(s, i, d);
      Scan4Calm(s, i, d);
      CalmPlace(s, TaskStep(s, i).s, i);
    case Wake(chan, k, _, _) => if k < |s.tasks| { WakeOneOnly(s, chan, k); }
    case _ =>
  }

  lemma CalmPlace(s: State, s': State, i: nat)
    requires CalmStep(s, s', i) && s.sched == Gone(i)
    ensures s'.sched == Gone(i) || s'.sched == Back(i)
  {
  }

  lemma CallPlace(s: State, i: nat, call: Call)
    requires Inv(s) && s.sched == Gone(i) && i < |s.tasks| && s.tasks[i].pc.Run?
    requires Disciplined(s, i, s.tasks[i].pc.held, call) && DoCall(s, i, s.tasks[i].pc.held, call).Ok?
    ensures var r := DoCall(s, i, s.tasks[i].pc.held, call).s; r.sched == Gone(i) || r.sched == Back(i)
  {
    hide Inv, Acquire, Release;
    LocksOnly(s, TaskLock(i));
    match call {
      case LockCall(lk) => LocksOnly(s, lk);
      case UnlockCall(lk) => LocksOnly(s, lk);
      case SleepCall(_, lk) =>
        if Acquire(s, TaskLock(i)).Ok? { LocksOnly(Acquire(s, TaskLock(i)).s, lk); }
      case Wait4Call(d) =>
        LocksOnly(s, TaskLock(d));
        if Acquire(s, TaskLock(d)).Ok? { LocksOnly(Acquire(s, TaskLock(d)).s, TaskLock(d)); }
      case _ =>
    }
  }

  // A child stranded from the start of a pass on has not been passed.
  lemma {:induction false} StillAhead(states: seq<State>, acts: seq<Action>, c: nat, k: nat)
    requires IsRun(states, acts) && states[0].sched == Idle(0) && k < |states|
    requires forall j :: 0 <= j <= k ==> Stranded(states[j], c)
    ensures NotPast(states[k], c) && c < |states[k].tasks|
  {
    hide Inv, Do, Stranded;
    assert Stranded(states[k], c);
    StrandedIs(states[k], c);
    if k > 0 {
      StillAhead(states, acts, c, k - 1);
      IsRunInv(states, acts, k - 1);
      assert Stranded(states[k - 1], c);
      StrandedIs(states[k - 1], c);
      NotPastStep(states[k - 1], acts[k - 1], c);
      if !NotPast(states[k], c) {
        PokeSeen(states[k - 1], states[k], acts[k - 1], c);
      }
    }
  }

  lemma PokeSeen(s: State, s': State, a: Action, c: nat)
    requires Inv(s) && s.sched == Have(c) && a == SchedAct && c < |s.tasks| && s.tasks[c].status == Zombie
    requires Enabled(s, a) && s.init < |s.tasks| && Do(s, a) == Ok(s')
    ensures !Stranded(s', c)
  {
    hide Inv, SchedStep, Stranded;
    SchedulerPokesInit(s, c);
  }

  lemma StrandedIs(s: State, c: nat)
    requires Stranded(s, c)
    ensures c < |s.tasks| && s.tasks[c].status == Zombie
  {
  }

  /** No child stays stranded for a pass of the scheduler: whatever happens meanwhile, between
      the top of the loop and its end there is a state in which c is not stranded. */
  lemma FullPass(states: seq<State>, acts: seq<Action>, c: nat)
    requires IsRun(states, acts) && states[0].sched == Idle(0)
    requires var last := states[|states| - 1]; last.sched.Idle? && last.sched.i >= |last.tasks|
    ensures exists k :: 0 <= k < |states| && !Stranded(states[k], c)
  {
    hide Inv, Do, Stranded;
    if forall k :: 0 <= k < |states| ==> Stranded(states[k], c) {
      StillAhead(states, acts, c, |states| - 1);
    }
  }

  /** So a child stranded at the end of a pass was handed over during that pass. */
  lemma StrandedInPass(states: seq<State>, acts: seq<Action>, c: nat)
    requires IsRun(states, acts) && states[0].sched == Idle(0)
    requires var last := states[|states| - 1]; last.sched.Idle? && last.sched.i >= |last.tasks| && Stranded(last, c)
    ensures exists k :: 0 <= k < |acts| && Strands(states[k], acts[k], c)
  {
    hide Inv, Do, Stranded, Strands;
    FullPass(states, acts, c);
    var k :| 0 <= k < |states| && !Stranded(states[k], c);
    HandedOver(states, acts, c, k);
  }

  lemma {:induction false} HandedOver(states: seq<State>, acts: seq<Action>, c: nat, k: nat)
    requires IsRun(states, acts) && k < |states| && !Stranded(states[k], c) && Stranded(states[|states| - 1], c)
    ensures exists j :: 0 <= j < |acts| && Strands(states[j], acts[j], c)
    decreases |states| - k
  {
    hide Inv, Do, Stranded, Strands;
    IsRunInv(states, acts, k);
    StrandedIff(states[k], acts[k], c);
    if !Stranded(states[k + 1], c) { HandedOver(states, acts, c, k + 1); }
  }

  // ---- Reaching states -------------------------------------------------------------------------------

  ghost predicate Reaches(s: State, t: State) {
    exists acts: seq<Action> :: After(s, acts) == Ok(t)
  }

  lemma ReachSelf(s: State)
    ensures Reaches(s, s)
  {
    assert After(s, []) == Ok(s);
  }

  lemma ReachStep(s: State, t: State, a: Action, t': State)
    requires Reaches(s, t) && t.init < |t.tasks| && Enabled(t, a) && Do(t, a) == Ok(t')
    ensures Reaches(s, t')
  {
    hide Do;
    var acts: seq<Action> :| After(s, acts) == Ok(t);
    var acts' := acts + [a];
    assert acts'[..|acts'| - 1] == acts;
    assert After(s, acts') == Ok(t');
  }

  lemma ReachTrans(s: State, t: State, u: State)
    requires Reaches(s, t) && Reaches(t, u)
    ensures Reaches(s, u)
  {
    var b: seq<Action> :| After(t, b) == Ok(u);
    ReachRun(s, t, b);
  }

  lemma {:induction false} ReachRun(s: State, t: State, b: seq<Action>)
    requires Reaches(s, t) && After(t, b).Ok?
    ensures Reaches(s, After(t, b).s)
  {
    hide Do, Reaches;
    if b != [] {
      var b0, a := b[..|b| - 1], b[|b| - 1];
      ReachRun(s, t, b0);
      var r := After(t, b0).s;
      if r.init < |r.tasks| && Enabled(r, a) { ReachStep(s, r, a, After(t, b).s); }
    }
  }
}
