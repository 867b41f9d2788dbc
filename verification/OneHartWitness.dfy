/** A run of the one-hart kernel from start-up to a zombie that init sleeps beside: task 1
    forks task 2 and yields, task 2 exits while init waits, and task 1 exits in turn. */
module OneHartWitness {
  import opened Common
  import opened OneHart

  // ---- The tasks ---------------------------------------------------------------------------------

  const Nobody: Task := Task(Unused, NoChan, None, Over, false)

  function Init(status: Status, pc: Pc): Task { Task(status, NoChan, None, pc, false) }

  const InitAsleep: Task := Task(Sleeping, TaskChan(0), None, Switched(AfterWait), false)

  // Task 1, the child of init.
  function One(status: Status, pc: Pc): Task { Task(status, NoChan, Some(0), pc, false) }

  const Yielded: Pc := Switched(AfterYield(Run({}), false))

  // Task 2, the child of task 1.
  function Two(status: Status, pc: Pc): Task { Task(status, NoChan, Some(1), pc, false) }

  // ---- The states, stage by stage ------------------------------------------------------------------

  function Three(cpu: Cpu, init: Task, one: Task, two: Task, locks: set<Lock>, sched: Sched): State {
    State(cpu, [init, one, two], locks, sched, 0)
  }

  // The CPU outside and inside a lock, as long as interrupts were never on.
  function Out(task: Option<nat>): Cpu { Cpu(false, 0, false, task) }

  function In(task: Option<nat>): Cpu { Cpu(false, 1, false, task) }

  // init starts and forks task 1.
  function Starting(cpu: Cpu, init: Task, locks: set<Lock>, sched: Sched): State {
    Three(cpu, init, Nobody, Nobody, locks, sched)
  }

  const Boot: State := Starting(Out(None), Init(Runnable, Fresh), {}, Idle(0))
  const InitPicked: State := Starting(In(None), Init(Runnable, Fresh), {TaskLock(0)}, Have(0))
  const InitEntered: State := Starting(In(Some(0)), Init(Running, Fresh), {TaskLock(0)}, Gone(0))
  const InitRuns: State := Starting(Out(Some(0)), Init(Running, Run({})), {}, Gone(0))
  const OneForked: State := Three(Out(Some(0)), Init(Running, Run({})), One(Runnable, Fresh), Nobody, {}, Gone(0))

  // init looks at the first i tasks for a child, finds one that lives, and sleeps.
  function InitScans(i: nat): State {
    Three(In(Some(0)), Init(Running, Scan(i, i >= 2)), One(Runnable, Fresh), Nobody, {TaskLock(0)}, Gone(0))
  }

  const InitSleeps: State := Three(In(Some(0)), InitAsleep, One(Runnable, Fresh), Nobody, {TaskLock(0)}, Back(0))

  // Task 1 forks task 2 and yields.
  function Alone(cpu: Cpu, one: Task, locks: set<Lock>, sched: Sched): State {
    Three(cpu, InitAsleep, one, Nobody, locks, sched)
  }

  const PassAtOne: State := Alone(Out(None), One(Runnable, Fresh), {}, Idle(1))
  const OnePicked: State := Alone(In(None), One(Runnable, Fresh), {TaskLock(1)}, Have(1))
  const OneEntered: State := Alone(In(Some(1)), One(Running, Fresh), {TaskLock(1)}, Gone(1))
  const OneRuns: State := Alone(Out(Some(1)), One(Running, Run({})), {}, Gone(1))
  const TwoForked: State := Three(Out(Some(1)), InitAsleep, One(Running, Run({})), Two(Runnable, Fresh), {}, Gone(1))

  // Task 2 exits: it hands over no child, becomes a zombie, and wakes nobody.
  function Leaving(cpu: Cpu, two: Task, locks: set<Lock>, sched: Sched): State {
    Three(cpu, InitAsleep, One(Runnable, Yielded), two, locks, sched)
  }

  const OneYields: State := Leaving(In(Some(1)), Two(Runnable, Fresh), {TaskLock(1)}, Back(1))
  const PassAtTwo: State := Leaving(Out(None), Two(Runnable, Fresh), {}, Idle(2))
  const TwoPicked: State := Leaving(In(None), Two(Runnable, Fresh), {TaskLock(2)}, Have(2))
  const TwoEntered: State := Leaving(In(Some(2)), Two(Running, Fresh), {TaskLock(2)}, Gone(2))
  const TwoRuns: State := Leaving(Out(Some(2)), Two(Running, Run({})), {}, Gone(2))

  function TwoReparents(i: nat): State { Leaving(Out(Some(2)), Two(Running, Reparent(i)), {}, Gone(2)) }

  function TwoWakes(i: nat): State { Leaving(Out(Some(2)), Two(Zombie, Wake(TaskChan(1), i, {}, true)), {}, Gone(2)) }

  const TwoDies: State := Leaving(Out(Some(2)), Two(Zombie, Dead), {}, Gone(2))
  const TwoGone: State := Leaving(In(Some(2)), Two(Zombie, Over), {TaskLock(2)}, Back(2))

  // The next pass goes by init, which sleeps, and back to task 1.
  function NextPass(cpu: Cpu, one: Task, locks: set<Lock>, sched: Sched): State {
    Three(cpu, InitAsleep, one, Two(Zombie, Over), locks, sched)
  }

  const Open: Cpu := Cpu(true, 0, false, None)

  // The CPU outside and inside a lock, once interrupts were on at an acquire.
  function Opened(noff: nat, task: Option<nat>): Cpu { Cpu(noff == 0, noff, true, task) }

  const PassEnds: State := NextPass(Out(None), One(Runnable, Yielded), {}, Idle(3))
  const PassStarts: State := NextPass(Open, One(Runnable, Yielded), {}, Idle(0))
  const InitSeen: State := NextPass(Opened(1, None), One(Runnable, Yielded), {TaskLock(0)}, Have(0))
  const PassedInit: State := NextPass(Opened(0, None), One(Runnable, Yielded), {}, Idle(1))
  const OneFound: State := NextPass(Opened(1, None), One(Runnable, Yielded), {TaskLock(1)}, Have(1))
  const OneResumes: State := NextPass(Opened(1, Some(1)), One(Running, Yielded), {TaskLock(1)}, Gone(1))
  const OneGoesOn: State := NextPass(Out(Some(1)), One(Running, Run({})), {}, Gone(1))

  // Task 1 exits and hands its zombie over to init.
  function OneReparents(i: nat): State { NextPass(Out(Some(1)), One(Running, Reparent(i)), {}, Gone(1)) }

  const LeftBehind: State := Three(Out(Some(1)), InitAsleep, One(Running, Reparent(3)),
                                   Task(Zombie, NoChan, Some(0), Over, false), {}, Gone(1))

  // ---- The steps -----------------------------------------------------------------------------------

  lemma InitStarts()
    ensures Reaches(Boot, InitRuns)
  {
    ReachSelf(Boot);
    ReachStep(Boot, Boot, SchedAct, InitPicked);
    ReachStep(Boot, InitPicked, SchedAct, InitEntered);
    ReachStep(Boot, InitEntered, TaskAct, InitRuns);
  }

  lemma InitForks()
    ensures Reaches(InitRuns, InitScans(0))
  {
    ReachSelf(InitRuns);
    ReachStep(InitRuns, InitRuns, CallAct(ForkCall(1)), OneForked);
    ReachStep(InitRuns, OneForked, CallAct(WaitCall), InitScans(0));
  }

  lemma InitSeesItself()
    ensures Reaches(InitScans(0), InitScans(1))
  {
    ReachSelf(InitScans(0));
    ReachStep(InitScans(0), InitScans(0), TaskAct, InitScans(1));
  }

  lemma InitSeesOne()
    ensures Reaches(InitScans(1), InitScans(2))
  {
    ReachSelf(InitScans(1));
    ReachStep(InitScans(1), InitScans(1), TaskAct, InitScans(2));
  }

  lemma InitSeesNobody()
    ensures Reaches(InitScans(2), InitScans(3))
  {
    ReachSelf(InitScans(2));
    ReachStep(InitScans(2), InitScans(2), TaskAct, InitScans(3));
  }

  lemma InitSwitches()
    ensures Reaches(InitScans(3), PassAtOne)
  {
    ReachSelf(InitScans(3));
    ReachStep(InitScans(3), InitScans(3), TaskAct, InitSleeps);
    ReachStep(InitScans(3), InitSleeps, SchedAct, PassAtOne);
  }

  lemma OneStarts()
    ensures Reaches(PassAtOne, OneRuns)
  {
    ReachSelf(PassAtOne);
    ReachStep(PassAtOne, PassAtOne, SchedAct, OnePicked);
    ReachStep(PassAtOne, OnePicked, SchedAct, OneEntered);
    ReachStep(PassAtOne, OneEntered, TaskAct, OneRuns);
  }

  lemma OneForks()
    ensures Reaches(OneRuns, PassAtTwo)
  {
    ReachSelf(OneRuns);
    ReachStep(OneRuns, OneRuns, CallAct(ForkCall(2)), TwoForked);
    ReachStep(OneRuns, TwoForked, CallAct(YieldCall), OneYields);
    ReachStep(OneRuns, OneYields, SchedAct, PassAtTwo);
  }

  lemma TwoStarts()
    ensures Reaches(PassAtTwo, TwoRuns)
  {
    ReachSelf(PassAtTwo);
    ReachStep(PassAtTwo, PassAtTwo, SchedAct, TwoPicked);
    ReachStep(PassAtTwo, TwoPicked, SchedAct, TwoEntered);
    ReachStep(PassAtTwo, TwoEntered, TaskAct, TwoRuns);
  }

  lemma TwoExits()
    ensures Reaches(TwoRuns, TwoReparents(0))
  {
    ReachSelf(TwoRuns);
    ReachStep(TwoRuns, TwoRuns, CallAct(ExitCall), TwoReparents(0));
  }

  lemma TwoHandsOver(i: nat)
    requires i < 3
    ensures Reaches(TwoReparents(i), TwoReparents(i + 1))
  {
    ReachSelf(TwoReparents(i));
    ReachStep(TwoReparents(i), TwoReparents(i), TaskAct, TwoReparents(i + 1));
  }

  lemma TwoBecomesZombie()
    ensures Reaches(TwoReparents(3), TwoWakes(0))
  {
    ReachSelf(TwoReparents(3));
    ReachStep(TwoReparents(3), TwoReparents(3), TaskAct, TwoWakes(0));
  }

  lemma TwoWake(i: nat)
    requires i < 3
    ensures Reaches(TwoWakes(i), TwoWakes(i + 1))
  {
    ReachSelf(TwoWakes(i));
    if i == 0 {
      ReachStep(TwoWakes(0), TwoWakes(0), TaskAct, TwoWakes(1));
    } else if i == 1 {
      ReachStep(TwoWakes(1), TwoWakes(1), TaskAct, TwoWakes(2));
    } else {
      ReachStep(TwoWakes(2), TwoWakes(2), TaskAct, TwoWakes(3));
    }
  }

  lemma TwoSwitches()
    ensures Reaches(TwoWakes(3), PassEnds)
  {
    ReachSelf(TwoWakes(3));
    ReachStep(TwoWakes(3), TwoWakes(3), TaskAct, TwoDies);
    ReachStep(TwoWakes(3), TwoDies, TaskAct, TwoGone);
    ReachStep(TwoWakes(3), TwoGone, SchedAct, PassEnds);
  }

  lemma InitPassedBy()
    ensures Reaches(PassEnds, PassedInit)
  {
    ReachSelf(PassEnds);
    ReachStep(PassEnds, PassEnds, SchedAct, PassStarts);
    ReachStep(PassEnds, PassStarts, SchedAct, InitSeen);
    ReachStep(PassEnds, InitSeen, SchedAct, PassedInit);
  }

  lemma OneStartsAgain()
    ensures Reaches(PassedInit, OneGoesOn)
  {
    ReachSelf(PassedInit);
    ReachStep(PassedInit, PassedInit, SchedAct, OneFound);
    ReachStep(PassedInit, OneFound, SchedAct, OneResumes);
    ReachStep(PassedInit, OneResumes, TaskAct, OneGoesOn);
  }

  lemma OneExits()
    ensures Reaches(OneGoesOn, OneReparents(0))
  {
    ReachSelf(OneGoesOn);
    ReachStep(OneGoesOn, OneGoesOn, CallAct(ExitCall), OneReparents(0));
  }

  lemma OneHandsOver()
    ensures Reaches(OneReparents(0), LeftBehind)
  {
    ReachSelf(OneReparents(0));
    ReachStep(OneReparents(0), OneReparents(0), TaskAct, OneReparents(1));
    ReachStep(OneReparents(0), OneReparents(1), TaskAct, OneReparents(2));
    ReachStep(OneReparents(0), OneReparents(2), TaskAct, LeftBehind);
  }

  // ---- The run -------------------------------------------------------------------------------------

  lemma UpToSleep()
    ensures Reaches(Boot, PassAtOne)
  {
    hide Reaches;
    InitStarts();
    InitForks();
    ReachTrans(Boot, InitRuns, InitScans(0));
    InitSeesItself();
    ReachTrans(Boot, InitScans(0), InitScans(1));
    InitSeesOne();
    ReachTrans(Boot, InitScans(1), InitScans(2));
    InitSeesNobody();
    ReachTrans(Boot, InitScans(2), InitScans(3));
    InitSwitches();
    ReachTrans(Boot, InitScans(3), PassAtOne);
  }

  lemma UpToExit()
    ensures Reaches(PassAtOne, PassEnds)
  {
    hide Reaches;
    OneStarts();
    OneForks();
    ReachTrans(PassAtOne, OneRuns, PassAtTwo);
    TwoStarts();
    ReachTrans(PassAtOne, PassAtTwo, TwoRuns);
    TwoExits();
    ReachTrans(PassAtOne, TwoRuns, TwoReparents(0));
    for i := 0 to 3
      invariant Reaches(PassAtOne, TwoReparents(i))
    {
      TwoHandsOver(i);
      ReachTrans(PassAtOne, TwoReparents(i), TwoReparents(i + 1));
    }
    TwoBecomesZombie();
    ReachTrans(PassAtOne, TwoReparents(3), TwoWakes(0));
    for i := 0 to 3
      invariant Reaches(PassAtOne, TwoWakes(i))
    {
      TwoWake(i);
      ReachTrans(PassAtOne, TwoWakes(i), TwoWakes(i + 1));
    }
    TwoSwitches();
    ReachTrans(PassAtOne, TwoWakes(3), PassEnds);
  }

  lemma UpToHandOver()
    ensures Reaches(PassEnds, LeftBehind)
  {
    hide Reaches;
    InitPassedBy();
    OneStartsAgain();
    ReachTrans(PassEnds, PassedInit, OneGoesOn);
    OneExits();
    ReachTrans(PassEnds, OneGoesOn, OneReparents(0));
    OneHandsOver();
    ReachTrans(PassEnds, OneReparents(0), LeftBehind);
  }

  /** init can be left behind: this run from start-up ends with init asleep in wait, its
      child a zombie, and nobody on the way to wake it. */
  lemma InitLeftBehind()
    ensures Booted(Boot) && Reaches(Boot, LeftBehind) && Stranded(LeftBehind, 2)
  {
    hide Reaches;
    UpToSleep();
    UpToExit();
    ReachTrans(Boot, PassAtOne, PassEnds);
    UpToHandOver();
    ReachTrans(Boot, PassEnds, LeftBehind);
  }
}
