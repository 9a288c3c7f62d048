/** Whole runs of the scheduler: what holds in every state that any sequence of kernel calls reaches. */
module SchedRuns {
  import opened Lists
  import opened SchedModel
  import opened SchedSteps
  import opened LockInvariant
  import opened SecondCpu

  /**
   One entry of a CPU into the kernel; c is the CPU. Return is the way back to user mode; known says
   whether the program to execute exists.
   */
  datatype Event =
    | Timer(c: nat, now: nat)
    | SleepCall(c: nat, now: nat, ticks: nat)
    | AcquireCall(c: nat, m: nat)
    | ReleaseCall(c: nat, m: nat)
    | WaitCall(c: nat, cv: nat, m: nat)
    | SignalCall(c: nat, cv: nat)
    | BroadcastCall(c: nat, cv: nat)
    | BarrierInit(c: nat, b: nat, goal: nat)
    | BarrierCall(c: nat, b: nat)
    | Resume(c: nat)
    | Return(c: nat)
    | ExecCall(c: nat, known: bool)
    | WaitPidCall(c: nat, pid: nat)
    | ExitCall(c: nat)
    | KillCall(c: nat, pid: nat)
    | Join

  /** The slot loop of do_kill and do_waitpid; NUM_MAX_TASK if nobody has the pid. */
  function FindPid(pcbs: map<nat, Pcb>, pid: nat, i: nat): (t: nat)
    requires i <= NUM_MAX_TASK
    ensures t == NUM_MAX_TASK || (t in pcbs && pcbs[t].pid == pid)
    ensures i <= t <= NUM_MAX_TASK
    ensures forall j | i <= j < t && j in pcbs :: pcbs[j].pid != pid
    decreases NUM_MAX_TASK - i
  {
    if i == NUM_MAX_TASK || (i in pcbs && pcbs[i].pid == pid) then i else FindPid(pcbs, pid, i + 1)
  }

  /** All list heads of the kernel exist, and PCBs live in the table. */
  ghost predicate Fixed(k: Sched) {
    && Sleep in k.queues && WaitListsOk(k)
    && |k.locks| == LOCK_NUM && |k.barriers| == BARRIER_NUM
    && (forall m | 0 <= m < LOCK_NUM :: Mutex(m) in k.queues)
    && (forall m: nat | Mutex(m) in k.queues :: m < LOCK_NUM)
    && (forall cv | 0 <= cv < CONDITION_NUM :: Condition(cv) in k.queues)
    && (forall cv: nat | Condition(cv) in k.queues :: cv < CONDITION_NUM)
    && (forall b | 0 <= b < BARRIER_NUM :: Barrier(b) in k.queues)
    && (forall t | t in k.pcbs :: t < NUM_MAX_TASK)
  }

  ghost predicate Inv(k: Sched) {
    Core(k) && Fixed(k) && LocksOk(k, 0) && AloneOk(k)
  }

  predicate OwnsLock(k: Sched, c: nat, m: nat) {
    InUser(k, c) && m < |k.locks| && k.locks[m].owner == k.pcbs[k.cpus[c].t].pid
  }

  /**
   User code runs on a CPU only between Return and the next call; only owners release a mutex;
   a task that runs on a CPU is not killed; the second CPU joins once.
   */
  predicate Enabled(k: Sched, e: Event) {
    match e
    case Timer(c, _) => c in k.cpus && (OnTask(k, c) ==> InUser(k, c))
    case SleepCall(c, _, _) => InUser(k, c)
    case AcquireCall(c, m) => InUser(k, c) && m < LOCK_NUM
    case ReleaseCall(c, m) => OwnsLock(k, c, m)
    case WaitCall(c, cv, m) => OwnsLock(k, c, m) && cv < CONDITION_NUM
    case SignalCall(c, cv) => InUser(k, c) && cv < CONDITION_NUM
    case BroadcastCall(c, cv) => InUser(k, c) && cv < CONDITION_NUM
    case BarrierInit(c, b, _) => InUser(k, c) && b < BARRIER_NUM
    case BarrierCall(c, b) => InUser(k, c) && b < BARRIER_NUM
    case Resume(c) => OnTask(k, c) && k.cpus[c].t in k.pcbs && k.pcbs[k.cpus[c].t].resume.Reacquire?
    case Return(c) => && OnTask(k, c) && k.cpus[c].t in k.pcbs
                      && k.pcbs[k.cpus[c].t].resume == ToUser && k.pcbs[k.cpus[c].t].wants.Wants?
    case ExecCall(c, _) => InUser(k, c)
    case WaitPidCall(c, pid) => InUser(k, c) && pid != 0
    case ExitCall(c) => InUser(k, c)
    case KillCall(c, pid) => InUser(k, c) && pid != 0 && !IsRunning(k.pcbs, FindPid(k.pcbs, pid, 0))
    case Join => CanJoin(k)
  }

  /** slave_wait_for_task leaves its loop: there are two tasks or more. */
  predicate CanJoin(k: Sched) {
    1 !in k.cpus && Ready in k.queues && |k.queues[Ready]| >= 2 && k.queues[Ready][1] in k.pcbs
  }

  function Next(k: Sched, e: Event): (k': Sched)
    requires Inv(k) && Enabled(k, e)
  {
    hide ListsOk, CpusOk, PidsOk, LocksOk;
    match e
    case Timer(c, now) => Reschedule(k, c, now)
    case SleepCall(c, now, ticks) => SleepUntil(k, c, now + ticks)
    case AcquireCall(c, m) => Acquire(k, c, m)
    case ReleaseCall(c, m) => ReleaseLock(k, m)
    case WaitCall(c, cv, m) => CondWait(k, c, cv, m)
    case SignalCall(c, cv) => Signal(k, cv)
    case BroadcastCall(c, cv) => WakeAll(k, Condition(cv))
    case BarrierInit(c, b, goal) => SetGoal(k, b, goal)
    case BarrierCall(c, b) => BarrierWait(k, c, b)
    case Resume(c) => ResumeInBounds(k, k.cpus[c].t); Acquire(k, c, k.pcbs[k.cpus[c].t].resume.m)
    case Return(c) => SetPcb(k, k.cpus[c].t, k.pcbs[k.cpus[c].t].(wants := Nothing))
    case ExecCall(c, known) => if known then Exec(k) else k
    case WaitPidCall(c, pid) =>
      var t := FindPid(k.pcbs, pid, 0);
      if t == NUM_MAX_TASK then k else WaitListExists(k, t); Switch(k, c, WaitOf(t))
    case ExitCall(c) => Exit(k, c)
    case KillCall(c, pid) =>
      var t := FindPid(k.pcbs, pid, 0);
      if t == NUM_MAX_TASK then k else WaitListExists(k, t); Release(k, t)
    case Join => JoinSecond(k)
  }

  /** do_barrier_init */
  function SetGoal(k: Sched, b: nat, goal: nat): Sched
    requires b < |k.barriers|
  {
    k.(barriers := k.barriers[b := k.barriers[b].(goal := goal)])
  }

  lemma ResumeInBounds(k: Sched, t: nat)
    requires Inv(k) && t in k.pcbs && k.pcbs[t].resume.Reacquire?
    ensures k.pcbs[t].resume.m < LOCK_NUM
  {
  }

  lemma WaitListExists(k: Sched, t: nat)
    requires Core(k) && t in k.pcbs
    ensures WaitOf(t) in k.queues && Ready in k.queues
  {
  }

  /** do_exit: the CPU is vacated by the release and picks the next task. */
  function Exit(k: Sched, c: nat): (k': Sched)
    requires Core(k) && Fixed(k) && OnTask(k, c) && k.cpus[c].t in k.pcbs
    ensures Core(k') && c in k'.cpus
    ensures k'.pcbs.Keys == k.pcbs.Keys - {k.cpus[c].t} && k'.queues.Keys == k.queues.Keys - {WaitOf(k.cpus[c].t)}
    ensures |k'.locks| == |k.locks| && |k'.barriers| == |k.barriers|
  {
    hide ListsOk, PidsOk, Pick;
    WaitListExists(k, k.cpus[c].t);
    var k1 := Release(k, k.cpus[c].t);
    PickCore(k1, c);
    Pick(k1, c)
  }

  /** slave_wait_for_task, once it finds two tasks: the second node of the ready queue runs on CPU 1. */
  function JoinSecond(k: Sched): Sched
    requires CanJoin(k)
  {
    var t := k.queues[Ready][1];
    SetStatus(k, t, TaskRunning).(cpus := k.cpus[1 := On(t)])
  }

  /** The node CPU 1 takes is never the one CPU 0 is running. */
  lemma JoinTakesIdleTask(k: Sched)
    requires Inv(k) && CanJoin(k)
    ensures IsReady(k.pcbs, k.queues[Ready][1])
  {
    var s := k.queues[Ready];
    assert Linked(k, s[1], Ready);
    assert !IsRunning(k.pcbs, s[1]);
  }

  lemma JoinCore(k: Sched)
    requires Inv(k) && CanJoin(k)
    ensures Core(JoinSecond(k))
  {
    hide Inv, ListsOk, CpusOk, PidsOk, LocksOk, Fixed, AloneOk;
    InvParts(k);
    JoinTakesIdleTask(k);
    JoinLists(k);
    JoinCpus(k);
    PidsSame(k, JoinSecond(k));
  }

  lemma JoinLists(k: Sched)
    requires ListsOk(k) && CanJoin(k) && IsReady(k.pcbs, k.queues[Ready][1])
    ensures ListsOk(JoinSecond(k))
  {
    var k' := JoinSecond(k);
    forall q, x | Linked(k', x, q)
      ensures x in k'.pcbs && (k'.pcbs[x].status == TaskBlocked <==> q != Ready)
    {
      assert Linked(k, x, q);
    }
    forall x | x in k'.pcbs
      ensures exists q :: Linked(k', x, q)
    {
      var q :| Linked(k, x, q);
      assert Linked(k', x, q);
    }
  }

  lemma JoinCpus(k: Sched)
    requires CpusOk(k) && CanJoin(k)
    requires IsReady(k.pcbs, k.queues[Ready][1])
    ensures CpusOk(JoinSecond(k))
  {
    var k' := JoinSecond(k);
    var t := k.queues[Ready][1];
    forall x | IsRunning(k'.pcbs, x)
      ensures OnCpu(k', 0, x) || OnCpu(k', 1, x)
    {
      assert x != t ==> IsRunning(k.pcbs, x);
    }
    forall x
      ensures !(OnCpu(k', 0, x) && OnCpu(k', 1, x))
    {
      assert OnCpu(k, 0, x) ==> IsRunning(k.pcbs, x);
    }
  }

  lemma JoinLocks(k: Sched)
    requires Inv(k) && CanJoin(k)
    ensures LocksOk(JoinSecond(k), 0)
  {
    hide LocksOk, Mode;
    var k' := JoinSecond(k);
    var t := k.queues[Ready][1];
    JoinTakesIdleTask(k);
    assert Linked(k, t, Ready);
    PickLinks(k, 1, t, 0);
    ClaimHolds(k, t, 0);
    ReadyMode();
    assert forall q | Linked(k', t, q) :: Linked(k, t, q);
    JoinModes(k, k', t);
  }

  lemma JoinModes(k: Sched, k': Sched, t: nat)
    requires LocksOk(k, 0) && t in k.pcbs && k.pcbs[t].status != TaskBlocked
    requires k'.queues == k.queues && k'.locks == k.locks
    requires k'.pcbs == k.pcbs[t := k.pcbs[t].(status := TaskRunning)]
    ensures LocksOk(k', 0)
  {
    forall q, x | Linked(k', x, q)
      ensures x in k'.pcbs && Mode(q, k'.pcbs[x])
    {
      assert Linked(k, x, q);
    }
    forall x, m: nat | Claims(k', x, m)
      ensures m < |k'.locks| && k'.locks[m].locked && k'.locks[m].owner == k'.pcbs[x].pid
    {
      assert Claims(k, x, m);
    }
    forall m: nat | m < |k'.locks|
      ensures LockOk(k', m, 0)
    {
      assert LockOk(k, m, 0);
      if PidLive(k, k.locks[m].owner) {
        var o :| o in k.pcbs && k.pcbs[o].pid == k.locks[m].owner;
        assert o in k'.pcbs && k'.pcbs[o].pid == k.locks[m].owner;
      }
    }
  }

  // ---------------------------------------------------------------- every event keeps the invariant

  lemma FixedShape(k: Sched, k': Sched)
    requires Fixed(k) && SameShape(k, k')
    ensures Fixed(k')
  {
  }

  lemma InvParts(k: Sched)
    requires Inv(k)
    ensures Core(k) && Fixed(k) && LocksOk(k, 0) && Ready in k.queues && AloneOk(k)
    ensures Sleep in k.queues && WaitListsOk(k) && |k.locks| == LOCK_NUM && |k.barriers| == BARRIER_NUM
    ensures forall m | 0 <= m < LOCK_NUM :: Mutex(m) in k.queues
    ensures forall m: nat | Mutex(m) in k.queues :: m < LOCK_NUM
    ensures forall cv | 0 <= cv < CONDITION_NUM :: Condition(cv) in k.queues
    ensures forall b | 0 <= b < BARRIER_NUM :: Barrier(b) in k.queues
  {
  }

  lemma IsInv(k: Sched, k': Sched)
    requires Fixed(k) && SameShape(k, k') && Core(k') && LocksOk(k', 0) && Ready in k'.queues && AloneOk(k')
    ensures Inv(k')
  {
    FixedShape(k, k');
  }

  lemma TimerInv(k: Sched, c: nat, now: nat)
    requires Inv(k) && Enabled(k, Timer(c, now))
    ensures Inv(Reschedule(k, c, now))
  {
    InvParts(k);
    hide *;
    RescheduleLocks(k, c, now);
    RescheduleAlone(k, c, now);
    IsInv(k, Reschedule(k, c, now));
  }

  lemma SleepInv(k: Sched, c: nat, time: nat)
    requires Inv(k) && InUser(k, c)
    ensures Inv(SleepUntil(k, c, time))
  {
    InvParts(k);
    var t := k.cpus[c].t;
    hide ListsOk, CpusOk, PidsOk, LocksOk, AloneOk, Fixed, Switch;
    UserSwitchLocks(k, c, Sleep, k.pcbs[t].(wakeup := time));
    SleepUntilAlone(k, c, time);
    IsInv(k, SleepUntil(k, c, time));
  }

  lemma AcquireInv(k: Sched, c: nat, m: nat)
    requires Inv(k) && OnTask(k, c) && k.cpus[c].t in k.pcbs && m < LOCK_NUM
    requires var pcb := k.pcbs[k.cpus[c].t]; pcb.wants == Nothing || pcb.resume.Reacquire?
    ensures Inv(Acquire(k, c, m))
  {
    InvParts(k);
    hide ListsOk, CpusOk, PidsOk, LocksOk, AloneOk, Fixed, Acquire;
    AcquireLocks(k, c, m);
    AcquireAlone(k, c, m);
    IsInv(k, Acquire(k, c, m));
  }

  lemma ReleaseLockInv(k: Sched, c: nat, m: nat)
    requires Inv(k) && OwnsLock(k, c, m)
    ensures Inv(ReleaseLock(k, m))
  {
    InvParts(k);
    hide ListsOk, CpusOk, PidsOk, LocksOk, AloneOk, Fixed, ReleaseLock, TailGrows;
    OwnerUnclaimed(k, k.cpus[c].t, m, 0);
    ReleaseLockLocks(k, m, 0);
    ReleaseLockGrows(k, m);
    ReadyExists(ReleaseLock(k, m));
    TailGrowsAlone(k, ReleaseLock(k, m));
    IsInv(k, ReleaseLock(k, m));
  }

  lemma CondWaitInv(k: Sched, c: nat, cv: nat, m: nat)
    requires Inv(k) && OwnsLock(k, c, m) && cv < CONDITION_NUM
    ensures Inv(CondWait(k, c, cv, m))
  {
    InvParts(k);
    hide ListsOk, CpusOk, PidsOk, LocksOk, AloneOk, Fixed, CondWait;
    CondWaitLocks(k, c, cv, m);
    CondWaitAlone(k, c, cv, m);
    IsInv(k, CondWait(k, c, cv, m));
  }

  lemma SignalInv(k: Sched, cv: nat)
    requires Inv(k) && cv < CONDITION_NUM
    ensures Inv(Signal(k, cv))
  {
    InvParts(k);
    hide ListsOk, CpusOk, PidsOk, LocksOk, AloneOk, Fixed, Signal;
    SignalLocks(k, cv);
    SignalAlone(k, cv);
    IsInv(k, Signal(k, cv));
  }

  lemma BroadcastInv(k: Sched, cv: nat)
    requires Inv(k) && cv < CONDITION_NUM
    ensures Inv(WakeAll(k, Condition(cv)))
  {
    InvParts(k);
    hide ListsOk, CpusOk, PidsOk, LocksOk, AloneOk, Fixed, WakeAll, TailGrows;
    var k' := WakeAll(k, Condition(cv));
    WakeAllLocks(k, Condition(cv), 0);
    WakeAllGrows(k, Condition(cv));
    ReadyExists(k');
    TailGrowsAlone(k, k');
    IsInv(k, k');
  }

  lemma BarrierInv(k: Sched, c: nat, b: nat)
    requires Inv(k) && InUser(k, c) && b < BARRIER_NUM
    ensures Inv(BarrierWait(k, c, b))
  {
    InvParts(k);
    hide ListsOk, CpusOk, PidsOk, LocksOk, AloneOk, Fixed, BarrierWait;
    BarrierWaitLocks(k, c, b);
    BarrierWaitAlone(k, c, b);
    IsInv(k, BarrierWait(k, c, b));
  }

  lemma SetGoalInv(k: Sched, b: nat, goal: nat)
    requires Inv(k) && b < BARRIER_NUM
    ensures Inv(SetGoal(k, b, goal))
  {
    InvParts(k);
    hide ListsOk, CpusOk, PidsOk, LocksOk, Fixed;
    var k' := SetGoal(k, b, goal);
    CoreIgnores(k, k');
    LocksIgnoreCpus(k, k', 0);
    IsInv(k, k');
  }

  lemma ReturnInv(k: Sched, c: nat)
    requires Inv(k) && Enabled(k, Return(c))
    ensures Inv(Next(k, Return(c)))
  {
    hide Inv, ListsOk, CpusOk, PidsOk, LocksOk, Fixed, IsRunning;
    InvParts(k);
    var t := k.cpus[c].t;
    CallerRuns(k, c);
    var pcb := k.pcbs[t].(wants := Nothing);
    SetPcbCore(k, t, pcb);
    SetModeLocks(k, t, ToUser, Nothing, 0);
    IsInv(k, SetPcb(k, t, pcb));
  }

  lemma CallerRuns(k: Sched, c: nat)
    requires Core(k) && OnTask(k, c)
    ensures IsRunning(k.pcbs, k.cpus[c].t)
  {
  }

  lemma ExecInv(k: Sched)
    requires Inv(k)
    ensures Inv(Exec(k))
  {
    InvParts(k);
    hide ListsOk, CpusOk, PidsOk, LocksOk, AloneOk, Fixed, Create;
    var t := FreeSlot(k.pcbs, 0);
    if t < NUM_MAX_TASK {
      CreateCore(k, t);
      CreateLocks(k, t);
      CreateAlone(k, t);
      FixedCreated(k, t);
    }
  }

  lemma FixedCreated(k: Sched, t: nat)
    requires Fixed(k) && Ready in k.queues && t < NUM_MAX_TASK && t !in k.pcbs && WaitOf(t) !in k.queues
    ensures Fixed(Create(k, t)) && Ready in Create(k, t).queues
  {
  }

  lemma WaitPidInv(k: Sched, c: nat, t: nat)
    requires Inv(k) && InUser(k, c) && t in k.pcbs && WaitOf(t) in k.queues
    ensures Inv(Switch(k, c, WaitOf(t)))
  {
    InvParts(k);
    hide ListsOk, CpusOk, PidsOk, LocksOk, AloneOk, Fixed, Switch;
    var u := k.cpus[c].t;
    assert SetPcb(k, u, k.pcbs[u]) == k;
    UserSwitchLocks(k, c, WaitOf(t), k.pcbs[u]);
    SwitchAlone(k, c, WaitOf(t));
    IsInv(k, Switch(k, c, WaitOf(t)));
  }

  lemma FixedReleased(k: Sched, k': Sched, t: nat)
    requires Fixed(k) && k'.pcbs.Keys == k.pcbs.Keys - {t} && k'.queues.Keys == k.queues.Keys - {WaitOf(t)}
    requires |k'.locks| == |k.locks| && |k'.barriers| == |k.barriers|
    ensures Fixed(k')
  {
  }

  lemma LivePid(k: Sched, t: nat)
    requires Core(k) && t in k.pcbs
    ensures 0 < k.pcbs[t].pid < k.nextPid
  {
  }

  lemma KillInv(k: Sched, t: nat)
    requires Inv(k) && t in k.pcbs && WaitOf(t) in k.queues && !IsRunning(k.pcbs, t)
    requires forall i | 0 <= i < |k.locks| :: Mutex(i) in k.queues
    ensures Inv(Release(k, t))
  {
    InvParts(k);
    LivePid(k, t);
    hide ListsOk, CpusOk, PidsOk, LocksOk, AloneOk, Fixed, Release, IsRunning;
    ReleaseLocks(k, t);
    ReleaseAlone(k, t);
    FixedReleased(k, Release(k, t), t);
  }

  lemma ExitInv(k: Sched, c: nat)
    requires Inv(k) && InUser(k, c)
    ensures Inv(Exit(k, c))
  {
    InvParts(k);
    var t := k.cpus[c].t;
    WaitListExists(k, t);
    LivePid(k, t);
    ReleasedCpu(k, c);
    hide ListsOk, CpusOk, PidsOk, LocksOk, AloneOk, Fixed, Release, Pick;
    var k1 := Release(k, t);
    ReleaseLocks(k, t);
    PickCore(k1, c);
    PickLocks(k1, c, 0);
    PickAlone(k1, c);
    FixedReleased(k, Exit(k, c), t);
  }

  lemma ReleasedCpu(k: Sched, c: nat)
    requires Core(k) && Fixed(k) && OnTask(k, c) && k.cpus[c].t in k.pcbs && WaitOf(k.cpus[c].t) in k.queues
    ensures c !in Release(k, k.cpus[c].t).cpus && c <= 1
  {
  }

  lemma JoinShape(k: Sched)
    requires CanJoin(k)
    ensures SameShape(k, JoinSecond(k)) && Ready in JoinSecond(k).queues && AloneOk(JoinSecond(k))
  {
  }

  lemma JoinInv(k: Sched)
    requires Inv(k) && CanJoin(k)
    ensures Inv(JoinSecond(k))
  {
    JoinShape(k);
    var k' := JoinSecond(k);
    JoinCore(k);
    JoinLocks(k);
    InvParts(k);
    hide ListsOk, CpusOk, PidsOk, LocksOk, Fixed, AloneOk, JoinSecond, SameShape, Inv;
    IsInv(k, k');
  }

  /** The calls that work on mutexes, conditions and barriers. */
  predicate IsLockEvent(e: Event) {
    || e.AcquireCall? || e.ReleaseCall? || e.WaitCall? || e.SignalCall? || e.BroadcastCall?
    || e.BarrierInit? || e.BarrierCall? || e.Resume? || e.Return?
  }

  lemma LockEventInv(k: Sched, e: Event)
    requires Inv(k) && Enabled(k, e) && IsLockEvent(e)
    ensures Inv(Next(k, e))
  {
    hide ListsOk, CpusOk, PidsOk, LocksOk, AloneOk, Fixed, Inv, Acquire, ReleaseLock, CondWait,
      Signal, WakeAll, SetGoal, BarrierWait;
    InvParts(k);
    match e
    case AcquireCall(c, m) => AcquireInv(k, c, m);
    case ReleaseCall(c, m) => ReleaseLockInv(k, c, m);
    case WaitCall(c, cv, m) => CondWaitInv(k, c, cv, m);
    case SignalCall(c, cv) => SignalInv(k, cv);
    case BroadcastCall(c, cv) => BroadcastInv(k, cv);
    case BarrierInit(c, b, goal) => SetGoalInv(k, b, goal);
    case BarrierCall(c, b) => BarrierInv(k, c, b);
    case Resume(c) => ResumeInBounds(k, k.cpus[c].t); AcquireInv(k, c, k.pcbs[k.cpus[c].t].resume.m);
    case Return(c) => ReturnInv(k, c);
  }

  lemma TaskEventInv(k: Sched, e: Event)
    requires Inv(k) && Enabled(k, e) && !IsLockEvent(e)
    ensures Inv(Next(k, e))
  {
    hide ListsOk, CpusOk, PidsOk, LocksOk, AloneOk, Fixed, Inv, Reschedule, SleepUntil, Exec, Switch, Exit, Release, JoinSecond;
    InvParts(k);
    match e
    case Timer(c, now) => TimerInv(k, c, now);
    case SleepCall(c, now, ticks) => SleepInv(k, c, now + ticks);
    case ExecCall(c, known) => if known { ExecInv(k); }
    case WaitPidCall(c, pid) =>
      var t := FindPid(k.pcbs, pid, 0);
      if t < NUM_MAX_TASK { WaitListExists(k, t); WaitPidInv(k, c, t); }
    case ExitCall(c) => ExitInv(k, c);
    case KillCall(c, pid) =>
      var t := FindPid(k.pcbs, pid, 0);
      if t < NUM_MAX_TASK { WaitListExists(k, t); KillInv(k, t); }
    case Join => JoinInv(k);
  }

  /** Every kernel call, timer interrupt and CPU start keeps the invariant. */
  lemma NextInv(k: Sched, e: Event)
    requires Inv(k) && Enabled(k, e)
    ensures Inv(Next(k, e))
  {
    hide Inv, Enabled, Next;
    if IsLockEvent(e) {
      LockEventInv(k, e);
    } else {
      TaskEventInv(k, e);
    }
  }
}
