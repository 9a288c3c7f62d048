/**
 The kernel calls as the C code performs them: in place, on linked lists, one field at a time. Each
 method is the corresponding step of the state machine.
 */
module KernelCalls {
  import opened Seqs
  import opened Lists
  import opened SchedModel
  import opened SchedSteps
  import opened LockInvariant
  import opened SchedRuns
  import opened SchedProperties
  import opened SchedTheorems

  class Kernel {
    const links: Links
    var pcbs: map<nat, Pcb>
    var runnings: map<nat, Cpu>
    var mlocks: seq<MutexLock>
    var barriers: seq<BarrierState>
    var processId: nat

    /** The state of the state machine that this kernel is in. */
    ghost function Abs(): Sched
      reads this, links
    {
      Sched(links.rings, pcbs, runnings, mlocks, barriers, processId)
    }

    ghost predicate Valid()
      reads this, links
    {
      links.Valid() && Core(Abs())
    }

    /** init_locks, init_barriers, init_conditions and init_pcb. */
    constructor ()
      ensures Valid() && fresh(links) && Abs() == Boot()
    {
      links := new Links();
      mlocks := seq(LOCK_NUM, _ => MutexLock(false, 0));
      barriers := seq(BARRIER_NUM, _ => BarrierState(0, 0));
      new;
      InitHeads();
      InitPcb();
    }

    /** init_pcb: the shell is created, marked running and taken by CPU 0. */
    method InitPcb()
      requires links.Valid() && EmptyHeads(links.rings, LOCK_NUM, CONDITION_NUM, BARRIER_NUM)
      requires mlocks == Boot().locks && barriers == Boot().barriers
      modifies this, links
      ensures Valid() && Abs() == Boot()
    {
      hide ListsOk, CpusOk, PidsOk, Boot, EmptyHeads;
      ghost var rings0 := links.rings;
      BootQueues(rings0);
      BootShape();
      NoneLinked(rings0);
      pcbs := map[0 := Pcb(1, TaskReady, 0, ToUser, Nothing)];
      processId := 2;
      links.AddTail(0, Ready);
      links.InitListHead(WaitOf(0));
      pcbs := pcbs[0 := pcbs[0].(status := TaskRunning)];
      var first := links.Step(Head(Ready), Ready, 0);
      runnings := map[0 := On(first.t)];
      BootLists();
      assert Abs() == Boot();
    }

    /** The INIT_LIST_HEADs of all static list heads. */
    method InitHeads()
      requires links.Valid() && links.rings == map[]
      modifies links
      ensures links.Valid() && EmptyHeads(links.rings, LOCK_NUM, CONDITION_NUM, BARRIER_NUM)
    {
      links.InitListHead(Ready);
      links.InitListHead(Sleep);
      var i := 0;
      while i < LOCK_NUM
        invariant links.Valid() && i <= LOCK_NUM && EmptyHeads(links.rings, i, 0, 0)
      {
        links.InitListHead(Mutex(i));
        i := i + 1;
      }
      i := 0;
      while i < BARRIER_NUM
        invariant links.Valid() && i <= BARRIER_NUM && EmptyHeads(links.rings, LOCK_NUM, 0, i)
      {
        links.InitListHead(Barrier(i));
        i := i + 1;
      }
      i := 0;
      while i < CONDITION_NUM
        invariant links.Valid() && i <= CONDITION_NUM && EmptyHeads(links.rings, LOCK_NUM, i, BARRIER_NUM)
      {
        links.InitListHead(Condition(i));
        i := i + 1;
      }
    }

    /** do_unblock */
    method DoUnblock(t: nat)
      requires Valid() && t in pcbs && pcbs[t].status == TaskBlocked
      modifies this, links
      ensures Valid() && Ready in old(links.rings) && Abs() == Wake(old(Abs()), t)
    {
      hide ListsOk, CpusOk, PidsOk;
      ghost var k := Abs();
      WakeCore(k, t);
      IsLinked(k, t);
      UnlinkLeaves(k, t);
      links.DeleteEntry(t);
      pcbs := pcbs[t := pcbs[t].(status := TaskReady)];
      links.AddTail(t, Ready);
    }

    /** find_idle_task on the CPU c, which runs nothing at that moment. */
    method FindIdleTask(c: nat)
      requires Valid() && c !in runnings && c <= 1
      modifies this
      ensures Valid() && Ready in old(links.rings) && Abs() == Pick(old(Abs()), c)
    {
      hide ListsOk, CpusOk, PidsOk, Pick;
      ghost var k := Abs();
      PickCore(k, c);
      var empty := links.IsQueueEmpty(Ready);
      var chosen := Idle;
      if !empty {
        ghost var s, i := links.rings[Ready], 0;
        var p := links.Step(Head(Ready), Ready, 0);
        while p != Head(Ready)
          invariant Abs() == k && i <= |s| && p == Nth(Ready, s, i + 1) && chosen == Idle
          invariant forall j | 0 <= j < i :: IsRunning(k.pcbs, s[j])
          decreases |s| - i
        {
          InTable(k, p.t, Ready);
          if pcbs[p.t].status != TaskRunning {
            chosen := On(p.t);
            break;
          }
          p := links.Step(p, Ready, i + 1);
          i := i + 1;
        }
        FirstIdleIs(s, pcbs, i);
        PickIs(k, c, i, chosen);
      } else {
        PickIs(k, c, 0, chosen);
      }
      if chosen.On? {
        pcbs := pcbs[chosen.t := pcbs[chosen.t].(status := TaskRunning)];
      }
      runnings := runnings[c := chosen];
    }

    /** do_block: the task of CPU c goes to the tail of q; the switch ends the step. */
    method DoBlock(c: nat, q: QueueId)
      requires Valid() && OnTask(Abs(), c) && q in links.rings && q != Ready
      modifies this, links
      ensures Valid() && Abs() == Switch(old(Abs()), c, q)
    {
      hide ListsOk, CpusOk, PidsOk, Pick;
      ghost var k := Abs();
      LeaveCore(k, c, q);
      var t := runnings[c].t;
      IsLinked(k, t);
      UnlinkLeaves(k, t);
      links.DeleteEntry(t);
      links.AddTail(t, q);
      pcbs := pcbs[t := pcbs[t].(status := TaskBlocked)];
      runnings := runnings - {c};
      FindIdleTask(c);
    }

    /** check_sleeping: the safe traversal keeps the next node before a task is moved. */
    method CheckSleepers(now: nat)
      requires Valid() && Sleep in links.rings
      modifies this, links
      ensures Valid() && Sleepers(old(Abs())) && Abs() == CheckSleeping(old(Abs()), now, old(links.rings[Sleep]))
    {
      hide ListsOk, CpusOk, PidsOk, Wake, CheckSleeping;
      ghost var k0 := Abs();
      SleepersOk(k0);
      ghost var i := 0;
      var p := links.Step(Head(Sleep), Sleep, 0);
      while p != Head(Sleep)
        invariant Valid() && Sleep in links.rings && i <= |links.rings[Sleep]|
        invariant p == Nth(Sleep, links.rings[Sleep], i + 1)
        invariant Rest(Abs(), i)
        invariant CheckSleeping(Abs(), now, links.rings[Sleep][i..]) == CheckSleeping(k0, now, k0.queues[Sleep])
        decreases |links.rings[Sleep]| - i
      {
        ghost var k := Abs();
        var t := p.t;
        var after := links.Step(p, Sleep, i + 1);
        SleepStep(k, now, i);
        NthRemoved(Sleep, links.rings[Sleep], i, i + 1);
        if pcbs[t].wakeup <= now {
          DoUnblock(t);
        } else {
          i := i + 1;
        }
        p := after;
      }
      CheckNone(Abs(), now, i);
    }

    /** do_scheduler */
    method DoScheduler(c: nat, now: nat)
      requires Valid() && c in runnings && Sleep in links.rings
      modifies this, links
      ensures Valid() && Abs() == Reschedule(old(Abs()), c, now)
    {
      hide ListsOk, CpusOk, PidsOk, Pick, CheckSleeping;
      CheckSleepers(now);
      ghost var k := Abs();
      if runnings[c].On? {
        ReadyExists(k);
        LeaveCore(k, c, Ready);
        var t := runnings[c].t;
        IsLinked(k, t);
        UnlinkLeaves(k, t);
        pcbs := pcbs[t := pcbs[t].(status := TaskReady)];
        links.DeleteEntry(t);
        links.AddTail(t, Ready);
      } else {
        IdleCore(k, c);
      }
      runnings := runnings - {c};
      FindIdleTask(c);
    }

    /** do_sleep */
    method DoSleep(c: nat, now: nat, ticks: nat)
      requires Valid() && OnTask(Abs(), c) && runnings[c].t in pcbs && Sleep in links.rings
      modifies this, links
      ensures Valid() && Abs() == SleepUntil(old(Abs()), c, now + ticks)
    {
      hide ListsOk, CpusOk, PidsOk, Switch;
      ghost var k := Abs();
      var t := runnings[c].t;
      pcbs := pcbs[t := pcbs[t].(wakeup := now + ticks)];
      CoreIgnores(k, Abs());
      DoBlock(c, Sleep);
    }

    /** do_mutex_lock_acquire */
    method MutexAcquire(c: nat, m: nat)
      requires Valid() && OnTask(Abs(), c) && runnings[c].t in pcbs && m < |mlocks| && Mutex(m) in links.rings
      modifies this, links
      ensures Valid() && Abs() == Acquire(old(Abs()), c, m)
    {
      hide ListsOk, CpusOk, PidsOk, Switch;
      ghost var k := Abs();
      var t := runnings[c].t;
      pcbs := pcbs[t := pcbs[t].(resume := ToUser, wants := Wants(m))];
      CoreIgnores(k, Abs());
      if !mlocks[m].locked {
        mlocks := mlocks[m := MutexLock(true, pcbs[t].pid)];
        CoreIgnores(k, Abs());
      } else {
        DoBlock(c, Mutex(m));
      }
    }

    /** do_mutex_lock_release */
    method MutexRelease(m: nat)
      requires Valid() && m < |mlocks| && Mutex(m) in links.rings
      modifies this, links
      ensures Valid() && Abs() == ReleaseLock(old(Abs()), m)
    {
      hide ListsOk, CpusOk, PidsOk, Wake;
      ghost var k := Abs();
      var empty := links.IsQueueEmpty(Mutex(m));
      if empty {
        mlocks := mlocks[m := MutexLock(false, 0)];
        CoreIgnores(k, Abs());
      } else {
        var first := links.Step(Head(Mutex(m)), Mutex(m), 0);
        Waiting(k, first.t, Mutex(m));
        mlocks := mlocks[m := MutexLock(true, pcbs[first.t].pid)];
        CoreIgnores(k, Abs());
        DoUnblock(first.t);
      }
    }

    /** while (!is_queue_empty(q)) do_unblock(q->next) */
    method Drain(q: QueueId)
      requires Valid() && q in links.rings && q != Ready
      modifies this, links
      ensures Valid() && Abs() == WakeAll(old(Abs()), q)
    {
      hide ListsOk, CpusOk, PidsOk, Wake, Circle, Separate;
      ghost var k := Abs();
      var empty := links.IsQueueEmpty(q);
      while !empty
        invariant Valid() && q in links.rings && (empty <==> links.rings[q] == [])
        invariant WakeAll(Abs(), q) == WakeAll(k, q)
        decreases |links.rings[q]|
      {
        var first := links.Step(Head(q), q, 0);
        Waiting(Abs(), first.t, q);
        WakeCore(Abs(), first.t);
        DoUnblock(first.t);
        empty := links.IsQueueEmpty(q);
      }
    }

    /** do_condition_wait up to the point where the task is switched away; MutexAcquire is the rest of it. */
    method ConditionWait(c: nat, cv: nat, m: nat)
      requires Valid() && OnTask(Abs(), c) && runnings[c].t in pcbs
      requires m < |mlocks| && Mutex(m) in links.rings && Condition(cv) in links.rings
      modifies this, links
      ensures Valid() && Abs() == CondWait(old(Abs()), c, cv, m)
    {
      hide ListsOk, CpusOk, PidsOk, ReleaseLock, Switch;
      var t := runnings[c].t;
      MutexRelease(m);
      ghost var k := Abs();
      pcbs := pcbs[t := pcbs[t].(resume := Reacquire(m), wants := Wants(m))];
      CoreIgnores(k, Abs());
      DoBlock(c, Condition(cv));
    }

    /** do_condition_signal */
    method ConditionSignal(cv: nat)
      requires Valid() && Condition(cv) in links.rings
      modifies this, links
      ensures Valid() && Abs() == Signal(old(Abs()), cv)
    {
      hide ListsOk, CpusOk, PidsOk, Wake;
      var empty := links.IsQueueEmpty(Condition(cv));
      if !empty {
        var first := links.Step(Head(Condition(cv)), Condition(cv), 0);
        Waiting(Abs(), first.t, Condition(cv));
        DoUnblock(first.t);
      }
    }

    /** do_barrier_wait */
    method DoBarrierWait(c: nat, b: nat)
      requires Valid() && OnTask(Abs(), c) && b < |barriers| && Barrier(b) in links.rings
      modifies this, links
      ensures Valid() && Abs() == BarrierWait(old(Abs()), c, b)
    {
      hide ListsOk, CpusOk, PidsOk, Switch, WakeAll;
      ghost var k := Abs();
      barriers := barriers[b := barriers[b].(current := barriers[b].current + 1)];
      CoreIgnores(k, Abs());
      if barriers[b].current < barriers[b].goal {
        DoBlock(c, Barrier(b));
      } else {
        WakeAllIgnoresBarriers(k, Abs(), Barrier(b));
        Drain(Barrier(b));
        ghost var k1 := Abs();
        barriers := barriers[b := barriers[b].(current := 0)];
        CoreIgnores(k1, Abs());
      }
    }

    /** find_unused_pcb and create_pcb; known says whether a program has the name. Without a slot or a program nothing happens. */
    method CreatePcb(known: bool) returns (pid: nat)
      requires Valid() && WaitListsOk(Abs())
      modifies this, links
      ensures Valid() && Abs() == if known then Exec(old(Abs())) else old(Abs())
      ensures pid == if known && exists t :: 0 <= t < NUM_MAX_TASK && t !in old(pcbs) then old(processId) else 0
    {
      hide ListsOk, CpusOk, PidsOk;
      ghost var k := Abs();
      pid := 0;
      var t := 0;
      while t < NUM_MAX_TASK && t in pcbs
        invariant Valid() && Abs() == k && t <= NUM_MAX_TASK && FreeSlot(pcbs, 0) == FreeSlot(pcbs, t)
        invariant forall i | 0 <= i < t :: i in pcbs
      {
        t := t + 1;
      }
      if t < NUM_MAX_TASK && known {
        CreateCore(k, t);
        NotInAnyList(k, t);
        pcbs := pcbs[t := Pcb(processId, TaskReady, 0, ToUser, Nothing)];
        pid := processId;
        processId := processId + 1;
        links.AddTail(t, Ready);
        links.InitListHead(WaitOf(t));
      }
    }

    /** The head of release_pcb: the task leaves its list, the table and its CPU. */
    method Remove(t: nat)
      requires Valid() && t in pcbs
      modifies this, links
      ensures Valid() && Abs() == Drop(old(Abs()), t)
    {
      hide ListsOk, CpusOk, PidsOk;
      ghost var k := Abs();
      DropCore(k, t);
      IsLinked(k, t);
      pcbs := pcbs - {t};
      runnings := map c | c in runnings && runnings[c] != On(t) :: runnings[c];
      links.DeleteEntry(t);
    }

    /** The loop of release_pcb over all mutexes. */
    method ReleaseMutexesOf(pid: nat)
      requires Valid() && forall i | 0 <= i < |mlocks| :: Mutex(i) in links.rings
      modifies this, links
      ensures Valid() && Abs() == ReleaseOwned(old(Abs()), pid, 0)
    {
      hide ListsOk, CpusOk, PidsOk, ReleaseLock;
      ghost var k := Abs();
      var i := 0;
      while i < |mlocks|
        invariant Valid() && i <= |mlocks| == |k.locks|
        invariant links.rings.Keys == k.queues.Keys
        invariant ReleaseOwned(Abs(), pid, i) == ReleaseOwned(k, pid, 0)
      {
        if mlocks[i].owner == pid {
          MutexRelease(i);
        }
        i := i + 1;
      }
    }

    /** release_pcb, with the pid cleared at once: nobody looks at the slot in between. */
    method ReleasePcb(t: nat)
      requires Valid() && t in pcbs && WaitOf(t) in links.rings && forall i | 0 <= i < |mlocks| :: Mutex(i) in links.rings
      modifies this, links
      ensures Valid() && Abs() == Release(old(Abs()), t)
    {
      hide ListsOk, CpusOk, PidsOk, WakeAll, ReleaseOwned, Drop;
      DropCore(Abs(), t);
      var pid := pcbs[t].pid;
      Remove(t);
      ReleaseMutexesOf(pid);
      Drain(WaitOf(t));
      RemoveEmpty(Abs(), t);
      links.Forget(WaitOf(t));
    }

    /** do_exit of the task on CPU c */
    method DoExit(c: nat)
      requires Valid() && Fixed(Abs()) && OnTask(Abs(), c) && runnings[c].t in pcbs
      modifies this, links
      ensures Valid() && Abs() == Exit(old(Abs()), c)
    {
      hide ListsOk, CpusOk, PidsOk, Release, Pick;
      WaitListExists(Abs(), runnings[c].t);
      ReleasedCpu(Abs(), c);
      ReleasePcb(runnings[c].t);
      FindIdleTask(c);
    }

    /** The search loop of do_kill and do_waitpid. */
    method FindByPid(pid: nat) returns (t: nat)
      requires Valid()
      ensures t == FindPid(pcbs, pid, 0)
    {
      t := 0;
      while t < NUM_MAX_TASK && !(t in pcbs && pcbs[t].pid == pid)
        invariant t <= NUM_MAX_TASK && FindPid(pcbs, pid, 0) == FindPid(pcbs, pid, t)
      {
        t := t + 1;
      }
    }

    /** do_kill of a task that does not run */
    method DoKill(c: nat, pid: nat) returns (found: bool)
      requires Valid() && Inv(Abs()) && Enabled(Abs(), KillCall(c, pid))
      modifies this, links
      ensures Valid() && Abs() == Next(old(Abs()), KillCall(c, pid))
      ensures found <==> exists t :: t in old(pcbs) && old(pcbs)[t].pid == pid
    {
      hide Inv, ListsOk, CpusOk, PidsOk, LocksOk, AloneOk, Release;
      InvParts(Abs());
      var t := FindByPid(pid);
      found := t < NUM_MAX_TASK;
      if found {
        WaitListExists(Abs(), t);
        ReleasePcb(t);
      }
    }

    /** do_waitpid */
    method DoWaitPid(c: nat, pid: nat)
      requires Valid() && Inv(Abs()) && Enabled(Abs(), WaitPidCall(c, pid))
      modifies this, links
      ensures Valid() && Abs() == Next(old(Abs()), WaitPidCall(c, pid))
    {
      hide Inv, ListsOk, CpusOk, PidsOk, LocksOk, AloneOk, Fixed, Switch;
      InvParts(Abs());
      var t := FindByPid(pid);
      if t < NUM_MAX_TASK {
        WaitListExists(Abs(), t);
        DoBlock(c, WaitOf(t));
      }
    }

    /** The successful round of slave_wait_for_task: the second node of the ready queue. */
    method SlaveTakesTask()
      requires Valid() && Inv(Abs()) && CanJoin(Abs())
      modifies this
      ensures Valid() && Abs() == JoinSecond(old(Abs()))
    {
      hide Inv, ListsOk, CpusOk, PidsOk, LocksOk, AloneOk, Fixed;
      JoinCore(Abs());
      var first := links.Step(Head(Ready), Ready, 0);
      var second := links.Step(first, Ready, 1);
      runnings := runnings[1 := On(second.t)];
      pcbs := pcbs[second.t := pcbs[second.t].(status := TaskRunning)];
    }

    /** One entry into the kernel, whatever it is: exactly the step of the state machine. */
    method Perform(e: Event)
      requires Valid() && Inv(Abs()) && Enabled(Abs(), e)
      modifies this, links
      ensures Valid() && Inv(Abs()) && Abs() == Next(old(Abs()), e)
    {
      hide Inv, ListsOk, CpusOk, PidsOk, LocksOk, AloneOk, Fixed, Reschedule, SleepUntil, Acquire, ReleaseLock, CondWait,
        Signal, WakeAll, BarrierWait, Exec, Switch, Exit, Release, JoinSecond;
      ghost var k := Abs();
      InvParts(k);
      NextInv(k, e);
      match e {
        case Timer(c, now) => DoScheduler(c, now);
        case SleepCall(c, now, ticks) => DoSleep(c, now, ticks);
        case AcquireCall(c, m) => MutexAcquire(c, m);
        case ReleaseCall(_, m) => MutexRelease(m);
        case WaitCall(c, cv, m) => ConditionWait(c, cv, m);
        case SignalCall(_, cv) => ConditionSignal(cv);
        case BroadcastCall(_, cv) => Drain(Condition(cv));
        case BarrierInit(_, b, goal) =>
          barriers := barriers[b := barriers[b].(goal := goal)];
          CoreIgnores(k, Abs());
        case BarrierCall(c, b) => DoBarrierWait(c, b);
        case Resume(c) =>
          ResumeInBounds(k, runnings[c].t);
          MutexAcquire(c, pcbs[runnings[c].t].resume.m);
        case Return(c) =>
          var t := runnings[c].t;
          pcbs := pcbs[t := pcbs[t].(wants := Nothing)];
          CoreIgnores(k, Abs());
        case ExecCall(_, known) => var _ := CreatePcb(known);
        case WaitPidCall(c, pid) => DoWaitPid(c, pid);
        case ExitCall(c) => DoExit(c);
        case KillCall(c, pid) => var _ := DoKill(c, pid);
        case Join => SlaveTakesTask();
      }
    }

    /** Any run of the kernel ends where the run of the state machine ends. */
    method PerformAll(es: seq<Event>)
      requires Valid() && Inv(Abs()) && CanRun(Abs(), es)
      modifies this, links
      ensures Valid() && Abs() == After(old(Abs()), es)
    {
      hide Inv, Core, Next, Enabled;
      ghost var k := Abs();
      var i := 0;
      while i < |es|
        invariant Valid() && Inv(Abs()) && i <= |es| && CanRun(Abs(), es[i..])
        invariant After(Abs(), es[i..]) == After(k, es)
      {
        Perform(es[i]);
        assert es[i..][1..] == es[i + 1..];
        i := i + 1;
      }
    }
  }

  // ---------------------------------------------------------------- facts the methods use

  /** Exactly the ready and sleep queues and the first mutex, condition and barrier lists exist, all empty. */
  ghost predicate EmptyHeads(rings: Rings, m: nat, c: nat, b: nat) {
    && (forall q | q in rings :: rings[q] == [])
    && (forall q :: q in rings <==> IsHead(q, m, c, b))
  }

  predicate IsHead(q: QueueId, m: nat, c: nat, b: nat) {
    match q
    case Ready => true
    case Sleep => true
    case WaitOf(_) => false
    case Mutex(i) => i < m
    case Condition(i) => i < c
    case Barrier(i) => i < b
  }

  lemma BootQueues(rings: Rings)
    requires EmptyHeads(rings, LOCK_NUM, CONDITION_NUM, BARRIER_NUM)
    ensures Ready in rings && Append(rings, Ready, 0)[WaitOf(0) := []] == Boot().queues
  {
    assert IsHead(Ready, LOCK_NUM, CONDITION_NUM, BARRIER_NUM);
    var rings' := Append(rings, Ready, 0)[WaitOf(0) := []];
    forall q: QueueId
      ensures q in rings' <==> q in Heads()
    {
      assert q in rings <==> IsHead(q, LOCK_NUM, CONDITION_NUM, BARRIER_NUM);
    }
    assert rings'.Keys == Heads();
    assert rings[Ready] + [0] == [0];
    assert forall q | q in Heads() :: rings'[q] == BootRings()[q];
    assert rings' == BootRings();
  }

  lemma NoneLinked(rings: Rings)
    requires EmptyHeads(rings, LOCK_NUM, CONDITION_NUM, BARRIER_NUM)
    ensures Unlinked(rings, 0) && WaitOf(0) !in rings && Ready in rings && rings[Ready] == []
  {
    assert IsHead(Ready, LOCK_NUM, CONDITION_NUM, BARRIER_NUM);
    assert !IsHead(WaitOf(0), LOCK_NUM, CONDITION_NUM, BARRIER_NUM);
  }

  lemma BootShape()
    ensures Boot() == Sched(Boot().queues, map[0 := Pcb(1, TaskRunning, 0, ToUser, Nothing)], map[0 := On(0)],
                            Boot().locks, Boot().barriers, 2)
  {
  }

  lemma IsLinked(k: Sched, t: nat)
    requires Core(k) && t in k.pcbs
    ensures !Unlinked(k.queues, t)
  {
    var q :| Linked(k, t, q);
  }

  lemma UnlinkLeaves(k: Sched, t: nat)
    requires Core(k)
    ensures Unlinked(Unlink(k.queues, t), t) && Unlink(k.queues, t).Keys == k.queues.Keys
  {
    UnlinkSeparate(k.queues, t);
  }

  lemma InTable(k: Sched, t: nat, q: QueueId)
    requires Core(k) && q in k.queues && t in k.queues[q]
    ensures t in k.pcbs
  {
    assert Linked(k, t, q);
  }

  lemma FirstIdleIs(s: seq<nat>, pcbs: map<nat, Pcb>, i: nat)
    requires i <= |s| && (forall j | 0 <= j < i :: IsRunning(pcbs, s[j])) && (i < |s| ==> !IsRunning(pcbs, s[i]))
    ensures FirstIdle(s, pcbs) == i
  {
    if i > 0 {
      assert IsRunning(pcbs, s[0]);
      FirstIdleIs(s[1..], pcbs, i - 1);
    }
  }

  lemma PickIs(k: Sched, c: nat, i: nat, chosen: Cpu)
    requires Core(k) && Ready in k.queues && i == FirstIdle(k.queues[Ready], k.pcbs)
    requires chosen == if i < |k.queues[Ready]| then On(k.queues[Ready][i]) else Idle
    ensures chosen.On? ==> chosen.t in k.pcbs
    ensures Pick(k, c) == (if chosen.On? then SetStatus(k, chosen.t, TaskRunning) else k).(cpus := k.cpus[c := chosen])
  {
    if chosen.On? {
      assert Linked(k, chosen.t, Ready);
    }
  }

  ghost predicate Rest(k: Sched, i: nat) {
    && Sleep in k.queues && i <= |k.queues[Sleep]|
    && NoDup(k.queues[Sleep][i..]) && forall t | t in k.queues[Sleep][i..] :: Linked(k, t, Sleep)
  }

  ghost predicate Sleepers(k: Sched) {
    Core(k) && Sleep in k.queues && NoDup(k.queues[Sleep]) && forall t | t in k.queues[Sleep] :: Linked(k, t, Sleep)
  }

  lemma SleepersOk(k: Sched)
    requires Core(k) && Sleep in k.queues
    ensures Sleepers(k) && Rest(k, 0) && k.queues[Sleep][0..] == k.queues[Sleep]
  {
    assert Separate(k.queues);
  }

  /** One sleeper: woken and gone from the list, or passed. */
  lemma SleepStep(k: Sched, now: nat, i: nat)
    requires Core(k) && Rest(k, i) && i < |k.queues[Sleep]|
    ensures var s := k.queues[Sleep];
            && s[i] in k.pcbs && k.pcbs[s[i]].status == TaskBlocked && Ready in k.queues
            && if k.pcbs[s[i]].wakeup <= now then
                 var k' := Wake(k, s[i]);
                 && Core(k') && Sleep in k'.queues && k'.queues[Sleep] == s[..i] + s[i + 1..] && Rest(k', i)
                 && CheckSleeping(k, now, s[i..]) == CheckSleeping(k', now, k'.queues[Sleep][i..])
               else
                 && Rest(k, i + 1) && CheckSleeping(k, now, s[i..]) == CheckSleeping(k, now, s[i + 1..])
  {
    hide ListsOk, CpusOk, PidsOk, Wake;
    var s := k.queues[Sleep];
    var t := s[i];
    assert t == s[i..][0] && s[i..][1..] == s[i + 1..];
    Waiting(k, t, Sleep);
    assert forall x | x in s[i + 1..] :: x in s[i..];
    if k.pcbs[t].wakeup <= now {
      WakeCore(k, t);
      WokenRest(k, i);
    }
  }

  lemma WokenRest(k: Sched, i: nat)
    requires Core(k) && Rest(k, i) && i < |k.queues[Sleep]| && k.queues[Sleep][i] in k.pcbs && Ready in k.queues
    ensures var s := k.queues[Sleep];
            var k' := Wake(k, s[i]);
            && Sleep in k'.queues && k'.queues[Sleep] == s[..i] + s[i + 1..] && k'.queues[Sleep][i..] == s[i + 1..]
            && Rest(k', i)
  {
    hide ListsOk, CpusOk, PidsOk, Separate, NoDup, Without, Unlink;
    var s := k.queues[Sleep];
    SleepOnce(k);
    WithoutAt(s, i);
    UnlinkOne(k.queues, Sleep, s[i]);
    var k' := Wake(k, s[i]);
    assert k'.queues[Sleep] == s[..i] + s[i + 1..];
    assert k'.queues[Sleep][i..] == s[i + 1..];
    RestOf(k', i, s);
  }

  lemma SleepOnce(k: Sched)
    requires Core(k) && Sleep in k.queues
    ensures Separate(k.queues) && NoDup(k.queues[Sleep])
  {
    assert Separate(k.queues);
  }

  lemma RestOf(k: Sched, i: nat, s: seq<nat>)
    requires Sleep in k.queues && NoDup(s) && i < |s| && k.queues[Sleep] == s[..i] + s[i + 1..]
    ensures Rest(k, i)
  {
    assert k.queues[Sleep][i..] == s[i + 1..];
    assert forall t | t in s[i + 1..] :: t in k.queues[Sleep];
  }

  lemma CheckNone(k: Sched, now: nat, i: nat)
    requires Core(k) && Rest(k, i) && i == |k.queues[Sleep]|
    ensures CheckSleeping(k, now, k.queues[Sleep][i..]) == k
  {
    hide ListsOk, CpusOk, PidsOk;
  }

  lemma NotInAnyList(k: Sched, t: nat)
    requires Core(k) && t !in k.pcbs
    ensures Unlinked(k.queues, t)
  {
    forall q | q in k.queues
      ensures t !in k.queues[q]
    {
      assert t in k.queues[q] ==> Linked(k, t, q);
    }
  }

  /** Waking does not look at barrier counters. */
  lemma {:induction false} WakeAllIgnoresBarriers(k: Sched, k': Sched, q: QueueId)
    requires Core(k) && Core(k') && q in k.queues && q != Ready && k' == k.(barriers := k'.barriers)
    ensures WakeAll(k', q) == WakeAll(k, q).(barriers := k'.barriers)
    decreases |k.queues[q]|
  {
    hide ListsOk, CpusOk, PidsOk;
    if k.queues[q] != [] {
      var t := k.queues[q][0];
      Waiting(k, t, q);
      WakeCore(k, t);
      WakeCore(k', t);
      WakeAllIgnoresBarriers(Wake(k, t), Wake(k', t), q);
    }
  }
}
