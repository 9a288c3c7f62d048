/** Mutexes, conditions and death over every run: who owns what, who is woken, what the dead leave behind. */
module LockTheorems {
  import opened Seqs
  import opened Lists
  import opened SchedModel
  import opened SchedSteps
  import opened LockInvariant
  import opened QueueEffects
  import opened SchedRuns
  import opened SchedQueues
  import opened SchedProperties

  // ---------------------------------------------------------------- what happens to PCBs

  /** The task that makes the call e, if any. */
  predicate Calls(k: Sched, e: Event, t: nat) {
    !e.Join? && OnCpu(k, e.c, t)
  }

  /** PCBs keep their pid, and all but the caller's keep what they are in the middle of. */
  ghost predicate PcbsKeep(k: Sched, k': Sched, e: Event) {
    && k.nextPid <= k'.nextPid
    && (forall x | x in k.pcbs && x in k'.pcbs :: k'.pcbs[x].pid == k.pcbs[x].pid)
    && (forall x | x in k.pcbs && x in k'.pcbs && !Calls(k, e, x) :: SameBut(k.pcbs[x], k'.pcbs[x]))
    && (forall x | x in k'.pcbs && x !in k.pcbs :: k'.pcbs[x].pid >= k.nextPid)
  }

  lemma StatusesKeep(k: Sched, k': Sched, e: Event)
    requires OnlyStatuses(k, k') && k'.pcbs.Keys <= k.pcbs.Keys
    ensures PcbsKeep(k, k', e)
  {
  }

  lemma CallerKeeps(k: Sched, k': Sched, e: Event)
    requires !e.Join? && OnTask(k, e.c) && OthersKeep(k, k', k.cpus[e.c].t) && k'.pcbs.Keys == k.pcbs.Keys
    ensures PcbsKeep(k, k', e)
  {
  }

  lemma ExitStatuses(k: Sched, c: nat)
    requires Inv(k) && InUser(k, c)
    ensures OnlyStatuses(k, Exit(k, c))
  {
    hide Inv;
    InvParts(k);
    var t := k.cpus[c].t;
    hide ListsOk, CpusOk, PidsOk, LocksOk, AloneOk, Release, Pick;
    WaitListExists(k, t);
    ReleasedCpu(k, c);
    hide Fixed;
    ReleaseQueues(k, t, Sleep);
    PickCore(Release(k, t), c);
    PickShape(Release(k, t), c);
  }

  lemma ExecKeeps(k: Sched, e: Event)
    requires Core(k) && WaitListsOk(k)
    ensures PcbsKeep(k, Exec(k), e)
  {
    hide ListsOk, CpusOk, PidsOk;
  }

  lemma JoinStatuses(k: Sched)
    requires CanJoin(k)
    ensures OnlyStatuses(k, JoinSecond(k)) && JoinSecond(k).pcbs.Keys == k.pcbs.Keys
  {
  }

  lemma EventPcbs(k: Sched, e: Event)
    requires Inv(k) && Enabled(k, e)
    ensures PcbsKeep(k, Next(k, e), e)
  {
    hide ListsOk, CpusOk, PidsOk, LocksOk, AloneOk, Fixed, Inv, Reschedule, SleepUntil, Acquire, ReleaseLock, CondWait,
      Signal, WakeAll, BarrierWait, Exec, Switch, Exit, Release, JoinSecond, OnlyQueues, OnlyStatuses, OthersKeep, PcbsKeep;
    InvParts(k);
    var k' := Next(k, e);
    match e {
      case Timer(c, now) => RescheduleQueues(k, c, now); StatusesKeep(k, k', e);
      case SleepCall(c, now, ticks) => SleepUntilQueues(k, c, now + ticks); CallerKeeps(k, k', e);
      case AcquireCall(c, m) => AcquireQueues(k, c, m); CallerKeeps(k, k', e);
      case ReleaseCall(c, m) => ReleaseLockQueues(k, m); StatusesKeep(k, k', e);
      case WaitCall(c, cv, m) => CondWaitQueues(k, c, cv, m); CallerKeeps(k, k', e);
      case SignalCall(c, cv) => SignalQueues(k, cv); StatusesKeep(k, k', e);
      case BroadcastCall(c, cv) => WakeAllQueues(k, Condition(cv)); StatusesKeep(k, k', e);
      case BarrierInit(c, b, goal) => NothingKeeps(k, k', e);
      case BarrierCall(c, b) => BarrierWaitQueues(k, c, b); StatusesKeep(k, k', e);
      case Resume(c) =>
        ResumeInBounds(k, k.cpus[c].t);
        AcquireQueues(k, c, k.pcbs[k.cpus[c].t].resume.m);
        CallerKeeps(k, k', e);
      case Return(c) => ReturnKeeps(k, c);
      case ExecCall(c, known) => if known { ExecKeeps(k, e); } else { NothingKeeps(k, k', e); }
      case WaitPidCall(c, pid) =>
        var t := FindPid(k.pcbs, pid, 0);
        if t < NUM_MAX_TASK { WaitListExists(k, t); SwitchQueues(k, c, WaitOf(t)); StatusesKeep(k, k', e); }
        else { NothingKeeps(k, k', e); }
      case ExitCall(c) => ExitStatuses(k, c); StatusesKeep(k, k', e);
      case KillCall(c, pid) =>
        var t := FindPid(k.pcbs, pid, 0);
        if t < NUM_MAX_TASK { WaitListExists(k, t); ReleaseQueues(k, t, Sleep); StatusesKeep(k, k', e); }
        else { NothingKeeps(k, k', e); }
      case Join => JoinStatuses(k); StatusesKeep(k, k', e);
    }
  }

  lemma NothingKeeps(k: Sched, k': Sched, e: Event)
    requires k'.pcbs == k.pcbs && k'.nextPid == k.nextPid
    ensures PcbsKeep(k, k', e)
  {
  }

  lemma ReturnKeeps(k: Sched, c: nat)
    requires Inv(k) && Enabled(k, Return(c))
    ensures PcbsKeep(k, Next(k, Return(c)), Return(c))
  {
    hide Inv;
  }

  // ---------------------------------------------------------------- back to user mode only as the owner

  /** do_mutex_lock_acquire and do_condition_wait return to user mode with the mutex in hand. */
  lemma ReturnOwns(k: Sched, c: nat)
    requires Inv(k) && Enabled(k, Return(c))
    ensures var pcb := k.pcbs[k.cpus[c].t];
            var m := pcb.wants.m;
            m < |k.locks| && k.locks[m].locked && k.locks[m].owner == pcb.pid
  {
    hide Inv, ListsOk, CpusOk, PidsOk, LocksOk, AloneOk, Fixed;
    InvParts(k);
    CallerRuns(k, c);
    ClaimHolds(k, k.cpus[c].t, 0);
  }

  ghost predicate WantsOk(k: Sched, t: nat, m: nat) {
    t in k.pcbs && k.pcbs[t].wants == Wants(m)
  }

  /** Nothing but its own Return ends the wait of a task for its mutex. */
  lemma StillWants(k: Sched, e: Event, t: nat, m: nat)
    requires Inv(k) && Enabled(k, e) && WantsOk(k, t, m) && t in Next(k, e).pcbs
    requires !(e.Return? && Calls(k, e, t))
    ensures WantsOk(Next(k, e), t, m)
  {
    if Calls(k, e, t) {
      hide Inv;
      assert e.Resume?;
      InvParts(k);
      ResumeInBounds(k, t);
      hide ListsOk, CpusOk, PidsOk, AloneOk, Fixed, Acquire;
      AcquireQueues(k, e.c, k.pcbs[t].resume.m);
      ResumeOk(k, t, 0);
    } else {
      hide Inv, Next, Enabled;
      EventPcbs(k, e);
    }
  }

  /** The task t is alive, and does not get back to user mode, all through the run. */
  ghost predicate AwayFromUser(k: Sched, es: seq<Event>, t: nat)
    requires Inv(k) && CanRun(k, es)
    decreases |es|
  {
    hide Inv, Next;
    t in k.pcbs && (es == [] || (NextInv(k, es[0]);
      !(es[0].Return? && Calls(k, es[0], t)) && AwayFromUser(Next(k, es[0]), es[1..], t)))
  }

  /**
   A task that has asked for the mutex m, by acquire or by a condition wait, runs no user code until it
   returns owning m, however often it blocks again and whatever the others do in between.
   */
  lemma {:induction false} WaitEndsOwning(k: Sched, es: seq<Event>, t: nat, m: nat, c: nat)
    requires Inv(k) && CanRun(k, es) && WantsOk(k, t, m) && AwayFromUser(k, es, t)
    ensures var k' := After(k, es);
            && (OnCpu(k', c, t) ==> !InUser(k', c))
            && (Enabled(k', Return(c)) && OnCpu(k', c, t) ==>
                  m < |k'.locks| && k'.locks[m].owner == k'.pcbs[t].pid && k'.locks[m].locked)
    decreases |es|
  {
    hide Inv, Next;
    if es == [] {
      if Enabled(k, Return(c)) && OnCpu(k, c, t) {
        ReturnOwns(k, c);
      }
    } else {
      NextInv(k, es[0]);
      hide Enabled;
      StillWants(k, es[0], t, m);
      WaitEndsOwning(Next(k, es[0]), es[1..], t, m, c);
    }
  }

  /** do_condition_wait gives the mutex away and is on the waiting list in the same step. */
  lemma WaitIsAtomic(k: Sched, c: nat, cv: nat, m: nat)
    requires Inv(k) && Enabled(k, WaitCall(c, cv, m))
    ensures var k', t := Next(k, WaitCall(c, cv, m)), k.cpus[c].t;
            && WantsOk(k', t, m) && Condition(cv) in k.queues && Condition(cv) in k'.queues
            && k'.queues[Condition(cv)] == k.queues[Condition(cv)] + [t]
            && m < |k'.locks| && k'.locks[m].owner != k'.pcbs[t].pid
  {
    hide Inv;
    InvParts(k);
    var t := k.cpus[c].t;
    LivePid(k, t);
    assert IsRunning(k.pcbs, t);
    RunningIsReady(k, t, Mutex(m));
    OtherPid(k, t);
    hide ListsOk, CpusOk, PidsOk, LocksOk, AloneOk, Fixed, CondWait, OnlyQueues;
    CondWaitQueues(k, c, cv, m);
  }

  lemma OtherPid(k: Sched, t: nat)
    requires Core(k) && t in k.pcbs
    ensures forall x | x in k.pcbs && x != t :: k.pcbs[x].pid != k.pcbs[t].pid
  {
  }

  // ---------------------------------------------------------------- hand-off

  /** Who owns m after the event: when the owner releases, exits or is killed the first waiter left, without one nobody. */
  function OwnerAfter(k: Sched, e: Event, m: nat): MutexLock
    requires Enabled(k, e) && m < |k.locks| && Mutex(m) in k.queues
  {
    if HandsOn(k, e, m) then
      var s := Remaining(k, e, Mutex(m));
      if s != [] && s[0] in k.pcbs then MutexLock(true, k.pcbs[s[0]].pid) else MutexLock(false, 0)
    else if !k.locks[m].locked && Requests(k, e, m) then MutexLock(true, k.pcbs[k.cpus[e.c].t].pid)
    else k.locks[m]
  }

  predicate Requests(k: Sched, e: Event, m: nat)
    requires Enabled(k, e)
  {
    (e.AcquireCall? && e.m == m) || (e.Resume? && k.pcbs[k.cpus[e.c].t].resume.m == m)
  }

  ghost predicate OwnerStep(k: Sched, e: Event, m: nat)
    requires Inv(k) && Enabled(k, e)
  {
    && m < |k.locks| && Mutex(m) in k.queues && m < |Next(k, e).locks|
    && Next(k, e).locks[m] == OwnerAfter(k, e, m)
  }

  lemma ExitOwner(k: Sched, c: nat, m: nat)
    requires Inv(k) && Enabled(k, ExitCall(c)) && m < LOCK_NUM
    ensures OwnerStep(k, ExitCall(c), m)
  {
    hide Inv, ListsOk, CpusOk, PidsOk, LocksOk, AloneOk, Release, Pick, IsRunning;
    InvParts(k);
    var t := k.cpus[c].t;
    WaitListExists(k, t);
    ReleasedCpu(k, c);
    CallerRuns(k, c);
    RunningIsReady(k, t, Mutex(m));
    hide Fixed;
    ReleaseMutex(k, t, m);
    PickCore(Release(k, t), c);
  }

  lemma KillOwner(k: Sched, c: nat, pid: nat, m: nat)
    requires Inv(k) && Enabled(k, KillCall(c, pid)) && m < LOCK_NUM
    ensures OwnerStep(k, KillCall(c, pid), m)
  {
    hide Inv, ListsOk, CpusOk, PidsOk, LocksOk, AloneOk, Release;
    InvParts(k);
    var t := FindPid(k.pcbs, pid, 0);
    if t < NUM_MAX_TASK {
      WaitListExists(k, t);
      hide Fixed;
      ReleaseMutex(k, t, m);
    }
  }

  lemma AcquireOwner(k: Sched, c: nat, i: nat, m: nat)
    requires Inv(k) && Enabled(k, AcquireCall(c, i)) && m < LOCK_NUM
    ensures OwnerStep(k, AcquireCall(c, i), m)
  {
    hide Inv, ListsOk, CpusOk, PidsOk, LocksOk, AloneOk, Fixed, OnlyQueues, OthersKeep, OnlyStatuses, Acquire;
    InvParts(k);
    AcquireQueues(k, c, i);
  }

  lemma ResumeOwner(k: Sched, c: nat, m: nat)
    requires Inv(k) && Enabled(k, Resume(c)) && m < LOCK_NUM
    ensures OwnerStep(k, Resume(c), m)
  {
    hide Inv, ListsOk, CpusOk, PidsOk, LocksOk, AloneOk, Fixed, OnlyQueues, OthersKeep, OnlyStatuses, Acquire;
    InvParts(k);
    ResumeInBounds(k, k.cpus[c].t);
    AcquireQueues(k, c, k.pcbs[k.cpus[c].t].resume.m);
  }

  lemma ReleaseOwner(k: Sched, c: nat, i: nat, m: nat)
    requires Inv(k) && Enabled(k, ReleaseCall(c, i)) && m < LOCK_NUM
    ensures OwnerStep(k, ReleaseCall(c, i), m)
  {
    hide Inv, ListsOk, CpusOk, PidsOk, LocksOk, AloneOk, Fixed, OnlyQueues, OthersKeep, OnlyStatuses, ReleaseLock;
    InvParts(k);
    ReleaseLockQueues(k, i);
  }

  lemma WaitOwner(k: Sched, c: nat, cv: nat, i: nat, m: nat)
    requires Inv(k) && Enabled(k, WaitCall(c, cv, i)) && m < LOCK_NUM
    ensures OwnerStep(k, WaitCall(c, cv, i), m)
  {
    hide Inv, ListsOk, CpusOk, PidsOk, LocksOk, AloneOk, Fixed, OnlyQueues, OthersKeep, OnlyStatuses, CondWait;
    InvParts(k);
    CondWaitQueues(k, c, cv, i);
  }

  /** FIFO hand-off: the owner of a mutex changes only as OwnerAfter says. */
  lemma HandOff(k: Sched, e: Event, m: nat)
    requires Inv(k) && Enabled(k, e) && m < LOCK_NUM
    ensures OwnerStep(k, e, m)
  {
    hide Inv, ListsOk, CpusOk, PidsOk, LocksOk, AloneOk, Fixed, Exit;
    InvParts(k);
    if e.KillCall? {
      hide Next, Enabled;
      KillOwner(k, e.c, e.pid, m);
    } else if e.ExitCall? {
      hide Next, Enabled;
      ExitOwner(k, e.c, m);
    } else {
      hide Next, OnlyQueues, Enabled;
      match e
      case AcquireCall(c, i) => AcquireOwner(k, c, i, m);
      case Resume(c) => ResumeOwner(k, c, m);
      case ReleaseCall(c, i) => ReleaseOwner(k, c, i, m);
      case WaitCall(c, cv, i) => WaitOwner(k, c, cv, i, m);
      case _ => EventFrame(k, e);
    }
  }

  // ---------------------------------------------------------------- being woken

  ghost predicate Dies(k: Sched, e: Event, t: nat) {
    || (e.ExitCall? && Calls(k, e, t))
    || (e.KillCall? && FindPid(k.pcbs, e.pid, 0) == t)
  }

  lemma ExecSurvivors(k: Sched)
    requires Core(k) && WaitListsOk(k)
    ensures k.pcbs.Keys <= Exec(k).pcbs.Keys
  {
    hide ListsOk, CpusOk, PidsOk;
  }

  /** Nobody disappears but who exits or is killed; and they do. */
  lemma Survivors(k: Sched, e: Event, t: nat)
    requires Inv(k) && Enabled(k, e) && t in k.pcbs
    ensures t in Next(k, e).pcbs <==> !Dies(k, e, t)
  {
    hide Inv, ListsOk, CpusOk, PidsOk, LocksOk, AloneOk, Fixed, Reschedule, SleepUntil, Acquire, ReleaseLock, CondWait,
      Signal, WakeAll, BarrierWait, Exec, Switch, Exit, Release, JoinSecond;
    InvParts(k);
    match e {
      case Join => JoinShape(k);
      case Resume(c) => ResumeInBounds(k, k.cpus[c].t);
      case ExecCall(c, known) => if known { ExecSurvivors(k); }
      case WaitPidCall(c, pid) =>
        if FindPid(k.pcbs, pid, 0) < NUM_MAX_TASK { WaitListExists(k, FindPid(k.pcbs, pid, 0)); }
      case KillCall(c, pid) => KillSurvivors(k, c, pid, t);
      case _ =>
    }
  }

  lemma KillSurvivors(k: Sched, c: nat, pid: nat, t: nat)
    requires Inv(k) && Enabled(k, KillCall(c, pid)) && t in k.pcbs
    ensures t in Next(k, KillCall(c, pid)).pcbs <==> !Dies(k, KillCall(c, pid), t)
  {
    hide Inv, ListsOk, CpusOk, PidsOk, LocksOk, AloneOk, Release;
    InvParts(k);
    var x := FindPid(k.pcbs, pid, 0);
    if x < NUM_MAX_TASK {
      WaitListExists(k, x);
    }
  }

  /** A task that was waiting and is now on a list other than the ready queue has not moved. */
  lemma StillWaiting(k: Sched, e: Event, q: QueueId, q': QueueId, t: nat)
    requires Inv(k) && Enabled(k, e) && !e.KillCall? && Tracked(q) && Linked(k, t, q)
    requires |k.locks| == LOCK_NUM && |k.barriers| == BARRIER_NUM && Drops(k, e, q) > 0
    requires Linked(Next(k, e), t, q') && q' != Ready
    ensures q' == q && t in k.queues[q][Drops(k, e, q)..]
  {
    hide Inv;
    InvParts(k);
    Waiting(k, t, q);
    assert Separate(k.queues);
    if Tracked(q') {
      QueueStep(k, e, q');
      hide Next, LocksOk, AloneOk, Fixed, CpusOk, PidsOk;
      NotTheCaller(k, e, q', t);
      assert t in k.queues[q'][Drops(k, e, q')..];
      assert Linked(k, t, q');
    } else {
      OtherListsStay(k, e, q, q');
      hide Next, LocksOk, AloneOk, Fixed, CpusOk, PidsOk;
      assert false;
    }
  }

  lemma NotTheCaller(k: Sched, e: Event, q: QueueId, t: nat)
    requires Inv(k) && Enabled(k, e) && Tracked(q) && |k.locks| == LOCK_NUM && |k.barriers| == BARRIER_NUM
    requires t in k.pcbs && k.pcbs[t].status == TaskBlocked
    ensures t !in Arrives(k, e, q)
  {
    hide ListsOk, PidsOk, LocksOk, AloneOk, Fixed;
    assert forall c | c in k.cpus && k.cpus[c].On? :: k.cpus[c].t != t;
    hide CpusOk;
  }

  lemma OtherListsStay(k: Sched, e: Event, q: QueueId, q': QueueId)
    requires Inv(k) && Enabled(k, e) && !e.KillCall? && Tracked(q) && q in k.queues
    requires |k.locks| == LOCK_NUM && |k.barriers| == BARRIER_NUM && Drops(k, e, q) > 0
    requires q' in Next(k, e).queues && q' != Ready && !Tracked(q')
    ensures q' in k.queues && Next(k, e).queues[q'] == k.queues[q']
  {
    hide Inv, ListsOk, CpusOk, PidsOk, LocksOk, AloneOk, Fixed, OnlyQueues, OthersKeep, OnlyStatuses,
      ReleaseLock, CondWait, Signal, WakeAll, BarrierWait, Exit;
    InvParts(k);
    if e.ExitCall? {
      ExitQueues(k, e.c, q');
    } else {
      assert q' in k.queues;
      hide Next;
      EventFrame(k, e);
      OnlyAt(k, Next(k, e), Touched(k, e), q');
    }
  }

  /** A kill: the waiter that inherits a mutex is on no list but the ready queue. */
  lemma KillInherits(k: Sched, c: nat, pid: nat, q: QueueId, q': QueueId, i: nat)
    requires Inv(k) && Enabled(k, KillCall(c, pid)) && Tracked(q) && q in k.queues
    requires |k.locks| == LOCK_NUM && |k.barriers| == BARRIER_NUM && i < Drops(k, KillCall(c, pid), q)
    requires Linked(Next(k, KillCall(c, pid)), Remaining(k, KillCall(c, pid), q)[i], q')
    ensures q' == Ready
  {
    hide Inv, ListsOk, CpusOk, PidsOk, LocksOk, AloneOk, Release, OnlyStatuses, Drops;
    InvParts(k);
    KillDrops(k, c, pid, q);
    var v := FindPid(k.pcbs, pid, 0);
    WaitListExists(k, v);
    var k', s := Release(k, v), Remaining(k, KillCall(c, pid), q);
    InRemaining(k, v, q, i);
    if q' != Ready {
      ReleaseQueues(k, v, q');
      hide Fixed;
      InRemainingOnce(k, v, q, q', s[i]);
      assert false;
    }
  }

  lemma InRemaining(k: Sched, v: nat, q: QueueId, i: nat)
    requires Core(k) && q in k.queues && i < |Minus(k.queues[q], v)|
    ensures var x := Minus(k.queues[q], v)[i]; x in k.queues[q] && x != v && NoDup(Minus(k.queues[q], v))
  {
    QueueNoDup(k, q);
    if v in k.queues[q] {
      WithoutMembers(k.queues[q], v);
      assert Minus(k.queues[q], v)[i] in Minus(k.queues[q], v);
    }
  }

  lemma InRemainingOnce(k: Sched, v: nat, q: QueueId, q': QueueId, x: nat)
    requires Core(k) && q in k.queues && q' in k.queues && x in k.queues[q]
    requires x in Minus(k.queues[q'], v)
    ensures q' == q
  {
    QueueNoDup(k, q');
    if v in k.queues[q'] {
      WithoutMembers(k.queues[q'], v);
    }
    assert Separate(k.queues);
  }

  lemma KillWoken(k: Sched, c: nat, pid: nat, q: QueueId, i: nat)
    requires Inv(k) && Enabled(k, KillCall(c, pid)) && Tracked(q) && q in k.queues
    requires |k.locks| == LOCK_NUM && |k.barriers| == BARRIER_NUM && i < Drops(k, KillCall(c, pid), q)
    ensures var t := Remaining(k, KillCall(c, pid), q)[i];
            t in Next(k, KillCall(c, pid)).pcbs && Next(k, KillCall(c, pid)).pcbs[t].status != TaskBlocked
  {
    var e := KillCall(c, pid);
    var v, t := FindPid(k.pcbs, pid, 0), Remaining(k, e, q)[i];
    hide Inv, Next, Drops, Enabled, Remaining;
    InvParts(k);
    NextInv(k, e);
    InvParts(Next(k, e));
    hide Core, Fixed, LocksOk, AloneOk;
    WaitingRemains(k, e, q, i);
    Survivors(k, e, t);
    var q' := OnSomeList(Next(k, e), t);
    KillInherits(k, c, pid, q, q', i);
  }

  lemma WaitingRemains(k: Sched, e: Event, q: QueueId, i: nat)
    requires Core(k) && q in k.queues && e.KillCall? && i < |Remaining(k, e, q)|
    ensures Remaining(k, e, q)[i] in k.pcbs && !Dies(k, e, Remaining(k, e, q)[i])
  {
    InRemaining(k, FindPid(k.pcbs, e.pid, 0), q, i);
    assert Linked(k, Remaining(k, e, q)[i], q);
  }

  /** Nobody disappears from the list of a mutex, condition or barrier but by dying or from its front. */
  lemma LeavesFromFront(k: Sched, e: Event, q: QueueId, t: nat)
    requires Inv(k) && Enabled(k, e) && Tracked(q) && q in k.queues && q in Next(k, e).queues
    requires |k.locks| == LOCK_NUM && |k.barriers| == BARRIER_NUM
    requires t in k.queues[q] && t !in Next(k, e).queues[q]
    ensures Dies(k, e, t) || t in Remaining(k, e, q)[..Drops(k, e, q)]
  {
    hide Inv, Next, Drops, Arrives, Enabled;
    QueueStep(k, e, q);
    InvParts(k);
    QueueNoDup(k, q);
    hide Core, Fixed, LocksOk, AloneOk;
    var s, d := Remaining(k, e, q), Drops(k, e, q);
    assert s == s[..d] + s[d..];
    if e.KillCall? && FindPid(k.pcbs, e.pid, 0) in k.queues[q] {
      WithoutMembers(k.queues[q], FindPid(k.pcbs, e.pid, 0));
    }
  }

  /** No wake-up is lost: whoever leaves the front of a mutex, condition or barrier list is ready or already runs. */
  lemma Woken(k: Sched, e: Event, q: QueueId, i: nat)
    requires Inv(k) && Enabled(k, e) && Tracked(q) && q in k.queues
    requires |k.locks| == LOCK_NUM && |k.barriers| == BARRIER_NUM && i < Drops(k, e, q)
    ensures var t := Remaining(k, e, q)[i]; t in Next(k, e).pcbs && Next(k, e).pcbs[t].status != TaskBlocked
  {
    hide Inv, Next, Drops, Enabled;
    if e.KillCall? {
      KillWoken(k, e.c, e.pid, q, i);
    } else {
      CallWoken(k, e, q, i);
    }
  }

  lemma CallWoken(k: Sched, e: Event, q: QueueId, i: nat)
    requires Inv(k) && Enabled(k, e) && !e.KillCall? && Tracked(q) && q in k.queues
    requires |k.locks| == LOCK_NUM && |k.barriers| == BARRIER_NUM && i < Drops(k, e, q)
    ensures var t := k.queues[q][i]; t in Next(k, e).pcbs && Next(k, e).pcbs[t].status != TaskBlocked
  {
    hide Inv, Next, Drops;
    InvParts(k);
    var t := k.queues[q][i];
    NextInv(k, e);
    var k' := Next(k, e);
    assert Linked(k, t, q);
    Waiting(k, t, q);
    hide ListsOk, PidsOk, LocksOk, AloneOk, Fixed;
    Survivors(k, e, t);
    BlockedDoesNotCall(k, e, t);
    hide CpusOk, Enabled;
    InvParts(k');
    QueueNoDup(k, q);
    var q' := OnSomeList(k', t);
    if q' != Ready {
      StillWaiting(k, e, q, q', t);
      assert false;
    }
  }

  lemma OnSomeList(k: Sched, t: nat) returns (q: QueueId)
    requires Core(k) && t in k.pcbs
    ensures Linked(k, t, q) && (k.pcbs[t].status == TaskBlocked <==> q != Ready)
  {
    q :| Linked(k, t, q);
  }

  lemma BlockedDoesNotCall(k: Sched, e: Event, t: nat)
    requires CpusOk(k) && t in k.pcbs && k.pcbs[t].status == TaskBlocked
    ensures !Calls(k, e, t)
  {
  }

  // ---------------------------------------------------------------- death

  lemma PidOnce(k: Sched, k': Sched, e: Event, pid: nat)
    requires PcbsKeep(k, k', e) && pid < k.nextPid
    requires forall t | t in k.pcbs && k.pcbs[t].pid == pid :: t !in k'.pcbs
    ensures !PidLive(k', pid) && pid < k'.nextPid
  {
  }

  lemma OwnersLive(k: Sched, pid: nat)
    requires Inv(k) && pid != 0 && !PidLive(k, pid)
    ensures forall m: nat | m < |k.locks| :: k.locks[m].owner != pid
  {
    hide ListsOk, CpusOk, PidsOk, Fixed, AloneOk;
    forall m: nat | m < |k.locks|
      ensures k.locks[m].owner != pid
    {
      assert LockOk(k, m, 0);
    }
  }

  /** After exit or kill no list, CPU or mutex refers to the dead task. */
  lemma LeavesNoTrace(k: Sched, e: Event, t: nat)
    requires Inv(k) && Enabled(k, e) && t in k.pcbs && Dies(k, e, t)
    ensures var k', pid := Next(k, e), k.pcbs[t].pid;
            && t !in k'.pcbs && !PidLive(k', pid) && 0 < pid < k'.nextPid
            && WaitOf(t) !in k'.queues && (forall q | q in k'.queues :: t !in k'.queues[q])
            && (forall c: nat :: !OnCpu(k', c, t))
            && (forall m: nat | m < |k'.locks| :: k'.locks[m].owner != pid)
  {
    hide Inv, Next, Enabled;
    var k' := Next(k, e);
    InvParts(k);
    NextInv(k, e);
    InvParts(k');
    Survivors(k, e, t);
    LivePid(k, t);
    EventPcbs(k, e);
    OtherPid(k, t);
    PidOnce(k, k', e, k.pcbs[t].pid);
    OwnersLive(k', k.pcbs[t].pid);
    hide LocksOk, AloneOk, Fixed;
    NotLinked(k', t);
  }

  lemma NotLinked(k: Sched, t: nat)
    requires Core(k) && t !in k.pcbs
    ensures (forall q | q in k.queues :: t !in k.queues[q]) && (forall c: nat :: !OnCpu(k, c, t))
  {
    forall q | q in k.queues
      ensures t !in k.queues[q]
    {
      assert t in k.queues[q] ==> Linked(k, t, q);
    }
  }

  lemma NotLive(k: Sched, pid: nat)
    requires !PidLive(k, pid)
    ensures forall t | t in k.pcbs :: k.pcbs[t].pid != pid
  {
  }

  /** A dead pid never comes back, and no mutex is ever again owned by it. */
  lemma {:induction false} DeadForever(k: Sched, es: seq<Event>, pid: nat)
    requires Inv(k) && CanRun(k, es) && 0 < pid < k.nextPid && !PidLive(k, pid)
    ensures !PidLive(After(k, es), pid)
    ensures forall m: nat | m < |After(k, es).locks| :: After(k, es).locks[m].owner != pid
    decreases |es|
  {
    hide Inv, Next, Enabled, PidLive;
    if es == [] {
      OwnersLive(k, pid);
    } else {
      NextInv(k, es[0]);
      EventPcbs(k, es[0]);
      NotLive(k, pid);
      PidOnce(k, Next(k, es[0]), es[0], pid);
      DeadForever(Next(k, es[0]), es[1..], pid);
    }
  }

  // ---------------------------------------------------------------- barriers and kill

  /** A kill keeps a barrier's counter right exactly when the victim is not waiting at that barrier. */
  lemma KillAtBarrier(k: Sched, c: nat, pid: nat, b: nat)
    requires Inv(k) && Enabled(k, KillCall(c, pid)) && b < BARRIER_NUM
    requires b < |k.barriers| && Barrier(b) in k.queues && k.barriers[b].current == |k.queues[Barrier(b)]|
    ensures var k' := Next(k, KillCall(c, pid));
            && b < |k'.barriers| && Barrier(b) in k'.queues
            && (k'.barriers[b].current == |k'.queues[Barrier(b)]| <==>
                  FindPid(k.pcbs, pid, 0) !in k.queues[Barrier(b)])
  {
    hide Inv, ListsOk, CpusOk, PidsOk, LocksOk, AloneOk, Release, OnlyStatuses;
    InvParts(k);
    var t := FindPid(k.pcbs, pid, 0);
    if t < NUM_MAX_TASK {
      WaitListExists(k, t);
      hide Fixed;
      ReleaseQueues(k, t, Barrier(b));
    } else {
      NoSlot(k, Barrier(b));
    }
  }
}
