/** Every list of the kernel seen on its own: what each event does to it. */
module SchedQueues {
  import opened Seqs
  import opened Lists
  import opened SchedModel
  import opened SchedSteps
  import opened LockInvariant
  import opened QueueEffects
  import opened SchedRuns

  /** The lists, other than the ready queue, that an event may change. */
  function Touched(k: Sched, e: Event): set<QueueId>
    requires Enabled(k, e) && !e.ExitCall? && !e.KillCall?
  {
    match e
    case Timer(_, _) => {Sleep}
    case SleepCall(_, _, _) => {Sleep}
    case AcquireCall(_, m) => {Mutex(m)}
    case ReleaseCall(_, m) => {Mutex(m)}
    case WaitCall(_, cv, m) => {Mutex(m), Condition(cv)}
    case SignalCall(_, cv) => {Condition(cv)}
    case BroadcastCall(_, cv) => {Condition(cv)}
    case BarrierCall(_, b) => {Barrier(b)}
    case Resume(c) => {Mutex(k.pcbs[k.cpus[c].t].resume.m)}
    case ExecCall(_, _) => {WaitOf(FreeSlot(k.pcbs, 0))}
    case WaitPidCall(_, pid) => {WaitOf(FindPid(k.pcbs, pid, 0))}
    case _ => {}
  }

  /** Besides statuses, at most the PCB of t changes, and that keeps its pid. */
  ghost predicate OthersKeep(k: Sched, k': Sched, t: nat) {
    && k'.nextPid == k.nextPid
    && (forall x | x in k.pcbs && x in k'.pcbs :: k'.pcbs[x].pid == k.pcbs[x].pid)
    && (forall x | x in k.pcbs && x in k'.pcbs && x != t :: SameBut(k.pcbs[x], k'.pcbs[x]))
  }

  // ---------------------------------------------------------------- what the calls do to their own lists

  lemma AcquireQueues(k: Sched, c: nat, m: nat)
    requires Core(k) && OnTask(k, c) && k.cpus[c].t in k.pcbs && m < |k.locks| && Mutex(m) in k.queues
    ensures var k', t := Acquire(k, c, m), k.cpus[c].t;
            && OnlyQueues(k, k', {Mutex(m)}) && OthersKeep(k, k', k.cpus[c].t) && k'.barriers == k.barriers
            && Mutex(m) in k'.queues
            && k'.queues[Mutex(m)] == (if k.locks[m].locked then k.queues[Mutex(m)] + [t] else k.queues[Mutex(m)])
            && t in k'.pcbs && k'.pcbs[t].wants == Wants(m)
            && k'.locks == (if k.locks[m].locked then k.locks else k.locks[m := MutexLock(true, k.pcbs[t].pid)])
  {
    hide ListsOk, CpusOk, PidsOk, OnlyQueues, Switch;
    var t := k.cpus[c].t;
    var k1 := SetPcb(k, t, k.pcbs[t].(resume := ToUser, wants := Wants(m)));
    CoreIgnores(k, k1);
    OnlySame(k, k1, {Mutex(m)});
    if k.locks[m].locked {
      SwitchQueues(k1, c, Mutex(m));
      OnlyThen(k, k1, Switch(k1, c, Mutex(m)), {Mutex(m)});
    } else {
      OnlySame(k, Acquire(k, c, m), {Mutex(m)});
    }
  }

  /** Release and enqueue are one step: no other task runs between them. */
  lemma CondWaitQueues(k: Sched, c: nat, cv: nat, m: nat)
    requires Core(k) && OnTask(k, c) && k.cpus[c].t in k.pcbs
    requires m < |k.locks| && Mutex(m) in k.queues && Condition(cv) in k.queues
    ensures var k', q := CondWait(k, c, cv, m), k.queues[Mutex(m)];
            && OnlyQueues(k, k', {Mutex(m), Condition(cv)}) && OthersKeep(k, k', k.cpus[c].t) && k'.barriers == k.barriers
            && Mutex(m) in k'.queues && k'.queues[Mutex(m)] == Tail(q) && (q != [] ==> q[0] in k.pcbs)
            && Condition(cv) in k'.queues && k'.queues[Condition(cv)] == k.queues[Condition(cv)] + [k.cpus[c].t]
            && k.cpus[c].t in k'.pcbs && k'.pcbs[k.cpus[c].t].wants == Wants(m)
            && k'.locks == k.locks[m := if q == [] then MutexLock(false, 0) else MutexLock(true, k.pcbs[q[0]].pid)]
  {
    hide ListsOk, CpusOk, PidsOk, OnlyQueues, Switch, ReleaseLock;
    var t, qs := k.cpus[c].t, {Mutex(m), Condition(cv)};
    var k1 := ReleaseLock(k, m);
    ReleaseLockQueues(k, m);
    var k2 := SetPcb(k1, t, k1.pcbs[t].(resume := Reacquire(m), wants := Wants(m)));
    CoreIgnores(k1, k2);
    SwitchQueues(k2, c, Condition(cv));
    var k3 := Switch(k2, c, Condition(cv));
    OnlyAt(k, k1, {Mutex(m)}, Condition(cv));
    OnlyAt(k2, k3, {Condition(cv)}, Mutex(m));
    OnlyMore(k, k1, {Mutex(m)}, qs);
    OnlySame(k1, k2, qs);
    OnlyMore(k2, k3, {Condition(cv)}, qs);
    OnlyThen(k, k1, k2, qs);
    OnlyThen(k, k2, k3, qs);
  }

  lemma OnlyAt(k: Sched, k': Sched, qs: set<QueueId>, q: QueueId)
    requires OnlyQueues(k, k', qs) && q in k.queues && q != Ready && q !in qs
    ensures q in k'.queues && k'.queues[q] == k.queues[q]
  {
  }

  lemma SignalQueues(k: Sched, cv: nat)
    requires Core(k) && Condition(cv) in k.queues
    ensures var k' := Signal(k, cv);
            && OnlyQueues(k, k', {Condition(cv)}) && OnlyStatuses(k, k') && k'.barriers == k.barriers && k'.locks == k.locks
            && Condition(cv) in k'.queues && k'.queues[Condition(cv)] == Tail(k.queues[Condition(cv)])
  {
    hide ListsOk, CpusOk, PidsOk, OnlyQueues, Wake;
    var s := k.queues[Condition(cv)];
    if s == [] {
      OnlySame(k, k, {Condition(cv)});
    } else {
      WakeFirst(k, Condition(cv));
      WakeCore(k, s[0]);
    }
  }

  lemma BarrierWaitQueues(k: Sched, c: nat, b: nat)
    requires Core(k) && OnTask(k, c) && b < |k.barriers| && Barrier(b) in k.queues
    ensures var k', bar := BarrierWait(k, c, b), k.barriers[b];
            && OnlyQueues(k, k', {Barrier(b)}) && OnlyStatuses(k, k') && k'.locks == k.locks && Barrier(b) in k'.queues
            && if bar.current + 1 < bar.goal then
                 && k'.queues[Barrier(b)] == k.queues[Barrier(b)] + [k.cpus[c].t]
                 && k'.barriers == k.barriers[b := bar.(current := bar.current + 1)]
               else
                 && k'.queues[Barrier(b)] == []
                 && k'.barriers == k.barriers[b := bar.(current := 0)]
  {
    hide ListsOk, CpusOk, PidsOk, OnlyQueues, Switch;
    var bar, k' := k.barriers[b], BarrierWait(k, c, b);
    if bar.current + 1 < bar.goal {
      var k1 := k.(barriers := k.barriers[b := bar.(current := bar.current + 1)]);
      CoreIgnores(k, k1);
      SwitchQueues(k1, c, Barrier(b));
      OnlySame(k, k1, {Barrier(b)});
      OnlyThen(k, k1, k', {Barrier(b)});
    } else {
      var k1 := WakeAll(k, Barrier(b));
      WakeAllQueues(k, Barrier(b));
      OnlySame(k1, k', {Barrier(b)});
      OnlyThen(k, k1, k', {Barrier(b)});
    }
  }

  lemma SleepUntilQueues(k: Sched, c: nat, time: nat)
    requires Core(k) && OnTask(k, c) && k.cpus[c].t in k.pcbs && Sleep in k.queues
    ensures var k' := SleepUntil(k, c, time);
            OnlyQueues(k, k', {Sleep}) && OthersKeep(k, k', k.cpus[c].t) && k'.locks == k.locks && k'.barriers == k.barriers
  {
    hide ListsOk, CpusOk, PidsOk, OnlyQueues, Switch;
    var t := k.cpus[c].t;
    var k1 := SetPcb(k, t, k.pcbs[t].(wakeup := time));
    CoreIgnores(k, k1);
    SwitchQueues(k1, c, Sleep);
    OnlySame(k, k1, {Sleep});
    OnlyThen(k, k1, SleepUntil(k, c, time), {Sleep});
  }

  /** The queue s without the task t, if it was there. */
  function Minus(s: seq<nat>, t: nat): seq<nat> {
    if t in s then Without(s, t) else s
  }

  /** release_pcb: the dead task is unlinked everywhere, and its mutexes go to their first waiters. */
  lemma ReleaseQueues(k: Sched, t: nat, q: QueueId)
    requires Core(k) && t in k.pcbs && WaitOf(t) in k.queues && |k.locks| <= LOCK_NUM
    requires forall i | 0 <= i < |k.locks| :: Mutex(i) in k.queues
    requires q in k.queues && q != Ready && q != WaitOf(t) && (q.Mutex? ==> q.m < |k.locks|)
    ensures var k' := Release(k, t);
            && q in k'.queues && k'.barriers == k.barriers && OnlyStatuses(k, k')
            && k'.queues[q] == if q.Mutex? && k.locks[q.m].owner == k.pcbs[t].pid then Tail(Minus(k.queues[q], t))
                               else Minus(k.queues[q], t)
  {
    hide ListsOk, CpusOk, PidsOk, OnlyQueues, OnlyStatuses;
    var pid := k.pcbs[t].pid;
    DropCore(k, t);
    var k0 := Drop(k, t);
    assert k0.queues[q] == Minus(k.queues[q], t);
    OnlyStatusesDrop(k, t);
    hide Drop;
    var k1 := ReleaseOwned(k0, pid, 0);
    ReleaseOwnedQueues(k0, pid, 0);
    if q.Mutex? {
      ReleaseOwnedEach(k0, pid, 0, q.m);
    } else {
      OnlyAt(k0, k1, MutexQueues(), q);
    }
    WakeAllQueues(k1, WaitOf(t));
    OnlyAt(k1, WakeAll(k1, WaitOf(t)), {WaitOf(t)}, q);
    OnlyStatusesThen(k0, k1, WakeAll(k1, WaitOf(t)));
    OnlyStatusesSub(k, k0, Release(k, t));
  }

  lemma OnlyStatusesDrop(k: Sched, t: nat)
    ensures OnlyStatuses(k, Drop(k, t))
  {
  }

  lemma OnlyStatusesSub(k: Sched, k1: Sched, k2: Sched)
    requires OnlyStatuses(k, k1) && OnlyStatuses(k1, k2) && k2.pcbs.Keys <= k1.pcbs.Keys
    ensures OnlyStatuses(k, k2)
  {
  }

  /** The mutexes of the dead task: handed to the first waiter, or free. */
  lemma ReleaseMutex(k: Sched, t: nat, m: nat)
    requires Core(k) && t in k.pcbs && WaitOf(t) in k.queues && m < |k.locks|
    requires forall i | 0 <= i < |k.locks| :: Mutex(i) in k.queues
    ensures var s := Minus(k.queues[Mutex(m)], t);
            && (s != [] ==> s[0] in k.pcbs)
            && Release(k, t).locks[m] ==
                 if k.locks[m].owner != k.pcbs[t].pid then k.locks[m]
                 else if s == [] then MutexLock(false, 0) else MutexLock(true, k.pcbs[s[0]].pid)
  {
    DeadNotFirst(k, t, m);
    hide ListsOk, CpusOk, PidsOk;
    DropCore(k, t);
    var k0 := Drop(k, t);
    assert k0.queues[Mutex(m)] == Minus(k.queues[Mutex(m)], t);
    ReleaseOwnedEach(k0, k.pcbs[t].pid, 0, m);
  }

  lemma DeadNotFirst(k: Sched, t: nat, m: nat)
    requires Core(k) && Mutex(m) in k.queues
    ensures var s := Minus(k.queues[Mutex(m)], t); s != [] ==> s[0] in k.pcbs && s[0] != t
  {
    var s := Minus(k.queues[Mutex(m)], t);
    if t in k.queues[Mutex(m)] {
      WithoutMembers(k.queues[Mutex(m)], t);
    }
    if s != [] {
      assert s[0] in s;
      assert Linked(k, s[0], Mutex(m));
    }
  }

  // ---------------------------------------------------------------- the frame of every event

  /** Only the lists in Touched and the ready queue change, and mutexes and barriers only where named. */
  ghost predicate FrameOk(k: Sched, e: Event)
    requires Inv(k) && Enabled(k, e) && !e.ExitCall? && !e.KillCall?
  {
    && OnlyQueues(k, Next(k, e), Touched(k, e))
    && (!e.BarrierCall? && !e.BarrierInit? ==> Next(k, e).barriers == k.barriers)
    && (!e.AcquireCall? && !e.ReleaseCall? && !e.WaitCall? && !e.Resume? ==> Next(k, e).locks == k.locks)
  }

  lemma LockEventFrame(k: Sched, e: Event)
    requires Inv(k) && Enabled(k, e) && IsLockEvent(e)
    ensures FrameOk(k, e)
  {
    hide ListsOk, CpusOk, PidsOk, LocksOk, AloneOk, Fixed, Inv, Acquire, ReleaseLock, CondWait,
      Signal, WakeAll, BarrierWait, OnlyQueues, OnlyStatuses, OthersKeep;
    InvParts(k);
    match e
    case AcquireCall(c, m) => AcquireQueues(k, c, m);
    case ReleaseCall(c, m) => ReleaseLockQueues(k, m);
    case WaitCall(c, cv, m) => CondWaitQueues(k, c, cv, m);
    case SignalCall(c, cv) => SignalQueues(k, cv);
    case BroadcastCall(c, cv) => WakeAllQueues(k, Condition(cv));
    case BarrierInit(c, b, goal) => OnlySame(k, SetGoal(k, b, goal), {});
    case BarrierCall(c, b) => BarrierWaitQueues(k, c, b);
    case Resume(c) => ResumeInBounds(k, k.cpus[c].t); AcquireQueues(k, c, k.pcbs[k.cpus[c].t].resume.m);
    case Return(c) => OnlySame(k, Next(k, e), {});
  }

  lemma TaskEventFrame(k: Sched, e: Event)
    requires Inv(k) && Enabled(k, e) && !IsLockEvent(e) && !e.ExitCall? && !e.KillCall?
    ensures FrameOk(k, e)
  {
    hide ListsOk, CpusOk, PidsOk, LocksOk, AloneOk, Fixed, Inv, Reschedule, SleepUntil, Exec, Switch,
      OnlyQueues, OnlyStatuses, OthersKeep;
    InvParts(k);
    match e
    case Timer(c, now) => RescheduleQueues(k, c, now);
    case SleepCall(c, now, ticks) => SleepUntilQueues(k, c, now + ticks);
    case ExecCall(c, known) => if known { ExecQueues(k); } else { OnlySame(k, k, {WaitOf(FreeSlot(k.pcbs, 0))}); }
    case WaitPidCall(c, pid) =>
      var t := FindPid(k.pcbs, pid, 0);
      if t < NUM_MAX_TASK { WaitListExists(k, t); SwitchQueues(k, c, WaitOf(t)); }
      else { OnlySame(k, k, {WaitOf(t)}); }
    case Join => OnlySame(k, JoinSecond(k), {});
  }

  /** An event that kills nobody changes the lists it names and the ready queue only. */
  lemma EventFrame(k: Sched, e: Event)
    requires Inv(k) && Enabled(k, e) && !e.ExitCall? && !e.KillCall?
    ensures OnlyQueues(k, Next(k, e), Touched(k, e))
    ensures !e.BarrierCall? && !e.BarrierInit? ==> Next(k, e).barriers == k.barriers
    ensures !e.AcquireCall? && !e.ReleaseCall? && !e.WaitCall? && !e.Resume? ==> Next(k, e).locks == k.locks
  {
    hide Inv, Enabled, Next, OnlyQueues, Touched;
    if IsLockEvent(e) {
      LockEventFrame(k, e);
    } else {
      TaskEventFrame(k, e);
    }
  }

  lemma ExecQueues(k: Sched)
    requires Core(k) && WaitListsOk(k)
    ensures OnlyQueues(k, Exec(k), {WaitOf(FreeSlot(k.pcbs, 0))})
    ensures Exec(k).locks == k.locks && Exec(k).barriers == k.barriers
  {
  }
}
