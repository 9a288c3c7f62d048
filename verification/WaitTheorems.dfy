/** Sleeping, waiting for an exit, and the goals of barriers: what the calls promise over every run. */
module WaitTheorems {
  import opened Seqs
  import opened Lists
  import opened SchedModel
  import opened SchedSteps
  import opened LockInvariant
  import opened QueueEffects
  import opened SchedRuns
  import opened SchedQueues
  import opened SchedProperties
  import opened LockTheorems

  // ---------------------------------------------------------------- sleeping

  /** t is blocked on the sleep list and is to wake up at the given time. */
  ghost predicate Sleeps(k: Sched, t: nat, time: nat) {
    Linked(k, t, Sleep) && t in k.pcbs && k.pcbs[t].status == TaskBlocked && k.pcbs[t].wakeup == time
  }

  lemma OnSleepList(k: Sched, t: nat)
    requires Core(k) && Linked(k, t, Sleep)
    ensures t in k.pcbs && k.pcbs[t].status == TaskBlocked && Ready in k.queues
  {
    Waiting(k, t, Sleep);
  }

  /** check_sleeping takes exactly the tasks off the list whose time has come. */
  lemma {:induction false} CheckSleepingTakes(k: Sched, now: nat, s: seq<nat>, t: nat)
    requires Core(k) && NoDup(s) && (forall x | x in s :: Linked(k, x, Sleep)) && Linked(k, t, Sleep) && t in k.pcbs
    ensures Linked(CheckSleeping(k, now, s), t, Sleep) <==> !(t in s && k.pcbs[t].wakeup <= now)
    decreases |s|
  {
    hide ListsOk, CpusOk, PidsOk, Wake, OnlyQueues;
    if s != [] {
      var x := s[0];
      Waiting(k, x, Sleep);
      if k.pcbs[x].wakeup <= now {
        WakeCore(k, x);
        WakeQueues(k, x, Sleep);
        WakeOthers(k, x, Sleep, s[1..]);
        QueueNoDup(k, Sleep);
        WithoutMembers(k.queues[Sleep], x);
        var k1 := Wake(k, x);
        if t != x {
          CheckSleepingTakes(k1, now, s[1..], t);
        } else {
          StaysOff(k1, now, s[1..], t);
        }
      } else {
        CheckSleepingTakes(k, now, s[1..], t);
      }
    }
  }

  lemma {:induction false} StaysOff(k: Sched, now: nat, s: seq<nat>, t: nat)
    requires Core(k) && NoDup(s) && (forall x | x in s :: Linked(k, x, Sleep)) && !Linked(k, t, Sleep)
    ensures !Linked(CheckSleeping(k, now, s), t, Sleep)
    decreases |s|
  {
    hide ListsOk, CpusOk, PidsOk, Wake, OnlyQueues;
    if s != [] {
      var x := s[0];
      Waiting(k, x, Sleep);
      if k.pcbs[x].wakeup <= now {
        WakeCore(k, x);
        WakeQueues(k, x, Sleep);
        WakeOthers(k, x, Sleep, s[1..]);
        QueueNoDup(k, Sleep);
        WithoutMembers(k.queues[Sleep], x);
        StaysOff(Wake(k, x), now, s[1..], t);
      } else {
        StaysOff(k, now, s[1..], t);
      }
    }
  }

  lemma RescheduleTakes(k: Sched, c: nat, now: nat, t: nat)
    requires Core(k) && c in k.cpus && Linked(k, t, Sleep) && t in k.pcbs
    ensures Linked(Reschedule(k, c, now), t, Sleep) <==> k.pcbs[t].wakeup > now
  {
    hide ListsOk, CpusOk, PidsOk, OnlyQueues, OnlyStatuses, NoDup, Switch, FromIdle, CheckSleeping;
    QueueNoDup(k, Sleep);
    var k1 := CheckSleeping(k, now, k.queues[Sleep]);
    CheckSleepingTakes(k, now, k.queues[Sleep], t);
    if k1.cpus[c].On? {
      ReadyExists(k1);
      SwitchQueues(k1, c, Ready);
      OnlyAt(k1, Switch(k1, c, Ready), {Ready}, Sleep);
    } else {
      FromIdleQueues(k1, c);
    }
  }

  // ---------------------------------------------------------------- blocked on a list

  /** The lists that are no queue of a mutex, condition or barrier. */
  predicate Private(q: QueueId) {
    q == Sleep || q.WaitOf?
  }

  /** Whoever is on such a list is blocked, so it makes no calls and its PCB keeps all but its status. */
  lemma ListedKeeps(k: Sched, e: Event, t: nat, q: QueueId)
    requires Inv(k) && Enabled(k, e) && Linked(k, t, q) && q != Ready && !Dies(k, e, t)
    ensures t in k.pcbs && k.pcbs[t].status == TaskBlocked && !Calls(k, e, t)
    ensures t in Next(k, e).pcbs && SameBut(k.pcbs[t], Next(k, e).pcbs[t])
  {
    hide Inv, Next, Enabled, Dies;
    InvParts(k);
    Waiting(k, t, q);
    BlockedDoesNotCall(k, e, t);
    Survivors(k, e, t);
    EventPcbs(k, e);
  }

  lemma SleepCallQueue(k: Sched, c: nat, now: nat, ticks: nat)
    requires Inv(k) && InUser(k, c)
    ensures var k', t := Next(k, SleepCall(c, now, ticks)), k.cpus[c].t;
            && Sleep in k.queues && Sleep in k'.queues && k'.queues[Sleep] == k.queues[Sleep] + [t]
            && t in k'.pcbs && k'.pcbs[t].wakeup == now + ticks
  {
    hide Inv, ListsOk, CpusOk, PidsOk, LocksOk, AloneOk, Fixed, Switch, OnlyQueues;
    InvParts(k);
    var t := k.cpus[c].t;
    var k1 := SetPcb(k, t, k.pcbs[t].(wakeup := now + ticks));
    CoreIgnores(k, k1);
    SwitchQueues(k1, c, Sleep);
  }

  /** The caller of waitpid joins the tail of the list, when there is a task with that pid. */
  ghost predicate JoinsWaiters(k: Sched, c: nat, pid: nat, v: nat)
    requires Inv(k) && Enabled(k, WaitPidCall(c, pid))
  {
    var k' := Next(k, WaitPidCall(c, pid));
    && v in k.pcbs && k.pcbs[v].pid == pid && OnTask(k, c)
    && WaitOf(v) in k.queues && WaitOf(v) in k'.queues && k'.queues[WaitOf(v)] == k.queues[WaitOf(v)] + [k.cpus[c].t]
  }

  lemma WaitPidQueue(k: Sched, c: nat, pid: nat)
    requires Inv(k) && Enabled(k, WaitPidCall(c, pid))
    ensures var v := FindPid(k.pcbs, pid, 0);
            if v == NUM_MAX_TASK then Next(k, WaitPidCall(c, pid)) == k else JoinsWaiters(k, c, pid, v)
  {
    hide Inv, ListsOk, CpusOk, PidsOk, LocksOk, AloneOk, Fixed, Switch, OnlyQueues;
    InvParts(k);
    var v := FindPid(k.pcbs, pid, 0);
    if v < NUM_MAX_TASK {
      WaitListExists(k, v);
      SwitchQueues(k, c, WaitOf(v));
    }
  }

  lemma ExitLeavesListed(k: Sched, c: nat, t: nat, q: QueueId)
    requires Inv(k) && OnTask(k, c) && Enabled(k, ExitCall(c)) && Linked(k, t, q) && Private(q) && q != WaitOf(k.cpus[c].t)
    ensures Linked(Next(k, ExitCall(c)), t, q)
  {
    hide Inv, Exit, Core, Fixed;
    ExitQueues(k, c, q);
  }

  lemma KillLeavesListed(k: Sched, c: nat, pid: nat, t: nat, q: QueueId)
    requires Inv(k) && Enabled(k, KillCall(c, pid)) && Linked(k, t, q) && Private(q)
    requires t != FindPid(k.pcbs, pid, 0) && q != WaitOf(FindPid(k.pcbs, pid, 0))
    ensures Linked(Next(k, KillCall(c, pid)), t, q)
  {
    hide Inv, Core, LocksOk, AloneOk, Fixed, Release, OnlyStatuses, Next, Enabled;
    Sizes(k);
    KillIs(k, c, pid);
    var v := FindPid(k.pcbs, pid, 0);
    if v < NUM_MAX_TASK {
      ReleaseQueues(k, v, q);
      QueueNoDup(k, q);
      if v in k.queues[q] {
        WithoutMembers(k.queues[q], v);
      }
    }
  }

  lemma FreeSlotIsFree(k: Sched, v: nat)
    requires Fixed(k) && v in k.pcbs
    ensures FreeSlot(k.pcbs, 0) != v
  {
  }

  /** Only a timer interrupt takes a living task off the sleep list, and only a death off a wait list: that of whom it waits for. */
  lemma StaysListed(k: Sched, e: Event, t: nat, q: QueueId)
    requires Inv(k) && Enabled(k, e) && Linked(k, t, q) && Private(q) && !Dies(k, e, t)
    requires !(e.Timer? && q == Sleep) && (q.WaitOf? ==> q.task in k.pcbs && !Dies(k, e, q.task))
    ensures Linked(Next(k, e), t, q)
  {
    hide Inv, Core, LocksOk, AloneOk, Next, OnlyQueues;
    InvParts(k);
    if e.ExitCall? {
      hide Fixed;
      ExitLeavesListed(k, e.c, t, q);
    } else if e.KillCall? {
      hide Fixed;
      KillLeavesListed(k, e.c, e.pid, t, q);
    } else {
      EventFrame(k, e);
      if q.WaitOf? {
        FreeSlotIsFree(k, q.task);
      }
      hide Fixed;
      if q !in Touched(k, e) {
        OnlyAt(k, Next(k, e), Touched(k, e), q);
      } else if e.SleepCall? {
        SleepCallQueue(k, e.c, e.now, e.ticks);
      } else {
        WaitPidQueue(k, e.c, e.pid);
      }
    }
  }

  // ---------------------------------------------------------------- sleeping, over every run

  /** do_sleep: the caller is on the sleep list until ticks from now. */
  lemma SleepStarts(k: Sched, c: nat, now: nat, ticks: nat)
    requires Inv(k) && Enabled(k, SleepCall(c, now, ticks))
    ensures Inv(Next(k, SleepCall(c, now, ticks))) && Sleeps(Next(k, SleepCall(c, now, ticks)), k.cpus[c].t, now + ticks)
  {
    hide Inv, Next;
    var k', t := Next(k, SleepCall(c, now, ticks)), k.cpus[c].t;
    NextInv(k, SleepCall(c, now, ticks));
    SleepCallQueue(k, c, now, ticks);
    assert Linked(k', t, Sleep);
    InvParts(k');
    OnSleepList(k', t);
  }

  /** The time of a timer interrupt decides: later than now the sleeper stays, otherwise it is off the list and can run. */
  lemma TimerDecides(k: Sched, c: nat, now: nat, t: nat, time: nat)
    requires Inv(k) && Enabled(k, Timer(c, now)) && Sleeps(k, t, time)
    ensures var k' := Next(k, Timer(c, now));
            if now < time then Sleeps(k', t, time)
            else !Linked(k', t, Sleep) && t in k'.pcbs && k'.pcbs[t].status != TaskBlocked && Linked(k', t, Ready)
  {
    hide Inv, Next, Core, LocksOk, AloneOk, Fixed, OnlyQueues;
    var e, k' := Timer(c, now), Next(k, Timer(c, now));
    InvParts(k);
    NextInv(k, e);
    InvParts(k');
    ListedKeeps(k, e, t, Sleep);
    TimerTakes(k, c, now, t);
    if now < time {
      OnSleepList(k', t);
    } else {
      var q := OnSomeList(k', t);
      if q != Ready {
        TimerLists(k, c, now, t, q);
      }
    }
  }

  lemma TimerTakes(k: Sched, c: nat, now: nat, t: nat)
    requires Inv(k) && Enabled(k, Timer(c, now)) && Linked(k, t, Sleep) && t in k.pcbs
    ensures Linked(Next(k, Timer(c, now)), t, Sleep) <==> k.pcbs[t].wakeup > now
  {
    hide Inv, Core, LocksOk, AloneOk, Fixed, Reschedule;
    InvParts(k);
    RescheduleTakes(k, c, now, t);
  }

  /** A timer interrupt moves nobody to a list of blocked tasks. */
  lemma TimerLists(k: Sched, c: nat, now: nat, t: nat, q: QueueId)
    requires Inv(k) && Enabled(k, Timer(c, now)) && Linked(k, t, Sleep) && Linked(Next(k, Timer(c, now)), t, q) && q != Ready
    ensures q == Sleep
  {
    hide Inv, Core, Fixed, LocksOk, AloneOk, OnlyQueues, Reschedule;
    InvParts(k);
    RescheduleQueues(k, c, now);
    var k' := Reschedule(k, c, now);
    if q != Sleep {
      OnlyAt(k, k', {Sleep}, q);
      OneListOnly(k, t, Sleep, q);
    }
  }

  lemma OneListOnly(k: Sched, t: nat, q: QueueId, q': QueueId)
    requires Core(k) && Linked(k, t, q) && Linked(k, t, q')
    ensures q == q'
  {
    assert Separate(k.queues);
  }

  /** Nothing in the run ends the sleep of t: nobody kills it, and no timer interrupt comes at its time or later. */
  ghost predicate Undisturbed(k: Sched, es: seq<Event>, t: nat, time: nat)
    requires Inv(k) && CanRun(k, es)
    decreases |es|
  {
    hide Inv, Next;
    es == [] || (NextInv(k, es[0]);
      !Dies(k, es[0], t) && !(es[0].Timer? && es[0].now >= time) && Undisturbed(Next(k, es[0]), es[1..], t, time))
  }

  lemma SleepsOn(k: Sched, e: Event, t: nat, time: nat)
    requires Inv(k) && Enabled(k, e) && Sleeps(k, t, time) && !Dies(k, e, t) && !(e.Timer? && e.now >= time)
    ensures Sleeps(Next(k, e), t, time)
  {
    hide Inv, Next, Enabled, Dies;
    if e.Timer? {
      TimerDecides(k, e.c, e.now, t, time);
    } else {
      ListedKeeps(k, e, t, Sleep);
      StaysListed(k, e, t, Sleep);
      NextInv(k, e);
      InvParts(Next(k, e));
      OnSleepList(Next(k, e), t);
    }
  }

  lemma {:induction false} SleepsThrough(k: Sched, es: seq<Event>, t: nat, time: nat)
    requires Inv(k) && CanRun(k, es) && Sleeps(k, t, time) && Undisturbed(k, es, t, time)
    ensures Sleeps(After(k, es), t, time)
    decreases |es|
  {
    hide Inv, Next, Enabled, Dies, Sleeps;
    if es != [] {
      NextInv(k, es[0]);
      SleepsOn(k, es[0], t, time);
      SleepsThrough(Next(k, es[0]), es[1..], t, time);
    }
  }

  /**
   do_sleep, over every run: the caller stays blocked on the sleep list whatever else happens, until it is
   killed or the first timer interrupt at its time or later, which takes it off the list and lets it run.
   */
  lemma SleepTime(k: Sched, c: nat, now: nat, ticks: nat, es: seq<Event>, c': nat, at: nat)
    requires Inv(k) && Enabled(k, SleepCall(c, now, ticks)) && Inv(Next(k, SleepCall(c, now, ticks)))
    requires CanRun(Next(k, SleepCall(c, now, ticks)), es)
    requires Undisturbed(Next(k, SleepCall(c, now, ticks)), es, k.cpus[c].t, now + ticks)
    requires Enabled(After(Next(k, SleepCall(c, now, ticks)), es), Timer(c', at))
    ensures var t, k1 := k.cpus[c].t, After(Next(k, SleepCall(c, now, ticks)), es);
            var k2 := Next(k1, Timer(c', at));
            && Linked(k1, t, Sleep) && t in k1.pcbs && k1.pcbs[t].status == TaskBlocked && t in k2.pcbs
            && (at < now + ticks ==> Linked(k2, t, Sleep) && k2.pcbs[t].status == TaskBlocked)
            && (at >= now + ticks ==> !Linked(k2, t, Sleep) && k2.pcbs[t].status != TaskBlocked && Linked(k2, t, Ready))
  {
    hide Inv, Next, Linked;
    var t := k.cpus[c].t;
    SleepStarts(k, c, now, ticks);
    var k1 := Next(k, SleepCall(c, now, ticks));
    SleepsThrough(k1, es, t, now + ticks);
    TimerDecides(After(k1, es), c', at, t, now + ticks);
  }

  // ---------------------------------------------------------------- waiting for an exit, over every run

  /** t is blocked until the task v exits or is killed. */
  ghost predicate Awaits(k: Sched, t: nat, v: nat) {
    Linked(k, t, WaitOf(v)) && v in k.pcbs && t in k.pcbs && k.pcbs[t].status == TaskBlocked
  }

  lemma OnWaitList(k: Sched, t: nat, v: nat)
    requires Core(k) && Linked(k, t, WaitOf(v))
    ensures t in k.pcbs && k.pcbs[t].status == TaskBlocked
  {
    Waiting(k, t, WaitOf(v));
  }

  /** do_waitpid: the caller waits for the task with that pid; without one, nothing happens. */
  lemma WaitStarts(k: Sched, c: nat, pid: nat)
    requires Inv(k) && Enabled(k, WaitPidCall(c, pid)) && OnTask(k, c)
    ensures var k' := Next(k, WaitPidCall(c, pid));
            && Inv(k')
            && ((forall v | v in k.pcbs :: k.pcbs[v].pid != pid) ==> k' == k)
            && (forall v | v in k.pcbs && k.pcbs[v].pid == pid :: Awaits(k', k.cpus[c].t, v))
  {
    hide Inv, Next, Enabled;
    var e, v, t := WaitPidCall(c, pid), FindPid(k.pcbs, pid, 0), k.cpus[c].t;
    var k' := Next(k, e);
    NextInv(k, e);
    InvParts(k');
    InvParts(k);
    WaitPidQueue(k, c, pid);
    if v == NUM_MAX_TASK {
      NobodyHas(k, pid);
    } else {
      assert Linked(k', t, WaitOf(v));
      OnWaitList(k', t, v);
      Survivors(k, e, v);
      OtherPid(k, v);
    }
  }

  lemma NobodyHas(k: Sched, pid: nat)
    requires Fixed(k) && FindPid(k.pcbs, pid, 0) == NUM_MAX_TASK
    ensures forall v | v in k.pcbs :: k.pcbs[v].pid != pid
  {
  }

  lemma AwaitsOn(k: Sched, e: Event, t: nat, v: nat)
    requires Inv(k) && Enabled(k, e) && Awaits(k, t, v) && !Dies(k, e, t) && !Dies(k, e, v)
    ensures Awaits(Next(k, e), t, v)
  {
    hide Inv, Next, Enabled, Dies;
    StaysListed(k, e, t, WaitOf(v));
    Survivors(k, e, v);
    NextInv(k, e);
    InvParts(Next(k, e));
    OnWaitList(Next(k, e), t, v);
  }

  /** A death lengthens no list but the ready queue. */
  lemma DeathShortens(k: Sched, e: Event, v: nat, t: nat, q: QueueId)
    requires Inv(k) && Enabled(k, e) && v in k.pcbs && Dies(k, e, v) && Linked(Next(k, e), t, q) && q != Ready
    ensures Linked(k, t, q)
  {
    hide Inv, Core, LocksOk, AloneOk, Exit, Release, OnlyStatuses;
    InvParts(k);
    WaitListExists(k, v);
    if e.ExitCall? {
      assert q in k.queues && q != WaitOf(v);
      hide Next, Fixed;
      ExitIs(k, e.c);
      ExitQueues(k, e.c, q);
    } else {
      KillIs(k, e.c, e.pid);
      hide Next;
      assert q in k.queues && q != WaitOf(v);
      hide Fixed;
      ReleaseQueues(k, v, q);
      QueueNoDup(k, q);
      if v in k.queues[q] {
        WithoutMembers(k.queues[q], v);
      }
    }
  }

  lemma ExitIs(k: Sched, c: nat)
    requires Inv(k) && Enabled(k, ExitCall(c))
    ensures InUser(k, c) && Core(k) && Fixed(k) && Next(k, ExitCall(c)) == Exit(k, c)
  {
    hide Inv, Core, LocksOk, AloneOk, Fixed, Exit;
    InvParts(k);
  }

  /** When the task waited for exits or is killed, whoever waited for it is on the ready queue. */
  lemma WaitEnds(k: Sched, e: Event, t: nat, v: nat)
    requires Inv(k) && Enabled(k, e) && Awaits(k, t, v) && Dies(k, e, v) && !Dies(k, e, t)
    ensures var k' := Next(k, e); v !in k'.pcbs && t in k'.pcbs && k'.pcbs[t].status != TaskBlocked && Linked(k', t, Ready)
  {
    hide Inv, Next, Enabled, Dies;
    var k' := Next(k, e);
    Survivors(k, e, t);
    Survivors(k, e, v);
    LeavesNoTrace(k, e, v);
    NextInv(k, e);
    InvParts(k');
    InvParts(k);
    var q := OnSomeList(k', t);
    if q != Ready {
      DeathShortens(k, e, v, t, q);
      OneListOnly(k, t, WaitOf(v), q);
    }
  }

  /** Neither the waiting task nor the one it waits for dies in the run. */
  ghost predicate BothLive(k: Sched, es: seq<Event>, t: nat, v: nat)
    requires Inv(k) && CanRun(k, es)
    decreases |es|
  {
    hide Inv, Next;
    es == [] || (NextInv(k, es[0]);
      !Dies(k, es[0], t) && !Dies(k, es[0], v) && BothLive(Next(k, es[0]), es[1..], t, v))
  }

  /** do_waitpid, over every run: the caller stays blocked exactly until the task it waits for is gone. */
  lemma {:induction false} WaitTime(k: Sched, es: seq<Event>, t: nat, v: nat, e: Event)
    requires Inv(k) && CanRun(k, es) && Awaits(k, t, v) && BothLive(k, es, t, v)
    requires Enabled(After(k, es), e) && !Dies(After(k, es), e, t)
    ensures Awaits(After(k, es), t, v)
    ensures var k' := Next(After(k, es), e);
            && t in k'.pcbs && (k'.pcbs[t].status == TaskBlocked <==> v in k'.pcbs)
            && (v !in k'.pcbs ==> Linked(k', t, Ready))
    decreases |es|
  {
    hide Inv, Next, Enabled, Dies;
    if es == [] {
      Survivors(k, e, v);
      if Dies(k, e, v) {
        WaitEnds(k, e, t, v);
      } else {
        AwaitsOn(k, e, t, v);
      }
    } else {
      NextInv(k, es[0]);
      AwaitsOn(k, es[0], t, v);
      WaitTime(Next(k, es[0]), es[1..], t, v, e);
    }
  }

  // ---------------------------------------------------------------- the goals of barriers

  /** The goal that the last do_barrier_init of the run gives the barrier, or the one it had. */
  function LastGoal(es: seq<Event>, b: nat, goal: nat): nat {
    if es == [] then goal else
    LastGoal(es[1..], b, if es[0].BarrierInit? && es[0].b == b then es[0].goal else goal)
  }

  lemma GoalStep(k: Sched, e: Event, b: nat)
    requires Inv(k) && Enabled(k, e) && b < BARRIER_NUM
    ensures b < |k.barriers| && b < |Next(k, e).barriers|
    ensures Next(k, e).barriers[b].goal == if e.BarrierInit? && e.b == b then e.goal else k.barriers[b].goal
  {
    hide Inv, Core, LocksOk, AloneOk, Fixed;
    NextInv(k, e);
    InvParts(k);
    InvParts(Next(k, e));
    if e.BarrierCall? {
      hide Next;
      BarrierStep(k, e.c, e.b);
    } else if e.ExitCall? {
      hide Exit;
      ExitQueues(k, e.c, Sleep);
    } else if e.KillCall? {
      hide Next;
      KillKeepsBarriers(k, e.c, e.pid);
    } else if !e.BarrierInit? {
      hide Next, Enabled, OnlyQueues;
      EventFrame(k, e);
    }
  }

  lemma KillKeepsBarriers(k: Sched, c: nat, pid: nat)
    requires Inv(k) && Enabled(k, KillCall(c, pid))
    ensures Next(k, KillCall(c, pid)).barriers == k.barriers
  {
    hide Inv, Core, LocksOk, AloneOk, Fixed, Release, OnlyStatuses, Next, Enabled;
    InvParts(k);
    KillIs(k, c, pid);
    if FindPid(k.pcbs, pid, 0) < NUM_MAX_TASK {
      ReleaseQueues(k, FindPid(k.pcbs, pid, 0), Sleep);
    }
  }

  /** Over every run the goal of a barrier is the one given last. */
  lemma {:induction false} GoalIsLastGiven(k: Sched, es: seq<Event>, b: nat)
    requires Inv(k) && CanRun(k, es) && b < BARRIER_NUM
    ensures b < |k.barriers| && b < |After(k, es).barriers|
    ensures After(k, es).barriers[b].goal == LastGoal(es, b, k.barriers[b].goal)
    decreases |es|
  {
    hide Inv, Next, Enabled;
    InvParts(k);
    if es != [] {
      GoalStep(k, es[0], b);
      NextInv(k, es[0]);
      GoalIsLastGiven(Next(k, es[0]), es[1..], b);
    }
  }

  // ---------------------------------------------------------------- exec

  /** Between k and k' one task has appeared, in slot t, under a fresh pid and at the tail of the ready queue. */
  ghost predicate OneMore(k: Sched, k': Sched, t: nat) {
    && t < NUM_MAX_TASK && t !in k.pcbs && k'.pcbs.Keys == k.pcbs.Keys + {t}
    && (forall x | x in k.pcbs :: k'.pcbs[x] == k.pcbs[x])
    && k'.pcbs[t].status == TaskReady && k'.pcbs[t].pid == k.nextPid < k'.nextPid
    && Ready in k.queues && Ready in k'.queues && k'.queues[Ready] == k.queues[Ready] + [t]
    && WaitOf(t) in k'.queues && k'.queues[WaitOf(t)] == []
    && (forall q | q in k.queues && q != Ready && q != WaitOf(t) :: q in k'.queues && k'.queues[q] == k.queues[q])
    && k'.cpus == k.cpus && k'.locks == k.locks && k'.barriers == k.barriers
  }

  lemma CreateAdds(k: Sched, t: nat)
    requires Ready in k.queues && WaitOf(t) !in k.queues && t < NUM_MAX_TASK && t !in k.pcbs
    ensures OneMore(k, Create(k, t), t)
  {
  }

  /** do_exec: with a free slot and a known program there is one task more, and nothing else changes; otherwise nothing does. */
  lemma ExecAdds(k: Sched, c: nat, known: bool)
    requires Inv(k) && Enabled(k, ExecCall(c, known))
    ensures var k' := Next(k, ExecCall(c, known));
            if !known || (forall t: nat | t < NUM_MAX_TASK :: t in k.pcbs) then k' == k
            else exists t: nat :: OneMore(k, k', t)
  {
    hide Inv, Core, LocksOk, AloneOk, Fixed, OneMore, Create;
    InvParts(k);
    if known {
      var t := FreeSlot(k.pcbs, 0);
      if t < NUM_MAX_TASK {
        CreateCore(k, t);
        NoWaitList(k, t);
        CreateAdds(k, t);
        assert t !in k.pcbs && OneMore(k, Next(k, ExecCall(c, known)), t);
      } else {
        assert forall i: nat | i < NUM_MAX_TASK :: i in k.pcbs;
      }
    }
  }

  lemma NoWaitList(k: Sched, t: nat)
    requires WaitListsOk(k) && t !in k.pcbs
    ensures WaitOf(t) !in k.queues
  {
  }

  /** When the second CPU joins while the first one runs a task, it takes the ready task that has waited longest. */
  lemma JoinTakesLongestReady(k: Sched)
    requires Inv(k) && Enabled(k, Join)
    ensures var k', s := Next(k, Join), k.queues[Ready];
            && OnTask(k', 1) && IsReady(k.pcbs, k'.cpus[1].t) && IsRunning(k'.pcbs, k'.cpus[1].t)
            && exists i :: 0 <= i < |s| && s[i] == k'.cpus[1].t && (OnTask(k, 0) ==> forall j | 0 <= j < i :: IsRunning(k.pcbs, s[j]))
  {
    hide Inv, ListsOk, PidsOk, LocksOk, Fixed;
    InvParts(k);
    JoinTakesIdleTask(k);
    assert k.queues[Ready][1] == Next(k, Join).cpus[1].t;
  }
}
