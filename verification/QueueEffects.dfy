/** Which lists and mutexes the building blocks of a kernel call touch, and how. */
module QueueEffects {
  import opened Seqs
  import opened Lists
  import opened SchedModel
  import opened SchedSteps

  /** Apart from the ready queue and those in qs, every list keeps its tasks in their order. */
  ghost predicate OnlyQueues(k: Sched, k': Sched, qs: set<QueueId>) {
    forall q | q in k.queues && q != Ready && q !in qs :: q in k'.queues && k'.queues[q] == k.queues[q]
  }

  /** Nothing in a PCB changes but its status. */
  ghost predicate OnlyStatuses(k: Sched, k': Sched) {
    && k'.nextPid == k.nextPid
    && forall x | x in k.pcbs && x in k'.pcbs :: SameBut(k.pcbs[x], k'.pcbs[x])
  }

  predicate SameBut(p: Pcb, p': Pcb) {
    p' == p.(status := p'.status)
  }

  lemma OnlyThen(k: Sched, k1: Sched, k2: Sched, qs: set<QueueId>)
    requires OnlyQueues(k, k1, qs) && OnlyQueues(k1, k2, qs)
    ensures OnlyQueues(k, k2, qs)
  {
  }

  lemma OnlyMore(k: Sched, k': Sched, qs: set<QueueId>, qs': set<QueueId>)
    requires OnlyQueues(k, k', qs) && qs <= qs'
    ensures OnlyQueues(k, k', qs')
  {
  }

  /** A running task is on the ready queue and on no other list. */
  lemma RunningIsReady(k: Sched, t: nat, q: QueueId)
    requires Core(k) && IsRunning(k.pcbs, t) && q in k.queues && q != Ready
    ensures t !in k.queues[q]
  {
    assert t in k.queues[q] ==> Linked(k, t, q);
  }

  lemma SwitchQueues(k: Sched, c: nat, q: QueueId)
    requires Core(k) && OnTask(k, c) && q in k.queues
    ensures OnlyQueues(k, Switch(k, c, q), {q})
    ensures q != Ready ==> Switch(k, c, q).queues[q] == k.queues[q] + [k.cpus[c].t]
    ensures Switch(k, c, q).locks == k.locks && Switch(k, c, q).barriers == k.barriers
    ensures OnlyStatuses(k, Switch(k, c, q))
  {
    hide ListsOk, PidsOk;
    var t := k.cpus[c].t;
    assert IsRunning(k.pcbs, t);
    forall q' | q' in k.queues && q' != Ready
      ensures t !in k.queues[q']
    {
      RunningIsReady(k, t, q');
    }
    LeaveCore(k, c, q);
    hide Pick;
    PickCore(Leave(k, c, q), c);
    PickShape(Leave(k, c, q), c);
  }

  lemma WakeQueues(k: Sched, t: nat, q: QueueId)
    requires Core(k) && Linked(k, t, q) && q != Ready && t in k.pcbs && Ready in k.queues
    ensures OnlyQueues(k, Wake(k, t), {q}) && q in Wake(k, t).queues && Wake(k, t).queues[q] == Without(k.queues[q], t)
    ensures OnlyStatuses(k, Wake(k, t))
  {
    assert Separate(k.queues);
    hide Separate;
    UnlinkOne(k.queues, q, t);
  }

  lemma WakeFirst(k: Sched, q: QueueId)
    requires Core(k) && q in k.queues && q != Ready && k.queues[q] != []
    ensures var t := k.queues[q][0];
            && t in k.pcbs && Ready in k.queues && k.pcbs[t].status == TaskBlocked
            && OnlyQueues(k, Wake(k, t), {q}) && q in Wake(k, t).queues && Wake(k, t).queues[q] == k.queues[q][1..]
            && OnlyStatuses(k, Wake(k, t))
  {
    hide ListsOk, CpusOk, PidsOk, Wake, OnlyQueues;
    var t := k.queues[q][0];
    Waiting(k, t, q);
    assert Linked(k, t, q);
    WakeQueues(k, t, q);
    QueueNoDup(k, q);
    WithoutAt(k.queues[q], 0);
    assert k.queues[q][..0] + k.queues[q][1..] == k.queues[q][1..];
  }

  lemma QueueNoDup(k: Sched, q: QueueId)
    requires Core(k) && q in k.queues
    ensures NoDup(k.queues[q])
  {
    assert Separate(k.queues);
  }

  lemma OnlyStatusesThen(k: Sched, k1: Sched, k2: Sched)
    requires OnlyStatuses(k, k1) && OnlyStatuses(k1, k2) && k1.pcbs.Keys == k.pcbs.Keys
    ensures OnlyStatuses(k, k2)
  {
  }

  lemma {:induction false} WakeAllQueues(k: Sched, q: QueueId)
    requires Core(k) && q in k.queues && q != Ready
    ensures OnlyQueues(k, WakeAll(k, q), {q}) && OnlyStatuses(k, WakeAll(k, q))
    decreases |k.queues[q]|
  {
    hide ListsOk, CpusOk, PidsOk, Wake, OnlyQueues;
    if k.queues[q] == [] {
      OnlySame(k, k, {q});
    } else {
      var t := k.queues[q][0];
      WakeFirst(k, q);
      WakeCore(k, t);
      WakeAllQueues(Wake(k, t), q);
      OnlyThen(k, Wake(k, t), WakeAll(Wake(k, t), q), {q});
    }
  }

  lemma OnlySame(k: Sched, k': Sched, qs: set<QueueId>)
    requires k'.queues == k.queues
    ensures OnlyQueues(k, k', qs)
  {
  }

  lemma {:induction false} CheckSleepingQueues(k: Sched, now: nat, s: seq<nat>)
    requires Core(k) && NoDup(s) && forall t | t in s :: Linked(k, t, Sleep)
    ensures OnlyQueues(k, CheckSleeping(k, now, s), {Sleep}) && OnlyStatuses(k, CheckSleeping(k, now, s))
    ensures CheckSleeping(k, now, s).locks == k.locks && CheckSleeping(k, now, s).barriers == k.barriers
    decreases |s|
  {
    hide ListsOk, CpusOk, PidsOk, Wake, OnlyQueues;
    if s == [] {
      OnlySame(k, k, {Sleep});
    } else {
      var t := s[0];
      Waiting(k, t, Sleep);
      if k.pcbs[t].wakeup <= now {
        WakeCore(k, t);
        WakeQueues(k, t, Sleep);
        WakeOthers(k, t, Sleep, s[1..]);
        CheckSleepingQueues(Wake(k, t), now, s[1..]);
        OnlyThen(k, Wake(k, t), CheckSleeping(Wake(k, t), now, s[1..]), {Sleep});
      } else {
        CheckSleepingQueues(k, now, s[1..]);
      }
    }
  }

  lemma FromIdleQueues(k: Sched, c: nat)
    requires Core(k) && c in k.cpus && k.cpus[c] == Idle
    ensures FromIdle(k, c).queues == k.queues && OnlyStatuses(k, FromIdle(k, c))
    ensures FromIdle(k, c).locks == k.locks && FromIdle(k, c).barriers == k.barriers
  {
    hide ListsOk, CpusOk, PidsOk, Pick;
    IdleCore(k, c);
    PickShape(k.(cpus := k.cpus - {c}), c);
  }

  lemma RescheduleQueues(k: Sched, c: nat, now: nat)
    requires Core(k) && c in k.cpus && Sleep in k.queues
    ensures OnlyQueues(k, Reschedule(k, c, now), {Sleep}) && OnlyStatuses(k, Reschedule(k, c, now))
    ensures Reschedule(k, c, now).locks == k.locks && Reschedule(k, c, now).barriers == k.barriers
  {
    hide ListsOk, CpusOk, PidsOk, OnlyQueues, OnlyStatuses, NoDup, Switch, FromIdle, CheckSleeping;
    QueueNoDup(k, Sleep);
    var k1 := CheckSleeping(k, now, k.queues[Sleep]);
    CheckSleepingQueues(k, now, k.queues[Sleep]);
    if k1.cpus[c].On? {
      ReadyExists(k1);
      var k2 := Switch(k1, c, Ready);
      SwitchQueues(k1, c, Ready);
      OnlyReady(k1, k2);
      OnlyThen(k, k1, k2, {Sleep});
      OnlyStatusesThen(k, k1, k2);
    } else {
      FromIdleQueues(k1, c);
      OnlySame(k1, FromIdle(k1, c), {Sleep});
      OnlyThen(k, k1, FromIdle(k1, c), {Sleep});
      OnlyStatusesThen(k, k1, FromIdle(k1, c));
    }
  }

  lemma OnlyReady(k: Sched, k': Sched)
    requires OnlyQueues(k, k', {Ready})
    ensures forall qs :: OnlyQueues(k, k', qs)
  {
  }

  /** do_mutex_lock_release hands the mutex to the first waiter. */
  lemma ReleaseLockQueues(k: Sched, m: nat)
    requires Core(k) && m < |k.locks| && Mutex(m) in k.queues
    ensures var k', q := ReleaseLock(k, m), k.queues[Mutex(m)];
            && OnlyQueues(k, k', {Mutex(m)}) && OnlyStatuses(k, k') && k'.barriers == k.barriers
            && Mutex(m) in k'.queues && k'.queues[Mutex(m)] == (if q == [] then [] else q[1..])
            && (q != [] ==> q[0] in k.pcbs)
            && k'.locks == k.locks[m := if q == [] then MutexLock(false, 0) else MutexLock(true, k.pcbs[q[0]].pid)]
  {
    hide ListsOk, CpusOk, PidsOk, OnlyQueues;
    var q := k.queues[Mutex(m)];
    if q == [] {
      OnlySame(k, ReleaseLock(k, m), {Mutex(m)});
    } else {
      Waiting(k, q[0], Mutex(m));
      var k1 := SetLock(k, m, true, k.pcbs[q[0]].pid);
      CoreIgnores(k, k1);
      WakeFirst(k1, Mutex(m));
      OnlySame(k, k1, {Mutex(m)});
      OnlyThen(k, k1, Wake(k1, q[0]), {Mutex(m)});
    }
  }

  ghost function MutexQueues(): set<QueueId> {
    set m: nat | m < LOCK_NUM :: Mutex(m)
  }

  /** What do_mutex_lock_release leaves of a waiting queue. */
  function Tail(s: seq<nat>): seq<nat> {
    if s == [] then [] else s[1..]
  }

  /** release_pcb hands on every mutex of the dead task, once, and touches no other. */
  lemma {:induction false} ReleaseOwnedQueues(k: Sched, pid: nat, m: nat)
    requires Core(k) && m <= |k.locks| <= LOCK_NUM && forall i | 0 <= i < |k.locks| :: Mutex(i) in k.queues
    ensures var k' := ReleaseOwned(k, pid, m);
            && OnlyQueues(k, k', MutexQueues()) && OnlyStatuses(k, k') && k'.barriers == k.barriers
    decreases |k.locks| - m
  {
    hide ListsOk, CpusOk, PidsOk, OnlyQueues, ReleaseLock;
    if m == |k.locks| {
      OnlySame(k, k, MutexQueues());
    } else if k.locks[m].owner == pid {
      ReleaseLockQueues(k, m);
      var k1 := ReleaseLock(k, m);
      OnlyMore(k, k1, {Mutex(m)}, MutexQueues());
      ReleaseOwnedQueues(k1, pid, m + 1);
      OnlyThen(k, k1, ReleaseOwned(k1, pid, m + 1), MutexQueues());
    } else {
      ReleaseOwnedQueues(k, pid, m + 1);
    }
  }

  lemma {:induction false} ReleaseOwnedEach(k: Sched, pid: nat, m: nat, i: nat)
    requires Core(k) && m <= |k.locks| && forall i | 0 <= i < |k.locks| :: Mutex(i) in k.queues
    requires i < |k.locks|
    ensures var k', q := ReleaseOwned(k, pid, m), k.queues[Mutex(i)];
            && Mutex(i) in k'.queues
            && if m <= i && k.locks[i].owner == pid then
                 && k'.queues[Mutex(i)] == Tail(q) && (q != [] ==> q[0] in k.pcbs)
                 && k'.locks[i] == if q == [] then MutexLock(false, 0) else MutexLock(true, k.pcbs[q[0]].pid)
               else k'.queues[Mutex(i)] == q && k'.locks[i] == k.locks[i]
    decreases |k.locks| - m
  {
    hide ListsOk, CpusOk, PidsOk, ReleaseLock;
    if m < |k.locks| {
      if k.locks[m].owner == pid {
        ReleaseLockQueues(k, m);
        ReleaseOwnedEach(ReleaseLock(k, m), pid, m + 1, i);
      } else {
        ReleaseOwnedEach(k, pid, m + 1, i);
      }
    }
  }
}
