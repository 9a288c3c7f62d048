/** The kernel calls of the scheduler as steps of the state machine, and what every step keeps. */
module SchedSteps {
  import opened Seqs
  import opened Lists
  import opened SchedModel

  // ---------------------------------------------------------------- building blocks

  /** The same lists, PCBs, mutexes and barriers exist. */
  ghost predicate SameShape(k: Sched, k': Sched) {
    && k'.queues.Keys == k.queues.Keys && k'.pcbs.Keys == k.pcbs.Keys
    && |k'.locks| == |k.locks| && |k'.barriers| == |k.barriers|
  }

  predicate OnTask(k: Sched, c: nat) {
    c in k.cpus && k.cpus[c].On?
  }

  /** do_block and the second half of do_scheduler: the task of CPU c queues up, another one is picked. */
  function Switch(k: Sched, c: nat, q: QueueId): (k': Sched)
    requires Core(k) && OnTask(k, c) && q in k.queues
    ensures Core(k') && SameShape(k, k') && c in k'.cpus
  {
    hide ListsOk, CpusOk, PidsOk;
    LeaveCore(k, c, q);
    PickCore(Leave(k, c, q), c);
    Pick(Leave(k, c, q), c)
  }

  /** while (!is_queue_empty(q)) do_unblock(q->next) */
  function WakeAll(k: Sched, q: QueueId): (k': Sched)
    requires Core(k) && q in k.queues && q != Ready
    ensures Core(k') && SameShape(k, k') && k'.queues[q] == []
    ensures k'.cpus == k.cpus && k'.nextPid == k.nextPid
    ensures k'.locks == k.locks && k'.barriers == k.barriers
    decreases |k.queues[q]|
  {
    hide ListsOk, CpusOk, PidsOk, Wake;
    if k.queues[q] == [] then k else
    var t := k.queues[q][0];
    Waiting(k, t, q);
    WakeCore(k, t);
    WakeAll(Wake(k, t), q)
  }

  /** check_sleeping over what is left of the sleep queue. */
  function CheckSleeping(k: Sched, now: nat, s: seq<nat>): (k': Sched)
    requires Core(k) && NoDup(s) && forall t | t in s :: Linked(k, t, Sleep)
    ensures Core(k') && SameShape(k, k') && k'.cpus == k.cpus
    decreases |s|
  {
    hide ListsOk, CpusOk, PidsOk;
    if s == [] then k else
    Waiting(k, s[0], Sleep);
    if k.pcbs[s[0]].wakeup <= now then
      WakeCore(k, s[0]);
      WakeOthers(k, s[0], Sleep, s[1..]);
      CheckSleeping(Wake(k, s[0]), now, s[1..])
    else
      CheckSleeping(k, now, s[1..])
  }

  lemma WakeOthers(k: Sched, t: nat, q: QueueId, s: seq<nat>)
    requires Core(k) && t in k.pcbs && t !in s && forall x | x in s :: Linked(k, x, q)
    ensures forall x | x in s :: Linked(Wake(k, t), x, q)
  {
    MoveMembers(k.queues, Ready, t);
  }

  /** An idle CPU looks for a task. */
  function FromIdle(k: Sched, c: nat): (k': Sched)
    requires Core(k) && c in k.cpus && k.cpus[c] == Idle
    ensures Core(k') && SameShape(k, k') && c in k'.cpus
  {
    hide ListsOk, CpusOk, PidsOk, Pick;
    IdleCore(k, c);
    PickCore(k.(cpus := k.cpus - {c}), c);
    Pick(k.(cpus := k.cpus - {c}), c)
  }

  /** do_scheduler */
  function Reschedule(k: Sched, c: nat, now: nat): (k': Sched)
    requires Core(k) && c in k.cpus && Sleep in k.queues
    ensures Core(k') && SameShape(k, k') && c in k'.cpus
  {
    hide CpusOk, PidsOk;
    var k1 := CheckSleeping(k, now, k.queues[Sleep]);
    if k1.cpus[c].On? then ReadyExists(k1); Switch(k1, c, Ready) else FromIdle(k1, c)
  }

  lemma ReadyExists(k: Sched)
    requires Core(k)
    ensures Ready in k.queues
  {
  }

  /** A CPU with nothing to run can be taken out without anyone noticing. */
  lemma IdleCore(k: Sched, c: nat)
    requires Core(k) && c in k.cpus && k.cpus[c] == Idle
    ensures Core(k.(cpus := k.cpus - {c})) && c <= 1 && Ready in k.queues
  {
    var k' := k.(cpus := k.cpus - {c});
    forall x | IsRunning(k'.pcbs, x)
      ensures OnCpu(k', 0, x) || OnCpu(k', 1, x)
    {
      assert OnCpu(k, 0, x) || OnCpu(k, 1, x);
    }
    forall q, t | Linked(k', t, q)
      ensures t in k'.pcbs && (k'.pcbs[t].status == TaskBlocked <==> q != Ready)
    {
      assert Linked(k, t, q);
    }
    forall t | t in k'.pcbs
      ensures exists q :: Linked(k', t, q)
    {
      var q :| Linked(k, t, q);
      assert Linked(k', t, q);
    }
    forall x
      ensures !(OnCpu(k', 0, x) && OnCpu(k', 1, x))
    {
      assert !(OnCpu(k, 0, x) && OnCpu(k, 1, x));
    }
  }

  // ---------------------------------------------------------------- mutexes

  function SetPcb(k: Sched, t: nat, pcb: Pcb): Sched {
    k.(pcbs := k.pcbs[t := pcb])
  }

  function SetLock(k: Sched, m: nat, locked: bool, owner: nat): Sched
    requires m < |k.locks|
  {
    k.(locks := k.locks[m := MutexLock(locked, owner)])
  }

  /** Fields that the core invariant does not mention can change. */
  lemma CoreIgnores(k: Sched, k': Sched)
    requires Core(k) && k'.queues == k.queues && k'.cpus == k.cpus && k'.nextPid == k.nextPid
    requires k'.pcbs.Keys == k.pcbs.Keys
    requires forall t | t in k.pcbs :: k'.pcbs[t].pid == k.pcbs[t].pid && k'.pcbs[t].status == k.pcbs[t].status
    ensures Core(k')
  {
    forall q, t | Linked(k', t, q)
      ensures t in k'.pcbs && (k'.pcbs[t].status == TaskBlocked <==> q != Ready)
    {
      assert Linked(k, t, q);
    }
    forall t | t in k'.pcbs
      ensures exists q :: Linked(k', t, q)
    {
      var q :| Linked(k, t, q);
      assert Linked(k', t, q);
    }
    forall t | IsRunning(k'.pcbs, t)
      ensures OnCpu(k', 0, t) || OnCpu(k', 1, t)
    {
      assert IsRunning(k.pcbs, t);
    }
    forall t
      ensures !(OnCpu(k', 0, t) && OnCpu(k', 1, t))
    {
      assert !(OnCpu(k, 0, t) && OnCpu(k, 1, t));
    }
    forall c | c in k'.cpus && k'.cpus[c].On?
      ensures IsRunning(k'.pcbs, k'.cpus[c].t)
    {
      assert IsRunning(k.pcbs, k.cpus[c].t);
    }
  }

  /** A PCB may change what its task is in the middle of. */
  lemma SetPcbCore(k: Sched, t: nat, pcb: Pcb)
    requires Core(k) && t in k.pcbs && pcb.pid == k.pcbs[t].pid && pcb.status == k.pcbs[t].status
    ensures Core(SetPcb(k, t, pcb)) && SameShape(k, SetPcb(k, t, pcb))
    ensures SetPcb(k, t, pcb).cpus == k.cpus && SetPcb(k, t, pcb).queues == k.queues
  {
    hide ListsOk, CpusOk, PidsOk;
    CoreIgnores(k, SetPcb(k, t, pcb));
  }

  /** do_mutex_lock_acquire by the task of CPU c, which returns to user mode once it owns m. */
  function Acquire(k: Sched, c: nat, m: nat): (k': Sched)
    requires Core(k) && OnTask(k, c) && k.cpus[c].t in k.pcbs && m < |k.locks| && Mutex(m) in k.queues
    ensures Core(k') && SameShape(k, k') && c in k'.cpus
  {
    hide ListsOk, CpusOk, PidsOk, Switch;
    var t := k.cpus[c].t;
    var k1 := SetPcb(k, t, k.pcbs[t].(resume := ToUser, wants := Wants(m)));
    SetPcbCore(k, t, k.pcbs[t].(resume := ToUser, wants := Wants(m)));
    if !k.locks[m].locked then
      CoreIgnores(k, SetLock(k1, m, true, k.pcbs[t].pid));
      SetLock(k1, m, true, k.pcbs[t].pid)
    else Switch(k1, c, Mutex(m))
  }

  /** do_mutex_lock_release: the longest waiting task becomes the owner. */
  function ReleaseLock(k: Sched, m: nat): (k': Sched)
    requires Core(k) && m < |k.locks| && Mutex(m) in k.queues
    ensures Core(k') && SameShape(k, k') && k'.cpus == k.cpus
  {
    hide ListsOk, CpusOk, PidsOk;
    if k.queues[Mutex(m)] == [] then
      CoreIgnores(k, SetLock(k, m, false, 0));
      SetLock(k, m, false, 0)
    else
      var h := k.queues[Mutex(m)][0];
      Waiting(k, h, Mutex(m));
      var k1 := SetLock(k, m, true, k.pcbs[h].pid);
      CoreIgnores(k, k1);
      WakeCore(k1, h);
      Wake(k1, h)
  }

  /** do_condition_wait up to its do_block: release and enqueue are one step. */
  function CondWait(k: Sched, c: nat, cv: nat, m: nat): (k': Sched)
    requires Core(k) && OnTask(k, c) && k.cpus[c].t in k.pcbs
    requires m < |k.locks| && Mutex(m) in k.queues && Condition(cv) in k.queues
    ensures Core(k') && SameShape(k, k') && c in k'.cpus
  {
    hide ListsOk, CpusOk, PidsOk, ReleaseLock, Switch;
    var t := k.cpus[c].t;
    var k1 := ReleaseLock(k, m);
    var pcb := k1.pcbs[t].(resume := Reacquire(m), wants := Wants(m));
    SetPcbCore(k1, t, pcb);
    Switch(SetPcb(k1, t, pcb), c, Condition(cv))
  }

  /** do_condition_signal */
  function Signal(k: Sched, cv: nat): (k': Sched)
    requires Core(k) && Condition(cv) in k.queues
    ensures Core(k') && SameShape(k, k') && k'.cpus == k.cpus
  {
    hide ListsOk, CpusOk, PidsOk;
    var s := k.queues[Condition(cv)];
    if s == [] then k else
    Waiting(k, s[0], Condition(cv));
    WakeCore(k, s[0]);
    Wake(k, s[0])
  }

  /** do_barrier_wait */
  function BarrierWait(k: Sched, c: nat, b: nat): (k': Sched)
    requires Core(k) && OnTask(k, c) && b < |k.barriers| && Barrier(b) in k.queues
    ensures Core(k') && SameShape(k, k') && c in k'.cpus
  {
    hide ListsOk, CpusOk, PidsOk;
    var bar := k.barriers[b];
    if bar.current + 1 < bar.goal then
      var k1 := k.(barriers := k.barriers[b := bar.(current := bar.current + 1)]);
      CoreIgnores(k, k1);
      Switch(k1, c, Barrier(b))
    else
      var k1 := WakeAll(k, Barrier(b));
      var k2 := k1.(barriers := k.barriers[b := bar.(current := 0)]);
      CoreIgnores(k1, k2);
      k2
  }

  /** do_sleep */
  function SleepUntil(k: Sched, c: nat, time: nat): (k': Sched)
    requires Core(k) && OnTask(k, c) && k.cpus[c].t in k.pcbs && Sleep in k.queues
    ensures Core(k') && SameShape(k, k') && c in k'.cpus
  {
    hide ListsOk, CpusOk, PidsOk;
    var t := k.cpus[c].t;
    var k1 := SetPcb(k, t, k.pcbs[t].(wakeup := time));
    CoreIgnores(k, k1);
    Switch(k1, c, Sleep)
  }

  // ---------------------------------------------------------------- life and death

  /** find_unused_pcb: the first free slot, or NUM_MAX_TASK. */
  function FreeSlot(pcbs: map<nat, Pcb>, i: nat): (t: nat)
    requires i <= NUM_MAX_TASK
    ensures i <= t <= NUM_MAX_TASK && (t < NUM_MAX_TASK ==> t !in pcbs)
    ensures forall j | i <= j < t :: j in pcbs
    decreases NUM_MAX_TASK - i
  {
    if i == NUM_MAX_TASK || i !in pcbs then i else FreeSlot(pcbs, i + 1)
  }

  /** Wait lists exist for live tasks only. */
  ghost predicate WaitListsOk(k: Sched) {
    forall t: nat | WaitOf(t) in k.queues :: t in k.pcbs
  }

  /** do_exec, as far as the scheduler sees it; without a free slot nothing happens. */
  function Exec(k: Sched): (k': Sched)
    requires Core(k) && WaitListsOk(k)
    ensures Core(k') && k'.cpus == k.cpus
  {
    hide ListsOk, CpusOk, PidsOk;
    var t := FreeSlot(k.pcbs, 0);
    if t == NUM_MAX_TASK then k else
    CreateCore(k, t);
    Create(k, t)
  }

  /** The loop of release_pcb over the mutexes from m on. */
  function ReleaseOwned(k: Sched, pid: nat, m: nat): (k': Sched)
    requires Core(k) && m <= |k.locks| && forall i | 0 <= i < |k.locks| :: Mutex(i) in k.queues
    ensures Core(k') && SameShape(k, k') && k'.cpus == k.cpus
    decreases |k.locks| - m
  {
    hide Core, ReleaseLock;
    if m == |k.locks| then k else
    ReleaseOwned(if k.locks[m].owner == pid then ReleaseLock(k, m) else k, pid, m + 1)
  }

  /** release_pcb, and the clearing of the slot that follows it in do_exit and do_kill. */
  function Release(k: Sched, t: nat): (k': Sched)
    requires Core(k) && t in k.pcbs && WaitOf(t) in k.queues && forall i | 0 <= i < |k.locks| :: Mutex(i) in k.queues
    ensures Core(k')
    ensures k'.pcbs.Keys == k.pcbs.Keys - {t} && k'.queues.Keys == k.queues.Keys - {WaitOf(t)}
    ensures |k'.locks| == |k.locks| && |k'.barriers| == |k.barriers|
    ensures k'.cpus == Drop(k, t).cpus
  {
    hide Core, Drop, ReleaseOwned, WakeAll, WithoutWaitList;
    DropCore(k, t);
    var k1 := ReleaseOwned(Drop(k, t), k.pcbs[t].pid, 0);
    WithoutWaitList(WakeAll(k1, WaitOf(t)), t)
  }

  /** The empty wait list of a dead task goes with its PCB. */
  function WithoutWaitList(k: Sched, t: nat): (k': Sched)
    requires Core(k) && t !in k.pcbs && WaitOf(t) in k.queues && k.queues[WaitOf(t)] == []
    ensures Core(k') && k'.queues.Keys == k.queues.Keys - {WaitOf(t)} && k'.pcbs == k.pcbs
    ensures k'.locks == k.locks && k'.barriers == k.barriers && k'.cpus == k.cpus
  {
    hide Core;
    RemoveEmpty(k, t);
    k.(queues := k.queues - {WaitOf(t)})
  }

  lemma RemoveEmptyLists(k: Sched, t: nat)
    requires ListsOk(k) && t !in k.pcbs && WaitOf(t) in k.queues && k.queues[WaitOf(t)] == []
    ensures ListsOk(k.(queues := k.queues - {WaitOf(t)}))
  {
    var k' := k.(queues := k.queues - {WaitOf(t)});
    assert Separate(k'.queues);
    hide Separate;
    assert forall q, x :: Linked(k', x, q) <==> Linked(k, x, q);
    forall x | x in k'.pcbs
      ensures exists q :: Linked(k', x, q)
    {
      var q :| Linked(k, x, q);
      assert Linked(k', x, q);
    }
    hide Linked;
  }

  lemma RemoveEmpty(k: Sched, t: nat)
    requires Core(k) && t !in k.pcbs && WaitOf(t) in k.queues && k.queues[WaitOf(t)] == []
    ensures Core(k.(queues := k.queues - {WaitOf(t)}))
  {
    hide ListsOk;
    var k' := k.(queues := k.queues - {WaitOf(t)});
    RemoveEmptyLists(k, t);
    assert forall x :: OnCpu(k', 0, x) == OnCpu(k, 0, x) && OnCpu(k', 1, x) == OnCpu(k, 1, x);
  }
}
