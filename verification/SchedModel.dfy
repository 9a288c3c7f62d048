/**
 The scheduler and the blocking primitives as a state machine: kernel/sched/sched.c,
 kernel/sched/time.c, kernel/smp/smp.c and the mutex, condition and barrier part of
 kernel/locking/lock.c. One step is what a CPU does while it holds the kernel lock.
 */
module SchedModel {
  import opened Lists

  const NUM_MAX_TASK := 16
  const LOCK_NUM := 16
  const CONDITION_NUM := 16
  const BARRIER_NUM := 16

  datatype Status = TaskBlocked | TaskRunning | TaskReady

  /** Where a task goes on when it is switched to: back to user mode, or on in do_condition_wait. */
  datatype Resumption = ToUser | Reacquire(m: nat)

  /** The mutex a task must own when it gets back to user mode: it called acquire, or wait on a condition. */
  datatype Wanted = Nothing | Wants(m: nat)

  datatype Pcb = Pcb(pid: nat, status: Status, wakeup: nat, resume: Resumption, wants: Wanted)

  datatype Cpu = Idle | On(t: nat)

  datatype MutexLock = MutexLock(locked: bool, owner: nat)

  datatype BarrierState = BarrierState(current: nat, goal: nat)

  /** queues holds every list; pcbs the live PCBs by slot; cpus the runnings array (absent: not joined). */
  datatype Sched = Sched(queues: Rings, pcbs: map<nat, Pcb>, cpus: map<nat, Cpu>,
                         locks: seq<MutexLock>, barriers: seq<BarrierState>, nextPid: nat)

  // ---------------------------------------------------------------- primitive moves

  function SetStatus(k: Sched, t: nat, status: Status): Sched
    requires t in k.pcbs
  {
    k.(pcbs := k.pcbs[t := k.pcbs[t].(status := status)])
  }

  /** The task on CPU c goes to the tail of q and leaves the CPU. */
  function Leave(k: Sched, c: nat, q: QueueId): Sched
    requires c in k.cpus && k.cpus[c].On? && k.cpus[c].t in k.pcbs && q in k.queues
  {
    var t := k.cpus[c].t;
    SetStatus(k, t, if q == Ready then TaskReady else TaskBlocked)
    .(queues := Append(Unlink(k.queues, t), q, t), cpus := k.cpus - {c})
  }

  predicate IsRunning(pcbs: map<nat, Pcb>, t: nat) {
    t in pcbs && pcbs[t].status == TaskRunning
  }

  predicate IsReady(pcbs: map<nat, Pcb>, t: nat) {
    t in pcbs && pcbs[t].status == TaskReady
  }

  /** The position of the first task of the queue that is not running on a CPU; |s| if all are. */
  function FirstIdle(s: seq<nat>, pcbs: map<nat, Pcb>): (i: nat)
    ensures i <= |s|
    ensures i < |s| ==> !IsRunning(pcbs, s[i])
    ensures forall j | 0 <= j < i :: IsRunning(pcbs, s[j])
  {
    if s == [] || !IsRunning(pcbs, s[0]) then 0 else 1 + FirstIdle(s[1..], pcbs)
  }

  /** find_idle_task on CPU c. */
  function Pick(k: Sched, c: nat): Sched
    requires Ready in k.queues
  {
    var s := k.queues[Ready];
    var i := FirstIdle(s, k.pcbs);
    if i < |s| && s[i] in k.pcbs then SetStatus(k, s[i], TaskRunning).(cpus := k.cpus[c := On(s[i])])
    else k.(cpus := k.cpus[c := Idle])
  }

  /** do_unblock */
  function Wake(k: Sched, t: nat): Sched
    requires t in k.pcbs && Ready in k.queues
  {
    SetStatus(k, t, TaskReady).(queues := Append(Unlink(k.queues, t), Ready, t))
  }

  /** create_pcb: a fresh PCB in slot t at the tail of the ready queue, with an empty wait list. */
  function Create(k: Sched, t: nat): Sched
    requires Ready in k.queues && WaitOf(t) !in k.queues
  {
    k.(pcbs := k.pcbs[t := Pcb(k.nextPid, TaskReady, 0, ToUser, Nothing)],
       queues := Append(k.queues, Ready, t)[WaitOf(t) := []],
       nextPid := k.nextPid + 1)
  }

  /** The PCB t disappears from its list, from the table and from its CPU. */
  function Drop(k: Sched, t: nat): Sched {
    k.(pcbs := k.pcbs - {t},
       queues := Unlink(k.queues, t),
       cpus := map c | c in k.cpus && k.cpus[c] != On(t) :: k.cpus[c])
  }

  // ---------------------------------------------------------------- the core invariant

  ghost predicate Linked(k: Sched, t: nat, q: QueueId) {
    q in k.queues && t in k.queues[q]
  }

  /** On a list are live tasks only, and a task is blocked exactly when its list is not the ready queue. */
  ghost predicate ListsOk(k: Sched) {
    && Separate(k.queues) && Ready in k.queues
    && (forall q, t | Linked(k, t, q) :: t in k.pcbs && (k.pcbs[t].status == TaskBlocked <==> q != Ready))
    && (forall t | t in k.pcbs :: exists q :: Linked(k, t, q))
    && (forall t | t in k.pcbs :: WaitOf(t) in k.queues)
  }

  /** The tasks on CPUs are exactly the running ones, each on one CPU. */
  ghost predicate CpusOk(k: Sched) {
    && (forall c | c in k.cpus && k.cpus[c].On? :: IsRunning(k.pcbs, k.cpus[c].t))
    && (forall t | IsRunning(k.pcbs, t) :: OnCpu(k, 0, t) || OnCpu(k, 1, t))
    && (forall t :: !(OnCpu(k, 0, t) && OnCpu(k, 1, t)))
    && (forall c | c in k.cpus :: c == 0 || c == 1)
  }

  predicate OnCpu(k: Sched, c: nat, t: nat) {
    c in k.cpus && k.cpus[c] == On(t)
  }

  /** Until CPU 1 joins, a task running on CPU 0 is the head of the ready queue. */
  ghost predicate AloneOk(k: Sched)
    requires Ready in k.queues
  {
    1 !in k.cpus && 0 in k.cpus && k.cpus[0].On? ==> k.queues[Ready] != [] && k.queues[Ready][0] == k.cpus[0].t
  }

  ghost predicate PidsOk(k: Sched) {
    && 0 < k.nextPid
    && (forall t | t in k.pcbs :: 0 < k.pcbs[t].pid < k.nextPid)
    && (forall t, t' | t in k.pcbs && t' in k.pcbs && k.pcbs[t].pid == k.pcbs[t'].pid :: t == t')
  }

  ghost predicate Core(k: Sched) {
    ListsOk(k) && CpusOk(k) && PidsOk(k)
  }

  // ---------------------------------------------------------------- the moves keep it

  /** Moving t to the tail of q changes the list of t and of nobody else. */
  lemma MoveMembers(rings: Rings, q: QueueId, t: nat)
    requires Separate(rings) && q in rings
    ensures var rings' := Append(Unlink(rings, t), q, t);
            && Separate(rings') && rings'.Keys == rings.Keys
            && (forall q', x | q' in rings :: x in rings'[q'] <==> if x == t then q' == q else x in rings[q'])
  {
    UnlinkSeparate(rings, t);
    AppendSeparate(Unlink(rings, t), q, t);
  }

  lemma MoveLinks(k: Sched, q: QueueId, t: nat)
    requires Core(k) && q in k.queues
    ensures var rings' := Append(Unlink(k.queues, t), q, t);
            && rings'.Keys == k.queues.Keys
            && (forall q', x | q' in rings' && x in rings'[q'] :: if x == t then q' == q else Linked(k, x, q'))
  {
    MoveMembers(k.queues, q, t);
  }

  /** A task on any list but the ready queue is live and blocked. */
  lemma Waiting(k: Sched, t: nat, q: QueueId)
    requires Core(k) && Linked(k, t, q) && q != Ready
    ensures t in k.pcbs && k.pcbs[t].status == TaskBlocked && Ready in k.queues && t !in k.queues[Ready]
  {
    assert Separate(k.queues);
  }

  lemma LeaveLists(k: Sched, c: nat, q: QueueId)
    requires Core(k) && c in k.cpus && k.cpus[c].On? && q in k.queues
    ensures ListsOk(Leave(k, c, q))
  {
    hide Separate;
    var t := k.cpus[c].t;
    MoveMembers(k.queues, q, t);
    var k' := Leave(k, c, q);
    MovedLists(k, k', t, q);
  }

  /** The common part: t moved to q with the status that goes with q, everyone else as before. */
  lemma MovedLists(k: Sched, k': Sched, t: nat, q: QueueId)
    requires ListsOk(k) && t in k.pcbs && k'.pcbs.Keys == k.pcbs.Keys && q in k.queues
    requires Separate(k'.queues) && k'.queues.Keys == k.queues.Keys
    requires forall q', x | q' in k.queues :: x in k'.queues[q'] <==> if x == t then q' == q else x in k.queues[q']
    requires forall x | x in k.pcbs && x != t :: k'.pcbs[x].status == k.pcbs[x].status
    requires k'.pcbs[t].status == TaskBlocked <==> q != Ready
    ensures ListsOk(k')
  {
    hide Separate;
    forall x | x in k'.pcbs
      ensures exists q' :: Linked(k', x, q')
    {
      if x == t {
        assert Linked(k', x, q);
      } else {
        var q' :| Linked(k, x, q');
        assert Linked(k', x, q');
      }
    }
    forall q', x | Linked(k', x, q')
      ensures x in k'.pcbs && (k'.pcbs[x].status == TaskBlocked <==> q' != Ready)
    {
      assert x != t ==> Linked(k, x, q');
    }
  }

  lemma PidsSame(k: Sched, k': Sched)
    requires PidsOk(k) && k'.nextPid == k.nextPid
    requires forall t | t in k'.pcbs :: t in k.pcbs && k'.pcbs[t].pid == k.pcbs[t].pid
    ensures PidsOk(k')
  {
  }

  lemma LeaveCpus(k: Sched, c: nat, q: QueueId)
    requires CpusOk(k) && c in k.cpus && k.cpus[c].On? && q in k.queues
    ensures CpusOk(Leave(k, c, q))
  {
    var t := k.cpus[c].t;
    assert OnCpu(k, c, t);
    var k' := Leave(k, c, q);
    forall x | IsRunning(k'.pcbs, x)
      ensures OnCpu(k', 0, x) || OnCpu(k', 1, x)
    {
      assert IsRunning(k.pcbs, x);
    }
    forall x
      ensures !(OnCpu(k', 0, x) && OnCpu(k', 1, x))
    {
      assert !(OnCpu(k, 0, x) && OnCpu(k, 1, x));
    }
    forall c' | c' in k'.cpus && k'.cpus[c'].On?
      ensures IsRunning(k'.pcbs, k'.cpus[c'].t)
    {
      assert IsRunning(k.pcbs, k.cpus[c'].t);
      assert OnCpu(k, c', k.cpus[c'].t);
    }
  }

  lemma LeaveCore(k: Sched, c: nat, q: QueueId)
    requires Core(k) && c in k.cpus && k.cpus[c].On? && q in k.queues
    ensures k.cpus[c].t in k.pcbs && c <= 1 && c !in Leave(k, c, q).cpus && Core(Leave(k, c, q))
  {
    hide ListsOk, PidsOk;
    LeaveLists(k, c, q);
    LeaveCpus(k, c, q);
    PidsSame(k, Leave(k, c, q));
  }

  lemma PickLists(k: Sched, c: nat)
    requires Core(k)
    ensures ListsOk(Pick(k, c))
  {
    hide Separate;
    var s := k.queues[Ready];
    var i := FirstIdle(s, k.pcbs);
    if i < |s| {
      assert Linked(k, s[i], Ready);
    }
    var k' := Pick(k, c);
    forall x | x in k'.pcbs
      ensures exists q :: Linked(k', x, q)
    {
      var q :| Linked(k, x, q);
      assert Linked(k', x, q);
    }
    forall q, x | Linked(k', x, q)
      ensures x in k'.pcbs && (k'.pcbs[x].status == TaskBlocked <==> q != Ready)
    {
      assert Linked(k, x, q);
    }
  }

  lemma PickCpus(k: Sched, c: nat)
    requires CpusOk(k) && c !in k.cpus && c <= 1 && Ready in k.queues
    ensures CpusOk(Pick(k, c))
  {
    var k' := Pick(k, c);
    forall x | IsRunning(k'.pcbs, x)
      ensures OnCpu(k', 0, x) || OnCpu(k', 1, x)
    {
      if IsRunning(k.pcbs, x) {
        assert OnCpu(k, 0, x) || OnCpu(k, 1, x);
      } else {
        assert OnCpu(k', c, x);
      }
    }
    forall x
      ensures !(OnCpu(k', 0, x) && OnCpu(k', 1, x))
    {
      assert OnCpu(k, 1 - c, x) ==> IsRunning(k.pcbs, x);
    }
  }

  lemma PickShape(k: Sched, c: nat)
    requires Ready in k.queues
    ensures c in Pick(k, c).cpus && Pick(k, c).nextPid == k.nextPid
    ensures Pick(k, c).queues == k.queues && Pick(k, c).pcbs.Keys == k.pcbs.Keys
    ensures Pick(k, c).locks == k.locks && Pick(k, c).barriers == k.barriers
    ensures forall t | t in k.pcbs :: Pick(k, c).pcbs[t] == k.pcbs[t].(status := Pick(k, c).pcbs[t].status)
  {
  }

  lemma PickCore(k: Sched, c: nat)
    requires Core(k) && c !in k.cpus && c <= 1
    ensures Ready in k.queues && Core(Pick(k, c)) && c in Pick(k, c).cpus
    ensures Pick(k, c).queues == k.queues && Pick(k, c).pcbs.Keys == k.pcbs.Keys
    ensures Pick(k, c).locks == k.locks && Pick(k, c).barriers == k.barriers
  {
    assert Ready in k.queues;
    hide ListsOk, CpusOk, PidsOk, Pick;
    PickShape(k, c);
    PickLists(k, c);
    PickCpus(k, c);
    PidsSame(k, Pick(k, c));
  }

  lemma WakeLists(k: Sched, t: nat)
    requires ListsOk(k) && t in k.pcbs && k.pcbs[t].status == TaskBlocked
    ensures ListsOk(Wake(k, t))
  {
    hide Separate;
    MoveMembers(k.queues, Ready, t);
    MovedLists(k, Wake(k, t), t, Ready);
  }

  lemma WakeShape(k: Sched, t: nat)
    requires t in k.pcbs && Ready in k.queues && !Linked(k, t, Ready)
    ensures Wake(k, t).queues.Keys == k.queues.Keys && Wake(k, t).pcbs.Keys == k.pcbs.Keys
    ensures Wake(k, t).cpus == k.cpus && Wake(k, t).nextPid == k.nextPid
    ensures Wake(k, t).locks == k.locks && Wake(k, t).barriers == k.barriers
    ensures forall q | Linked(k, t, q) :: |Wake(k, t).queues[q]| < |k.queues[q]|
  {
  }

  lemma WakeCore(k: Sched, t: nat)
    requires Core(k) && t in k.pcbs && k.pcbs[t].status == TaskBlocked
    ensures Ready in k.queues && Core(Wake(k, t))
    ensures Wake(k, t).queues.Keys == k.queues.Keys && Wake(k, t).pcbs.Keys == k.pcbs.Keys
    ensures Wake(k, t).cpus == k.cpus && Wake(k, t).nextPid == k.nextPid
    ensures Wake(k, t).locks == k.locks && Wake(k, t).barriers == k.barriers
    ensures forall q | Linked(k, t, q) :: |Wake(k, t).queues[q]| < |k.queues[q]|
  {
    assert Ready in k.queues && !Linked(k, t, Ready);
    hide ListsOk, CpusOk, PidsOk, Wake;
    WakeShape(k, t);
    WakeLists(k, t);
    WakeCpus(k, t);
  }

  lemma WakeCpus(k: Sched, t: nat)
    requires CpusOk(k) && PidsOk(k) && t in k.pcbs && k.pcbs[t].status == TaskBlocked && Ready in k.queues
    ensures CpusOk(Wake(k, t)) && PidsOk(Wake(k, t))
  {
    var k' := Wake(k, t);
    forall x | IsRunning(k'.pcbs, x)
      ensures OnCpu(k', 0, x) || OnCpu(k', 1, x)
    {
      assert IsRunning(k.pcbs, x);
    }
    assert forall x :: OnCpu(k', 0, x) == OnCpu(k, 0, x) && OnCpu(k', 1, x) == OnCpu(k, 1, x);
  }

  lemma CreateLinks(k: Sched, t: nat)
    requires ListsOk(k) && t !in k.pcbs && WaitOf(t) !in k.queues
    ensures Separate(Create(k, t).queues)
    ensures forall q, x :: Linked(Create(k, t), x, q) <==> Linked(k, x, q) || (x == t && q == Ready)
  {
    forall q | q in k.queues
      ensures t !in k.queues[q]
    {
      assert t in k.queues[q] ==> Linked(k, t, q);
    }
    AppendSeparate(k.queues, Ready, t);
  }

  /** Lists that hold who they should, of PCBs with the statuses they should have. */
  lemma ListsFrom(k: Sched, k': Sched, t: nat)
    requires ListsOk(k) && Separate(k'.queues) && k'.queues.Keys == k.queues.Keys + {WaitOf(t)}
    requires k'.pcbs.Keys == k.pcbs.Keys + {t} && t !in k.pcbs && k'.pcbs[t].status == TaskReady
    requires forall x | x in k.pcbs :: k'.pcbs[x] == k.pcbs[x]
    requires forall q, x :: Linked(k', x, q) <==> Linked(k, x, q) || (x == t && q == Ready)
    ensures ListsOk(k')
  {
    hide Separate;
    forall x | x in k'.pcbs
      ensures exists q :: Linked(k', x, q)
    {
      if x == t {
        assert Linked(k', x, Ready);
      } else {
        var q :| Linked(k, x, q);
        assert Linked(k', x, q);
      }
    }
    hide Linked;
  }

  lemma CreateLists(k: Sched, t: nat)
    requires ListsOk(k) && t !in k.pcbs && WaitOf(t) !in k.queues
    ensures ListsOk(Create(k, t))
  {
    CreateLinks(k, t);
    assert Ready in k.queues;
    hide ListsOk, Separate, Linked;
    ListsFrom(k, Create(k, t), t);
  }

  lemma CreateCpus(k: Sched, t: nat)
    requires CpusOk(k) && t !in k.pcbs && WaitOf(t) !in k.queues && Ready in k.queues
    ensures CpusOk(Create(k, t))
  {
    var k' := Create(k, t);
    forall x | IsRunning(k'.pcbs, x)
      ensures OnCpu(k', 0, x) || OnCpu(k', 1, x)
    {
      assert IsRunning(k.pcbs, x);
    }
    forall x
      ensures !(OnCpu(k', 0, x) && OnCpu(k', 1, x))
    {
      assert !(OnCpu(k, 0, x) && OnCpu(k, 1, x));
    }
    forall c | c in k'.cpus && k'.cpus[c].On?
      ensures IsRunning(k'.pcbs, k'.cpus[c].t)
    {
      assert IsRunning(k.pcbs, k.cpus[c].t);
    }
  }

  lemma CreateCore(k: Sched, t: nat)
    requires Core(k) && t !in k.pcbs && WaitOf(t) !in k.queues
    ensures Ready in k.queues && Core(Create(k, t))
  {
    assert Ready in k.queues;
    hide ListsOk, CpusOk;
    CreateLists(k, t);
    CreateCpus(k, t);
  }

  lemma DropLists(k: Sched, t: nat)
    requires ListsOk(k)
    ensures ListsOk(Drop(k, t))
  {
    UnlinkSeparate(k.queues, t);
    hide Separate, Unlinked;
    var k' := Drop(k, t);
    DropLinks(k, t);
    hide Unlink;
    forall x | x in k'.pcbs
      ensures exists q :: Linked(k', x, q)
    {
      var q :| Linked(k, x, q);
      assert Linked(k', x, q);
    }
    hide Linked;
  }

  lemma DropLinks(k: Sched, t: nat)
    requires Separate(k.queues)
    ensures forall q, x :: Linked(Drop(k, t), x, q) <==> Linked(k, x, q) && x != t
    ensures Drop(k, t).queues.Keys == k.queues.Keys
  {
    UnlinkSeparate(k.queues, t);
    hide Separate, Unlinked;
  }

  lemma DropCpus(k: Sched, t: nat)
    requires CpusOk(k)
    ensures CpusOk(Drop(k, t))
  {
    var k' := Drop(k, t);
    forall x | IsRunning(k'.pcbs, x)
      ensures OnCpu(k', 0, x) || OnCpu(k', 1, x)
    {
      assert IsRunning(k.pcbs, x);
    }
    forall x
      ensures !(OnCpu(k', 0, x) && OnCpu(k', 1, x))
    {
      assert !(OnCpu(k, 0, x) && OnCpu(k, 1, x));
    }
    forall c | c in k'.cpus && k'.cpus[c].On?
      ensures IsRunning(k'.pcbs, k'.cpus[c].t)
    {
      assert IsRunning(k.pcbs, k.cpus[c].t);
    }
  }

  lemma DropCore(k: Sched, t: nat)
    requires Core(k)
    ensures Core(Drop(k, t))
    ensures Drop(k, t).queues.Keys == k.queues.Keys && Drop(k, t).pcbs.Keys == k.pcbs.Keys - {t}
    ensures Drop(k, t).locks == k.locks && Drop(k, t).barriers == k.barriers
  {
    hide ListsOk, CpusOk, PidsOk;
    DropLists(k, t);
    DropCpus(k, t);
    PidsSame(k, Drop(k, t));
  }

}
