/** The promises of the scheduler and the locks, over every run from boot. */
module SchedTheorems {
  import opened Seqs
  import opened Arithmetic
  import opened Lists
  import opened SchedModel
  import opened SchedSteps
  import opened LockInvariant
  import opened RoundRobin
  import opened QueueEffects
  import opened SchedRuns
  import opened SchedQueues
  import opened SchedProperties
  import opened LockTheorems

  // ---------------------------------------------------------------- from boot

  ghost function Heads(): set<QueueId> {
    {Ready, Sleep, WaitOf(0)}
    + (set m: nat | m < LOCK_NUM :: Mutex(m))
    + (set cv: nat | cv < CONDITION_NUM :: Condition(cv))
    + (set b: nat | b < BARRIER_NUM :: Barrier(b))
  }

  ghost function BootRings(): Rings {
    map q | q in Heads() :: if q == Ready then [0] else []
  }

  /** init_pcb, init_locks, init_barriers and init_conditions: the shell runs on CPU 0. */
  ghost function Boot(): Sched {
    Sched(BootRings(),
          map[0 := Pcb(1, TaskRunning, 0, ToUser, Nothing)],
          map[0 := On(0)],
          seq(LOCK_NUM, _ => MutexLock(false, 0)),
          seq(BARRIER_NUM, _ => BarrierState(0, 0)), 2)
  }

  lemma BootLists()
    ensures ListsOk(Boot()) && CpusOk(Boot()) && PidsOk(Boot())
  {
    var k := Boot();
    assert Linked(k, 0, Ready);
    assert forall q, t | Linked(k, t, q) :: q == Ready && t == 0;
    assert OnCpu(k, 0, 0);
  }

  lemma BootLocks()
    ensures LocksOk(Boot(), 0)
  {
    var k := Boot();
    assert forall q, t | Linked(k, t, q) :: q == Ready && t == 0;
    assert forall m: nat | m < |k.locks| :: Mutex(m) in Heads();
  }

  lemma BootInv()
    ensures Inv(Boot())
  {
    BootLists();
    BootLocks();
    hide ListsOk, CpusOk, PidsOk, LocksOk, Fixed;
    BootFixed();
  }

  lemma HeadMembers()
    ensures forall m: nat :: Mutex(m) in Heads() <==> m < LOCK_NUM
    ensures forall cv: nat :: Condition(cv) in Heads() <==> cv < CONDITION_NUM
    ensures forall b: nat | b < BARRIER_NUM :: Barrier(b) in Heads()
    ensures Sleep in Heads() && forall t: nat :: WaitOf(t) in Heads() <==> t == 0
  {
  }

  lemma BootFixed()
    ensures Fixed(Boot())
  {
    HeadMembers();
    hide Heads;
  }

  ghost predicate Reachable(k: Sched) {
    Inv(Boot()) && exists es :: CanRun(Boot(), es) && k == After(Boot(), es)
  }

  lemma ReachableInv(k: Sched)
    requires Reachable(k)
    ensures Inv(k)
  {
  }

  lemma BootReachable()
    ensures Reachable(Boot())
  {
    BootInv();
    hide Inv;
    assert CanRun(Boot(), []) && After(Boot(), []) == Boot();
  }

  lemma BootCreate()
    ensures Ready in Boot().queues && WaitOf(1) !in Boot().queues && InUser(Boot(), 0) && FreeSlot(Boot().pcbs, 0) == 1
    ensures var k := Create(Boot(), 1); CanJoin(k) && k.queues[Ready][1] == 1 && OnCpu(k, 0, 0)
  {
    HeadMembers();
    assert Ready in Heads();
    hide Heads;
    assert FreeSlot(Boot().pcbs, 0) == FreeSlot(Boot().pcbs, 1);
  }

  lemma ExecIs(k: Sched, c: nat)
    requires Inv(k) && InUser(k, c) && FreeSlot(k.pcbs, 0) == 1 && Ready in k.queues && WaitOf(1) !in k.queues
    ensures Enabled(k, ExecCall(c, true)) && Next(k, ExecCall(c, true)) == Create(k, 1)
  {
    hide ListsOk, CpusOk, PidsOk, LocksOk, AloneOk;
  }

  /** The shell starts a second task, which CPU 1 then takes: both CPUs run. */
  lemma TwoCpusRun()
    ensures Inv(Boot()) && CanRun(Boot(), [ExecCall(0, true), Join])
    ensures var k := After(Boot(), [ExecCall(0, true), Join]); OnCpu(k, 0, 0) && OnCpu(k, 1, 1)
  {
    hide Inv, Boot, Create, InUser, FreeSlot;
    BootInv();
    BootCreate();
    ExecIs(Boot(), 0);
    NextInv(Boot(), ExecCall(0, true));
    JoinRun(Boot(), Create(Boot(), 1));
  }

  lemma JoinIs(k: Sched)
    requires Inv(k) && CanJoin(k)
    ensures Enabled(k, Join) && Next(k, Join) == JoinSecond(k)
  {
    hide Inv;
  }

  lemma JoinRun(k0: Sched, k1: Sched)
    requires Inv(k0) && Inv(k1) && Enabled(k0, ExecCall(0, true)) && k1 == Next(k0, ExecCall(0, true)) && CanJoin(k1)
    ensures CanRun(k0, [ExecCall(0, true), Join]) && After(k0, [ExecCall(0, true), Join]) == JoinSecond(k1)
  {
    hide Inv, Next, Enabled, JoinSecond;
    JoinIs(k1);
    NextInv(k1, Join);
    FirstEvent(k1, Join, []);
    FirstEvent(k0, ExecCall(0, true), [Join]);
    assert [Join] + [] == [Join] && [ExecCall(0, true)] + [Join] == [ExecCall(0, true), Join];
  }

  /** A run is its first event and then the run from there. */
  lemma FirstEvent(k: Sched, e: Event, es: seq<Event>)
    requires Inv(k) && Enabled(k, e) && Inv(Next(k, e)) && CanRun(Next(k, e), es)
    ensures CanRun(k, [e] + es) && After(k, [e] + es) == After(Next(k, e), es)
  {
    hide Inv, Next, Enabled;
    assert ([e] + es)[1..] == es;
  }

  /** A live task is linked in exactly one list, and is BLOCKED exactly when that is not the ready queue. */
  lemma OneList(k: Sched, t: nat) returns (q: QueueId)
    requires Reachable(k) && t in k.pcbs
    ensures Linked(k, t, q) && NoDup(k.queues[q]) && forall q' | Linked(k, t, q') :: q' == q
    ensures k.pcbs[t].status == TaskBlocked <==> q != Ready
  {
    hide CanRun, After, Boot;
    ReachableInv(k);
    hide CpusOk, PidsOk, LocksOk, Fixed, AloneOk, Reachable;
    q :| Linked(k, t, q);
    assert Separate(k.queues);
  }

  /** The tasks marked RUNNING are those on the CPUs, and no task is on both. */
  lemma CpuExclusive(k: Sched, t: nat)
    requires Reachable(k)
    ensures IsRunning(k.pcbs, t) <==> OnCpu(k, 0, t) || OnCpu(k, 1, t)
    ensures !(OnCpu(k, 0, t) && OnCpu(k, 1, t))
  {
    hide CanRun, After, Boot;
    ReachableInv(k);
    hide ListsOk, PidsOk, LocksOk, Fixed, AloneOk, Reachable;
  }

  /** An unlocked mutex has owner 0 and nobody waiting; a locked one belongs to exactly one live task. */
  lemma MutexSafe(k: Sched, m: nat)
    requires Reachable(k) && m < LOCK_NUM
    ensures m < |k.locks| && Mutex(m) in k.queues
    ensures !k.locks[m].locked ==> k.locks[m].owner == 0 && k.queues[Mutex(m)] == []
    ensures k.locks[m].locked ==> exists t :: t in k.pcbs && k.pcbs[t].pid == k.locks[m].owner
                                             && forall t' | t' in k.pcbs && k.pcbs[t'].pid == k.locks[m].owner :: t' == t
  {
    hide CanRun, After, Boot;
    ReachableInv(k);
    hide ListsOk, CpusOk, AloneOk, Reachable;
    assert LockOk(k, m, 0);
  }

  // ---------------------------------------------------------------- bounded waiting

  /** How often the event calls find_idle_task. */
  function Picks(k: Sched, e: Event): nat
    requires Enabled(k, e) && |k.locks| == LOCK_NUM && |k.barriers| == BARRIER_NUM
  {
    match e
    case Timer(_, _) => 1
    case SleepCall(_, _, _) => 1
    case AcquireCall(_, m) => if k.locks[m].locked then 1 else 0
    case WaitCall(_, _, _) => 1
    case BarrierCall(_, b) => if Completes(k, e, b) then 0 else 1
    case Resume(c) =>
      var m := k.pcbs[k.cpus[c].t].resume.m;
      if m < LOCK_NUM && k.locks[m].locked then 1 else 0
    case WaitPidCall(_, pid) => if FindPid(k.pcbs, pid, 0) < NUM_MAX_TASK then 1 else 0
    case ExitCall(_) => 1
    case _ => 0
  }

  lemma ExitEvolves(k: Sched, c: nat)
    requires Inv(k) && InUser(k, c)
    ensures Evolves(k, Exit(k, c), 1)
  {
    InvParts(k);
    var t := k.cpus[c].t;
    WaitListExists(k, t);
    ReleasedCpu(k, c);
    hide ListsOk, CpusOk, PidsOk, LocksOk, AloneOk, Fixed, Inv, Release, Pick, Evolves;
    ReleaseEvolves(k, t);
    PickCore(Release(k, t), c);
    PickEvolves(Release(k, t), c);
    EvolvesThen(k, Release(k, t), Exit(k, c), 1);
  }

  lemma JoinRank(k: Sched, t: nat)
    requires Inv(k) && CanJoin(k) && IsReady(JoinSecond(k).pcbs, t)
    ensures IsReady(k.pcbs, t) && Rank(JoinSecond(k), t) <= Rank(k, t)
  {
    hide Inv;
    RankFewer(k.queues[Ready], k.pcbs, JoinSecond(k).pcbs, t);
  }

  lemma ExecEvolves(k: Sched)
    requires Core(k) && WaitListsOk(k)
    ensures Evolves(k, Exec(k), 0)
  {
    hide CpusOk, PidsOk, Evolves;
    var t := FreeSlot(k.pcbs, 0);
    if t == NUM_MAX_TASK {
      EvolvesSame(k, k);
    } else {
      CreateEvolves(k, t);
    }
  }

  lemma EventEvolves(k: Sched, e: Event)
    requires Inv(k) && Enabled(k, e) && !e.Join?
    ensures |k.locks| == LOCK_NUM && |k.barriers| == BARRIER_NUM && Evolves(k, Next(k, e), Picks(k, e))
  {
    hide ListsOk, CpusOk, PidsOk, LocksOk, AloneOk, Fixed, Inv, Reschedule, SleepUntil, Acquire, ReleaseLock, CondWait,
      Signal, WakeAll, BarrierWait, Exec, Switch, Exit, Release, Evolves;
    InvParts(k);
    match e
    case Timer(c, now) => RescheduleEvolves(k, c, now);
    case SleepCall(c, now, ticks) => SleepUntilEvolves(k, c, now + ticks);
    case AcquireCall(c, m) => AcquireEvolves(k, c, m);
    case ReleaseCall(c, m) => ReleaseLockEvolves(k, m);
    case WaitCall(c, cv, m) => CondWaitEvolves(k, c, cv, m);
    case SignalCall(c, cv) => SignalEvolves(k, cv);
    case BroadcastCall(c, cv) => WakeAllEvolves(k, Condition(cv));
    case BarrierInit(c, b, goal) => EvolvesSame(k, Next(k, e));
    case BarrierCall(c, b) => BarrierWaitEvolves(k, c, b);
    case Resume(c) => ResumeInBounds(k, k.cpus[c].t); AcquireEvolves(k, c, k.pcbs[k.cpus[c].t].resume.m);
    case Return(c) => EvolvesSame(k, Next(k, e));
    case ExecCall(c, known) => if known { ExecEvolves(k); } else { EvolvesSame(k, k); }
    case WaitPidCall(c, pid) =>
      var t := FindPid(k.pcbs, pid, 0);
      if t < NUM_MAX_TASK { WaitListExists(k, t); SwitchEvolves(k, c, WaitOf(t)); } else { EvolvesSame(k, k); }
    case ExitCall(c) => ExitEvolves(k, c);
    case KillCall(c, pid) =>
      var t := FindPid(k.pcbs, pid, 0);
      if t < NUM_MAX_TASK { WaitListExists(k, t); ReleaseEvolves(k, t); } else { EvolvesSame(k, k); }
  }

  /** No event puts more ready tasks before t, and every pick that passes t over takes one away. */
  lemma EventRank(k: Sched, e: Event, t: nat)
    requires Inv(k) && Enabled(k, e) && IsReady(k.pcbs, t)
    ensures Ready in k.queues && |k.locks| == LOCK_NUM && |k.barriers| == BARRIER_NUM && Ready in Next(k, e).queues
    ensures IsReady(Next(k, e).pcbs, t) ==> Rank(Next(k, e), t) + Picks(k, e) <= Rank(k, t)
  {
    hide Inv, Next, Picks, Core, Fixed, LocksOk, AloneOk, Rank, Enabled;
    InvParts(k);
    NextInv(k, e);
    InvParts(Next(k, e));
    if e.Join? {
      JoinPicks(k);
      JoinIs(k);
      if IsReady(JoinSecond(k).pcbs, t) {
        JoinRank(k, t);
      }
    } else {
      EventEvolves(k, e);
    }
  }

  lemma JoinPicks(k: Sched)
    requires Enabled(k, Join) && |k.locks| == LOCK_NUM && |k.barriers| == BARRIER_NUM
    ensures CanJoin(k) && Picks(k, Join) == 0
  {
  }

  ghost function TotalPicks(k: Sched, es: seq<Event>): nat
    requires Inv(k) && CanRun(k, es)
    decreases |es|
  {
    hide Inv, Next;
    if es == [] then 0 else
    NextInv(k, es[0]);
    InvParts(k);
    Picks(k, es[0]) + TotalPicks(Next(k, es[0]), es[1..])
  }

  /** t is ready, and passed over, in every state of the run. */
  ghost predicate KeepsWaiting(k: Sched, es: seq<Event>, t: nat)
    requires Inv(k) && CanRun(k, es)
    decreases |es|
  {
    hide Inv, Next;
    IsReady(k.pcbs, t) && (es == [] || (NextInv(k, es[0]); KeepsWaiting(Next(k, es[0]), es[1..], t)))
  }

  /** Bounded waiting: a ready task is passed over at most as often as ready tasks stood before it. */
  lemma {:induction false} BoundedWaiting(k: Sched, es: seq<Event>, t: nat)
    requires Inv(k) && CanRun(k, es) && KeepsWaiting(k, es, t)
    ensures Ready in k.queues && Ready in After(k, es).queues
    ensures TotalPicks(k, es) + Rank(After(k, es), t) <= Rank(k, t)
    decreases |es|
  {
    hide Inv, Next, Rank, Picks, Enabled;
    InvParts(k);
    InvParts(After(k, es));
    if es != [] {
      NextInv(k, es[0]);
      EventRank(k, es[0], t);
      BoundedWaiting(Next(k, es[0]), es[1..], t);
    }
  }

  /** A ready task stays ready until it runs or is killed. */
  lemma ReadyUntilRunning(k: Sched, e: Event, t: nat)
    requires Inv(k) && Enabled(k, e) && IsReady(k.pcbs, t)
    ensures IsReady(Next(k, e).pcbs, t) || IsRunning(Next(k, e).pcbs, t) || (t !in Next(k, e).pcbs && e.KillCall?)
  {
    hide Inv, Next, Picks, Enabled;
    Survivors(k, e, t);
    InvParts(k);
    ReadyDoesNotCall(k, e, t);
    if e.Join? {
      JoinKeeps(k, t);
    } else {
      EventEvolves(k, e);
    }
  }

  lemma ReadyDoesNotCall(k: Sched, e: Event, t: nat)
    requires Core(k) && IsReady(k.pcbs, t)
    ensures !Calls(k, e, t)
  {
  }

  lemma JoinKeeps(k: Sched, t: nat)
    requires Inv(k) && Enabled(k, Join) && IsReady(k.pcbs, t)
    ensures IsReady(Next(k, Join).pcbs, t) || IsRunning(Next(k, Join).pcbs, t)
  {
    hide Inv;
  }

  /**
   Bounded waiting, to the end: once the picks outnumber the ready tasks that stood before t, there is a
   point of the run, before which t was only waiting, at which t runs or has just been killed.
   */
  lemma {:induction false} RunsSoon(k: Sched, es: seq<Event>, t: nat) returns (i: nat)
    requires Inv(k) && CanRun(k, es) && IsReady(k.pcbs, t) && Ready in k.queues && TotalPicks(k, es) > Rank(k, t)
    ensures 0 < i <= |es| && CanRun(k, es[..i - 1]) && KeepsWaiting(k, es[..i - 1], t) && CanRun(k, es[..i])
    ensures var k' := After(k, es[..i]); IsRunning(k'.pcbs, t) || (t !in k'.pcbs && es[i - 1].KillCall?)
    decreases |es|
  {
    hide Inv, Next, Rank, Picks, Enabled;
    var k1 := Next(k, es[0]);
    NextInv(k, es[0]);
    InvParts(k1);
    EventRank(k, es[0], t);
    if IsReady(k1.pcbs, t) {
      var j := RunsSoon(k1, es[1..], t);
      i := j + 1;
      FirstEvent(k, es[0], es[1..][..j]);
      FirstWaits(k, es[0], es[1..][..j - 1], t);
      assert es[..i] == [es[0]] + es[1..][..j] && es[..i - 1] == [es[0]] + es[1..][..j - 1];
    } else {
      ReadyUntilRunning(k, es[0], t);
      i := 1;
      FirstEvent(k, es[0], []);
      assert es[..1] == [es[0]] + [] && es[..0] == [];
    }
  }

  lemma FirstWaits(k: Sched, e: Event, es: seq<Event>, t: nat)
    requires Inv(k) && Enabled(k, e) && Inv(Next(k, e)) && CanRun(Next(k, e), es)
    requires IsReady(k.pcbs, t) && KeepsWaiting(Next(k, e), es, t)
    ensures CanRun(k, [e] + es) && KeepsWaiting(k, [e] + es, t)
  {
    hide Inv, Next, Enabled;
    assert ([e] + es)[1..] == es;
  }

  // ---------------------------------------------------------------- barriers

  function Arrival(k: Sched, e: Event, b: nat): seq<nat>
    requires Enabled(k, e)
  {
    if e.BarrierCall? && e.b == b then [k.cpus[e.c].t] else []
  }

  /** The tasks that arrive at the barrier b during the run, in order. */
  ghost function Arrivals(k: Sched, es: seq<Event>, b: nat): seq<nat>
    requires Inv(k) && CanRun(k, es)
    decreases |es|
  {
    hide Inv, Next;
    if es == [] then [] else
    NextInv(k, es[0]);
    Arrival(k, es[0], b) + Arrivals(Next(k, es[0]), es[1..], b)
  }

  function RoundSize(bar: BarrierState): nat {
    if bar.goal == 0 then 1 else bar.goal
  }

  /** After the arrivals h, exactly those of the unfinished round are waiting. */
  ghost predicate RoundOk(k: Sched, b: nat, h: seq<nat>) {
    && b < |k.barriers| && Barrier(b) in k.queues
    && var n := |h| % RoundSize(k.barriers[b]);
       k.barriers[b].current == n && k.queues[Barrier(b)] == h[|h| - n..]
  }

  ghost predicate NoBarrierInit(es: seq<Event>, b: nat) {
    forall e | e in es :: !(e.BarrierInit? && e.b == b)
  }

  lemma ArrivalQueue(k: Sched, c: nat, b: nat)
    requires Inv(k) && Enabled(k, BarrierCall(c, b)) && Tracked(Barrier(b)) && FifoStep(k, BarrierCall(c, b), Barrier(b))
    ensures var s := k.queues[Barrier(b)];
            && Next(k, BarrierCall(c, b)).queues[Barrier(b)] ==
               if Completes(k, BarrierCall(c, b), b) then [] else s + [k.cpus[c].t]
  {
    hide Inv, Next;
  }

  /** One more arrival in a round of g. */
  lemma RoundGrows(h: seq<nat>, t: nat, g: nat)
    requires g > 0
    ensures var n, n', h' := |h| % g, (|h| + 1) % g, h + [t];
            if n + 1 < g then n' == n + 1 && h'[|h'| - n'..] == h[|h| - n..] + [t]
            else n' == 0 && h'[|h'| - n'..] == []
  {
    NextMod(|h|, g);
  }

  lemma ArrivalRound(k: Sched, c: nat, b: nat, h: seq<nat>)
    requires Inv(k) && Enabled(k, BarrierCall(c, b)) && RoundOk(k, b, h)
    ensures RoundOk(Next(k, BarrierCall(c, b)), b, h + [k.cpus[c].t])
    ensures Next(k, BarrierCall(c, b)).barriers[b].goal == k.barriers[b].goal
  {
    hide Inv, Next, FifoStep;
    BarrierStep(k, c, b);
    ArrivalQueue(k, c, b);
    NextExists(k, c, b);
    RoundGrows(h, k.cpus[c].t, RoundSize(k.barriers[b]));
  }

  lemma NextExists(k: Sched, c: nat, b: nat)
    requires Inv(k) && Enabled(k, BarrierCall(c, b)) && Tracked(Barrier(b)) && FifoStep(k, BarrierCall(c, b), Barrier(b))
    ensures Barrier(b) in k.queues && Barrier(b) in Next(k, BarrierCall(c, b)).queues
  {
    hide Inv, Next;
  }

  lemma OtherRound(k: Sched, e: Event, b: nat, h: seq<nat>)
    requires Inv(k) && Enabled(k, e) && !e.KillCall? && RoundOk(k, b, h) && b < BARRIER_NUM
    requires !(e.BarrierCall? && e.b == b) && !(e.BarrierInit? && e.b == b)
    ensures RoundOk(Next(k, e), b, h) && Next(k, e).barriers[b] == k.barriers[b]
  {
    hide Inv, Next, Enabled, Drops, Arrives;
    OtherBarrier(k, e, b);
    QueueStep(k, e, Barrier(b));
    NoArrival(k, e, b);
  }

  lemma NoArrival(k: Sched, e: Event, b: nat)
    requires Enabled(k, e) && Tracked(Barrier(b)) && Barrier(b) in k.queues
    requires |k.locks| == LOCK_NUM && |k.barriers| == BARRIER_NUM && !(e.BarrierCall? && e.b == b)
    ensures Drops(k, e, Barrier(b)) == 0 && Arrives(k, e, Barrier(b)) == []
  {
  }

  lemma OtherBarrier(k: Sched, e: Event, b: nat)
    requires Inv(k) && Enabled(k, e) && !e.KillCall? && b < BARRIER_NUM
    requires !(e.BarrierCall? && e.b == b) && !(e.BarrierInit? && e.b == b)
    ensures |k.barriers| == |Next(k, e).barriers| == BARRIER_NUM && Next(k, e).barriers[b] == k.barriers[b]
  {
    hide Inv;
    NextInv(k, e);
    InvParts(k);
    InvParts(Next(k, e));
    hide Fixed, LocksOk, AloneOk, ListsOk, CpusOk, PidsOk, Exit, BarrierWait;
    if e.ExitCall? {
      ExitQueues(k, e.c, Sleep);
    } else if e.BarrierCall? {
      hide Next;
      BarrierStep(k, e.c, e.b);
    } else if !e.BarrierInit? {
      hide Next, Enabled, OnlyQueues;
      EventFrame(k, e);
    }
  }

  /**
   Barrier rounds: if nobody is killed, then however many rounds the arrivals h make, exactly the
   arrivals since the last full round are waiting; nobody leaves a round before it is full.
   */
  lemma {:induction false} BarrierRounds(k: Sched, es: seq<Event>, b: nat, h: seq<nat>)
    requires Inv(k) && CanRun(k, es) && NoKill(es) && NoBarrierInit(es, b) && b < BARRIER_NUM && RoundOk(k, b, h)
    ensures RoundOk(After(k, es), b, h + Arrivals(k, es, b))
    ensures After(k, es).barriers[b].goal == k.barriers[b].goal
    decreases |es|
  {
    hide Inv, Next, Enabled, RoundOk;
    if es == [] {
      assert h + [] == h;
    } else {
      var e, k1 := es[0], Next(k, es[0]);
      NextInv(k, e);
      assert forall x | x in es[1..] :: x in es;
      var a := Arrival(k, e, b);
      RoundNext(k, e, b, h);
      BarrierRounds(k1, es[1..], b, h + a);
      assert h + a + Arrivals(k1, es[1..], b) == h + Arrivals(k, es, b);
    }
  }

  lemma RoundNext(k: Sched, e: Event, b: nat, h: seq<nat>)
    requires Inv(k) && Enabled(k, e) && !e.KillCall? && RoundOk(k, b, h) && b < BARRIER_NUM
    requires !(e.BarrierInit? && e.b == b)
    ensures var k' := Next(k, e);
            && RoundOk(k', b, h + Arrival(k, e, b))
            && k'.barriers[b].goal == k.barriers[b].goal
  {
    hide Inv, Next;
    if e.BarrierCall? && e.b == b {
      ArrivalRound(k, e.c, b, h);
    } else {
      OtherRound(k, e, b, h);
      assert h + Arrival(k, e, b) == h;
    }
  }

  /**
   do_barrier_init of an idle barrier, then any run without kills and another init: the waiting tasks are
   the arrivals of the unfinished round, and a round is full with the arrival that the goal asks for.
   */
  lemma RoundsFromInit(k: Sched, c: nat, b: nat, goal: nat, k1: Sched, es: seq<Event>)
    requires Inv(k) && Enabled(k, BarrierInit(c, b, goal)) && goal > 0 && k1 == Next(k, BarrierInit(c, b, goal))
    requires NobodyThere(k, b) && Inv(k1) && CanRun(k1, es) && NoKill(es) && NoBarrierInit(es, b)
    ensures Gathered(After(k1, es), b, goal, Arrivals(k1, es, b))
  {
    hide Inv, Next, Enabled, RoundOk, NobodyThere;
    FreshRound(k, c, b, goal);
    BarrierRounds(k1, es, b, []);
    assert [] + Arrivals(k1, es, b) == Arrivals(k1, es, b);
    RoundGathered(After(k1, es), b, goal, Arrivals(k1, es, b));
  }

  lemma FreshRound(k: Sched, c: nat, b: nat, goal: nat)
    requires Inv(k) && Enabled(k, BarrierInit(c, b, goal)) && NobodyThere(k, b)
    ensures var k1 := Next(k, BarrierInit(c, b, goal)); b < BARRIER_NUM && RoundOk(k1, b, []) && k1.barriers[b].goal == goal
  {
    hide Inv;
  }

  lemma RoundGathered(k: Sched, b: nat, goal: nat, h: seq<nat>)
    requires RoundOk(k, b, h) && goal > 0 && k.barriers[b].goal == goal
    ensures Gathered(k, b, goal, h)
  {
  }

  /** Nobody is at the barrier. */
  ghost predicate NobodyThere(k: Sched, b: nat) {
    b < |k.barriers| && k.barriers[b].current == 0 && Barrier(b) in k.queues && k.queues[Barrier(b)] == []
  }

  /** Of the arrivals a in rounds of the given size, those of the unfinished round wait at the barrier. */
  ghost predicate Gathered(k: Sched, b: nat, goal: nat, a: seq<nat>)
    requires goal > 0
  {
    var n := |a| % goal;
    && b < |k.barriers| && Barrier(b) in k.queues
    && k.barriers[b].current == n && k.queues[Barrier(b)] == a[|a| - n..]
  }
}
