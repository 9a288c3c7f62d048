/** What every run of the scheduler guarantees, from boot on. */
module SchedProperties {
  import opened Seqs
  import opened Lists
  import opened SchedModel
  import opened SchedSteps
  import opened LockInvariant
  import opened QueueEffects
  import opened SchedRuns
  import opened SchedQueues

  // ---------------------------------------------------------------- runs

  ghost predicate CanRun(k: Sched, es: seq<Event>)
    requires Inv(k)
    decreases |es|
  {
    es == [] || (Enabled(k, es[0]) && (NextInv(k, es[0]); CanRun(Next(k, es[0]), es[1..])))
  }

  /** The state after any sequence of events is as good as the first one. */
  ghost function After(k: Sched, es: seq<Event>): (k': Sched)
    requires Inv(k) && CanRun(k, es)
    ensures Inv(k')
    decreases |es|
  {
    hide Inv;
    if es == [] then k else NextInv(k, es[0]); After(Next(k, es[0]), es[1..])
  }

  // ---------------------------------------------------------------- the lists as FIFO queues

  predicate Tracked(q: QueueId) {
    match q
    case Mutex(m) => m < LOCK_NUM
    case Condition(cv) => cv < CONDITION_NUM
    case Barrier(b) => b < BARRIER_NUM
    case _ => false
  }

  /** The event makes the owner of m give it away. */
  predicate HandsOn(k: Sched, e: Event, m: nat)
    requires Enabled(k, e) && m < |k.locks|
  {
    match e
    case ReleaseCall(_, m') => m' == m
    case WaitCall(_, _, m') => m' == m
    case ExitCall(c) => k.locks[m].owner == k.pcbs[k.cpus[c].t].pid
    case KillCall(_, pid) =>
      var t := FindPid(k.pcbs, pid, 0);
      t < NUM_MAX_TASK && k.locks[m].owner == k.pcbs[t].pid
    case _ => false
  }

  /** The list q without the task that the event kills. */
  function Remaining(k: Sched, e: Event, q: QueueId): seq<nat>
    requires q in k.queues
  {
    if e.KillCall? then Minus(k.queues[q], FindPid(k.pcbs, e.pid, 0)) else k.queues[q]
  }

  /** The arrival that completes the barrier. */
  predicate Completes(k: Sched, e: Event, b: nat)
    requires b < |k.barriers|
  {
    e.BarrierCall? && e.b == b && k.barriers[b].current + 1 >= k.barriers[b].goal
  }

  /** How many tasks leave the front of the list q, once the killed task is off it. */
  function Drops(k: Sched, e: Event, q: QueueId): (n: nat)
    requires Enabled(k, e) && Tracked(q) && q in k.queues && |k.locks| == LOCK_NUM && |k.barriers| == BARRIER_NUM
    ensures n <= |Remaining(k, e, q)|
  {
    assert q.Mutex? || q.Condition? || q.Barrier?;
    var one, all := if Remaining(k, e, q) == [] then 0 else 1, |Remaining(k, e, q)|;
    match q
    case Mutex(m) => if HandsOn(k, e, m) then one else 0
    case Condition(cv) => if e.SignalCall? && e.cv == cv then one else if e.BroadcastCall? && e.cv == cv then all else 0
    case Barrier(b) => if Completes(k, e, b) then all else 0
  }

  /** Who joins the tail of the list q. */
  function Arrives(k: Sched, e: Event, q: QueueId): seq<nat>
    requires Enabled(k, e) && Tracked(q) && |k.locks| == LOCK_NUM && |k.barriers| == BARRIER_NUM
  {
    match q
    case Mutex(m) =>
      if k.locks[m].locked && ((e.AcquireCall? && e.m == m) || (e.Resume? && k.pcbs[k.cpus[e.c].t].resume.m == m))
      then [k.cpus[e.c].t] else []
    case Condition(cv) => if e.WaitCall? && e.cv == cv then [k.cpus[e.c].t] else []
    case Barrier(b) => if e.BarrierCall? && e.b == b && !Completes(k, e, b) then [k.cpus[e.c].t] else []
  }

  lemma ExitQueues(k: Sched, c: nat, q: QueueId)
    requires Inv(k) && InUser(k, c) && q in k.queues
    requires q != Ready && q != WaitOf(k.cpus[c].t) && (q.Mutex? ==> q.m < |k.locks|)
    ensures var k' := Exit(k, c);
            && q in k'.queues && k'.barriers == k.barriers
            && k'.queues[q] == if q.Mutex? && k.locks[q.m].owner == k.pcbs[k.cpus[c].t].pid then Tail(k.queues[q])
                               else k.queues[q]
  {
    InvParts(k);
    var t := k.cpus[c].t;
    assert IsRunning(k.pcbs, t);
    RunningIsReady(k, t, q);
    WaitListExists(k, t);
    ReleasedCpu(k, c);
    hide ListsOk, CpusOk, PidsOk, LocksOk, AloneOk, Fixed, Inv, Release, Pick;
    ReleaseQueues(k, t, q);
    PickCore(Release(k, t), c);
  }

  /** The list q changes as a FIFO queue. */
  ghost predicate FifoStep(k: Sched, e: Event, q: QueueId)
    requires Inv(k) && Enabled(k, e) && Tracked(q)
  {
    && q in k.queues && |k.locks| == LOCK_NUM && |k.barriers| == BARRIER_NUM && q in Next(k, e).queues
    && Next(k, e).queues[q] == Remaining(k, e, q)[Drops(k, e, q)..] + Arrives(k, e, q)
  }

  /** No task has the number that stands for no task. */
  lemma NoSlot(k: Sched, q: QueueId)
    requires Core(k) && Fixed(k) && q in k.queues
    ensures NUM_MAX_TASK !in k.queues[q]
  {
    forall t | t in k.queues[q]
      ensures t < NUM_MAX_TASK
    {
      assert Linked(k, t, q);
    }
  }

  /** Killing a task that does not run takes it off its list; if it owned a mutex, the first waiter left inherits. */
  lemma KillStep(k: Sched, c: nat, pid: nat, q: QueueId)
    requires Inv(k) && Enabled(k, KillCall(c, pid)) && Tracked(q)
    ensures FifoStep(k, KillCall(c, pid), q)
  {
    hide Inv, Core, LocksOk, AloneOk, Fixed, Release, OnlyStatuses, Drops, Arrives, Next, Enabled;
    Sizes(k);
    TrackedExists(k, q);
    KillIs(k, c, pid);
    var t := FindPid(k.pcbs, pid, 0);
    KillDrops(k, c, pid, q);
    if t < NUM_MAX_TASK {
      WaitListExists(k, t);
      ReleaseQueues(k, t, q);
    } else {
      NoSlot(k, q);
    }
  }

  lemma Sizes(k: Sched)
    requires Inv(k)
    ensures Core(k) && Fixed(k) && |k.locks| == LOCK_NUM && |k.barriers| == BARRIER_NUM
  {
  }

  lemma KillIs(k: Sched, c: nat, pid: nat)
    requires Inv(k) && Enabled(k, KillCall(c, pid))
    ensures var t := FindPid(k.pcbs, pid, 0);
            if t < NUM_MAX_TASK then
              && Core(k) && WaitOf(t) in k.queues && (forall i | 0 <= i < |k.locks| :: Mutex(i) in k.queues)
              && Next(k, KillCall(c, pid)) == Release(k, t)
            else Next(k, KillCall(c, pid)) == k
  {
    hide Inv, ListsOk, CpusOk, PidsOk, LocksOk, AloneOk, Release;
    InvParts(k);
    var t := FindPid(k.pcbs, pid, 0);
    if t < NUM_MAX_TASK {
      WaitListExists(k, t);
    }
  }

  lemma KillDrops(k: Sched, c: nat, pid: nat, q: QueueId)
    requires Enabled(k, KillCall(c, pid)) && Tracked(q) && q in k.queues && |k.locks| == LOCK_NUM && |k.barriers| == BARRIER_NUM
    ensures var t, e := FindPid(k.pcbs, pid, 0), KillCall(c, pid);
            && Drops(k, e, q) == (if q.Mutex? && t < NUM_MAX_TASK && k.locks[q.m].owner == k.pcbs[t].pid
                                     && Remaining(k, e, q) != [] then 1 else 0)
            && Arrives(k, e, q) == []
  {
  }

  lemma ExitStep(k: Sched, c: nat, q: QueueId)
    requires Inv(k) && Enabled(k, ExitCall(c)) && Tracked(q)
    ensures FifoStep(k, ExitCall(c), q)
  {
    hide ListsOk, CpusOk, PidsOk, LocksOk, AloneOk, Fixed, Inv, OnlyQueues, OthersKeep, OnlyStatuses;
    InvParts(k);
    hide Exit, Drops, Arrives;
    TrackedExists(k, q);
    ExitQueues(k, c, q);
    ExitDrops(k, c, q);
  }

  lemma ExitDrops(k: Sched, c: nat, q: QueueId)
    requires Enabled(k, ExitCall(c)) && Tracked(q) && q in k.queues && |k.locks| == LOCK_NUM && |k.barriers| == BARRIER_NUM
    ensures Drops(k, ExitCall(c), q) ==
            if q.Mutex? && k.locks[q.m].owner == k.pcbs[k.cpus[c].t].pid && k.queues[q] != [] then 1 else 0
    ensures Arrives(k, ExitCall(c), q) == []
  {
  }

  lemma Quiet(k: Sched, e: Event, q: QueueId)
    requires Enabled(k, e) && Tracked(q) && q in k.queues && |k.locks| == LOCK_NUM && |k.barriers| == BARRIER_NUM
    requires !e.ExitCall? && !e.KillCall? && q !in Touched(k, e)
    ensures Drops(k, e, q) == 0 && Arrives(k, e, q) == []
  {
  }

  lemma QuietStep(k: Sched, e: Event, q: QueueId)
    requires Inv(k) && Enabled(k, e) && !e.ExitCall? && !e.KillCall? && Tracked(q) && q !in Touched(k, e)
    ensures FifoStep(k, e, q)
  {
    hide ListsOk, CpusOk, PidsOk, LocksOk, AloneOk, Fixed, Inv, OnlyQueues, OthersKeep, OnlyStatuses;
    InvParts(k);
    TrackedExists(k, q);
    hide Next, Drops, Arrives, Enabled, Touched;
    Quiet(k, e, q);
    EventFrame(k, e);
    OnlyAt(k, Next(k, e), Touched(k, e), q);
  }

  lemma AcquireStep(k: Sched, e: Event)
    requires Inv(k) && Enabled(k, e) && (e.AcquireCall? || e.Resume?)
    ensures forall q | Tracked(q) && q in Touched(k, e) :: FifoStep(k, e, q)
  {
    hide ListsOk, CpusOk, PidsOk, LocksOk, AloneOk, Fixed, Inv, OnlyQueues, OthersKeep, OnlyStatuses;
    InvParts(k);
    if e.Resume? {
      ResumeInBounds(k, k.cpus[e.c].t);
    }
    hide Acquire;
    AcquireQueues(k, e.c, if e.Resume? then k.pcbs[k.cpus[e.c].t].resume.m else e.m);
  }

  lemma ReleaseStep(k: Sched, c: nat, m: nat)
    requires Inv(k) && Enabled(k, ReleaseCall(c, m)) && Tracked(Mutex(m))
    ensures FifoStep(k, ReleaseCall(c, m), Mutex(m))
  {
    hide ListsOk, CpusOk, PidsOk, LocksOk, AloneOk, Fixed, Inv, OnlyQueues, OthersKeep, OnlyStatuses;
    InvParts(k);
    hide ReleaseLock;
    ReleaseLockQueues(k, m);
  }

  lemma WaitStep(k: Sched, c: nat, cv: nat, m: nat)
    requires Inv(k) && Enabled(k, WaitCall(c, cv, m))
    ensures Tracked(Mutex(m)) && FifoStep(k, WaitCall(c, cv, m), Mutex(m))
    ensures Tracked(Condition(cv)) && FifoStep(k, WaitCall(c, cv, m), Condition(cv))
  {
    hide ListsOk, CpusOk, PidsOk, LocksOk, AloneOk, Fixed, Inv, OnlyQueues, OthersKeep, OnlyStatuses;
    InvParts(k);
    hide CondWait;
    CondWaitQueues(k, c, cv, m);
  }

  lemma SignalStep(k: Sched, c: nat, cv: nat)
    requires Inv(k) && Enabled(k, SignalCall(c, cv)) && Enabled(k, BroadcastCall(c, cv)) && Tracked(Condition(cv))
    ensures FifoStep(k, SignalCall(c, cv), Condition(cv)) && FifoStep(k, BroadcastCall(c, cv), Condition(cv))
  {
    hide ListsOk, CpusOk, PidsOk, LocksOk, AloneOk, Fixed, Inv, OnlyQueues, OthersKeep, OnlyStatuses;
    InvParts(k);
    hide Signal;
    SignalQueues(k, cv);
  }

  /** The arrival at a barrier, with its counter. */
  lemma BarrierStep(k: Sched, c: nat, b: nat)
    requires Inv(k) && Enabled(k, BarrierCall(c, b))
    ensures Tracked(Barrier(b)) && FifoStep(k, BarrierCall(c, b), Barrier(b))
    ensures b < |k.barriers|
    ensures Next(k, BarrierCall(c, b)).barriers == k.barriers[b := k.barriers[b].(current :=
              if Completes(k, BarrierCall(c, b), b) then 0 else k.barriers[b].current + 1)]
  {
    hide ListsOk, CpusOk, PidsOk, LocksOk, AloneOk, Fixed, Inv, OnlyQueues, OthersKeep, OnlyStatuses;
    InvParts(k);
    hide BarrierWait;
    BarrierWaitQueues(k, c, b);
  }

  /**
   Under every event the waiting list of a mutex, condition or barrier changes only as a FIFO queue: a
   killed task disappears, the named number of tasks leaves at the front, the caller joins at the tail.
   */
  lemma QueueStep(k: Sched, e: Event, q: QueueId)
    requires Inv(k) && Enabled(k, e) && Tracked(q)
    ensures FifoStep(k, e, q)
  {
    hide Inv, Next, FifoStep;
    if e.KillCall? {
      KillStep(k, e.c, e.pid, q);
    } else if e.ExitCall? {
      ExitStep(k, e.c, q);
    } else if q !in Touched(k, e) {
      QuietStep(k, e, q);
    } else {
      match e
      case AcquireCall(_, _) => AcquireStep(k, e);
      case Resume(_) => AcquireStep(k, e);
      case ReleaseCall(c, m) => ReleaseStep(k, c, m);
      case WaitCall(c, cv, m) => WaitStep(k, c, cv, m);
      case SignalCall(c, cv) => SignalStep(k, c, cv);
      case BroadcastCall(c, cv) => SignalStep(k, c, cv);
      case BarrierCall(c, b) => BarrierStep(k, c, b);
    }
  }

  /** What is left of the waiters w, a first part of the list q, after one event: killed tasks gone, then the front. */
  function StillNext(k: Sched, e: Event, q: QueueId, w: seq<nat>): seq<nat>
    requires Enabled(k, e) && Tracked(q) && q in k.queues && |k.locks| == LOCK_NUM && |k.barriers| == BARRIER_NUM
  {
    var w1, d := if e.KillCall? then Minus(w, FindPid(k.pcbs, e.pid, 0)) else w, Drops(k, e, q);
    if d <= |w1| then w1[d..] else []
  }

  /** What is left of the waiters w after a whole run. */
  ghost function Still(k: Sched, es: seq<Event>, q: QueueId, w: seq<nat>): seq<nat>
    requires Inv(k) && CanRun(k, es) && Tracked(q)
    decreases |es|
  {
    hide Inv, Next;
    if es == [] then w else
    NextInv(k, es[0]);
    InvParts(k);
    TrackedExists(k, q);
    Still(Next(k, es[0]), es[1..], q, StillNext(k, es[0], q, w))
  }

  lemma TrackedExists(k: Sched, q: QueueId)
    requires Inv(k) && Tracked(q)
    ensures q in k.queues
  {
  }

  /** Removing one task from a list and from a first part of it leaves a first part. */
  lemma MinusPrefix(s: seq<nat>, n: nat, t: nat)
    requires NoDup(s) && n <= |s|
    ensures var w, s' := Minus(s[..n], t), Minus(s, t); |w| <= |s'| && s'[..|w|] == w
  {
    hide IndexOf;
    if t in s {
      var i := IndexOf(s, t);
      PrefixCut(s, n, i);
      if i < n {
        assert s[..n][i] == t;
        WithoutAt(s[..n], i);
        hide NoDup, Without;
      } else {
        assert t !in s[..n];
        hide NoDup;
      }
    }
  }

  lemma PrefixCut(s: seq<nat>, n: nat, i: nat)
    requires n <= |s| && i < |s|
    ensures var cut := s[..i] + s[i + 1..];
            if i < n then cut[..n - 1] == s[..n][..i] + s[..n][i + 1..] else cut[..n] == s[..n]
  {
  }

  lemma StillStep(k: Sched, e: Event, q: QueueId, n: nat)
    requires Inv(k) && Enabled(k, e) && Tracked(q) && q in k.queues && n <= |k.queues[q]|
    requires |k.locks| == LOCK_NUM && |k.barriers| == BARRIER_NUM
    ensures q in Next(k, e).queues
    ensures var w, s' := StillNext(k, e, q, k.queues[q][..n]), Next(k, e).queues[q]; |w| <= |s'| && s'[..|w|] == w
  {
    hide Inv, Next, Drops, Arrives, Enabled;
    QueueStep(k, e, q);
    InvParts(k);
    QueueNoDup(k, q);
    hide Core, Fixed, LocksOk, AloneOk;
    var s := k.queues[q];
    var w1 := if e.KillCall? then Minus(s[..n], FindPid(k.pcbs, e.pid, 0)) else s[..n];
    if e.KillCall? {
      MinusPrefix(s, n, FindPid(k.pcbs, e.pid, 0));
    }
    var s1, d := Remaining(k, e, q), Drops(k, e, q);
    assert s1[..|w1|] == w1;
    if d <= |w1| {
      assert s1[d..][..|w1| - d] == w1[d..];
    }
  }

  /**
   Arrival order, over every run: of the tasks waiting now, those still waiting are what is left when
   killed tasks disappear and the others leave from the front, and they stand in the same order before
   everyone who came later.
   */
  lemma {:induction false} FirstComeFirstServed(k: Sched, es: seq<Event>, q: QueueId, n: nat)
    requires Inv(k) && CanRun(k, es) && Tracked(q) && q in k.queues && n <= |k.queues[q]|
    ensures q in After(k, es).queues
    ensures var w, s' := Still(k, es, q, k.queues[q][..n]), After(k, es).queues[q]; |w| <= |s'| && s'[..|w|] == w
    decreases |es|
  {
    hide Inv, Next, Drops, Arrives, Enabled, StillNext;
    TrackedExists(After(k, es), q);
    if es != [] {
      NextInv(k, es[0]);
      InvParts(k);
      StillStep(k, es[0], q, n);
      var k1, w := Next(k, es[0]), StillNext(k, es[0], q, k.queues[q][..n]);
      FirstComeFirstServed(k1, es[1..], q, |w|);
      assert k1.queues[q][..|w|] == w;
    }
  }

  /** The waiters left are a subsequence of those there were: nobody overtakes. */
  lemma {:induction false} NobodyOvertakes(k: Sched, es: seq<Event>, q: QueueId, w: seq<nat>, i: nat, j: nat)
    requires Inv(k) && CanRun(k, es) && Tracked(q) && NoDup(w) && i < j < |Still(k, es, q, w)|
    ensures var a, b := Still(k, es, q, w)[i], Still(k, es, q, w)[j]; a in w && b in w && IndexOf(w, a) < IndexOf(w, b)
    decreases |es|
  {
    hide Inv, Next, Drops, Arrives, Enabled, StillNext;
    if es == [] {
      IndexOfAt(w, i);
      IndexOfAt(w, j);
    } else {
      NextInv(k, es[0]);
      InvParts(k);
      TrackedExists(k, q);
      var w1 := StillNext(k, es[0], q, w);
      StillNextOrder(k, es[0], q, w);
      OrderNoDup(w, w1);
      NobodyOvertakes(Next(k, es[0]), es[1..], q, w1, i, j);
    }
  }

  lemma IndexOfAt(s: seq<nat>, i: nat)
    requires NoDup(s) && i < |s|
    ensures s[i] in s && IndexOf(s, s[i]) == i
  {
    assert s[i] in s;
  }

  /** w' is made of members of w in the same order. */
  ghost predicate SameOrder(w: seq<nat>, w': seq<nat>) {
    && NoDup(w')
    && forall a, b | a in w' && b in w' && IndexOf(w', a) < IndexOf(w', b) :: a in w && b in w && IndexOf(w, a) < IndexOf(w, b)
  }

  lemma SuffixOrder(w: seq<nat>, d: nat)
    requires NoDup(w) && d <= |w|
    ensures SameOrder(w, w[d..])
  {
    var w' := w[d..];
    forall a, b | a in w' && b in w' && IndexOf(w', a) < IndexOf(w', b)
      ensures a in w && b in w && IndexOf(w, a) < IndexOf(w, b)
    {
      IndexOfAt(w, d + IndexOf(w', a));
      IndexOfAt(w, d + IndexOf(w', b));
    }
  }

  lemma OrderThen(w: seq<nat>, w1: seq<nat>, w2: seq<nat>)
    requires SameOrder(w, w1) && SameOrder(w1, w2)
    ensures SameOrder(w, w2)
  {
  }

  lemma OrderNoDup(w: seq<nat>, w1: seq<nat>)
    requires SameOrder(w, w1)
    ensures NoDup(w1)
  {
  }

  lemma StillNextOrder(k: Sched, e: Event, q: QueueId, w: seq<nat>)
    requires Enabled(k, e) && Tracked(q) && q in k.queues && |k.locks| == LOCK_NUM && |k.barriers| == BARRIER_NUM && NoDup(w)
    ensures SameOrder(w, StillNext(k, e, q, w))
  {
    hide Drops, Enabled, NoDup, SameOrder, Minus;
    var d := Drops(k, e, q);
    var w1 := if e.KillCall? then Minus(w, FindPid(k.pcbs, e.pid, 0)) else w;
    if e.KillCall? {
      MinusOrder(w, FindPid(k.pcbs, e.pid, 0));
    } else {
      SuffixOrder(w, 0);
      assert w[0..] == w;
    }
    OrderNoDup(w, w1);
    if d <= |w1| {
      SuffixOrder(w1, d);
      OrderThen(w, w1, w1[d..]);
    } else {
      SuffixOrder(w, |w|);
      assert w[|w|..] == [];
    }
  }

  lemma MinusOrder(w: seq<nat>, t: nat)
    requires NoDup(w)
    ensures SameOrder(w, Minus(w, t))
  {
    var w1 := Minus(w, t);
    if t in w {
      WithoutMembers(w, t);
      var p := IndexOf(w, t);
      forall a, b | a in w1 && b in w1 && IndexOf(w1, a) < IndexOf(w1, b)
        ensures a in w && b in w && IndexOf(w, a) < IndexOf(w, b)
      {
        var i, j := IndexOf(w1, a), IndexOf(w1, b);
        IndexOfAt(w, if i < p then i else i + 1);
        IndexOfAt(w, if j < p then j else j + 1);
      }
    }
  }

  ghost predicate NoKill(es: seq<Event>) {
    forall e | e in es :: !e.KillCall?
  }
}
