/** What the mutexes, conditions and barriers promise about the tasks on their lists. */
module LockInvariant {
  import opened Seqs
  import opened Lists
  import opened SchedModel
  import opened SchedSteps

  /** What a task on the list q is in the middle of. */
  predicate Mode(q: QueueId, pcb: Pcb) {
    match q
    case Ready => true
    case Mutex(m) => pcb.wants == Wants(m) && pcb.resume == ToUser
    case Condition(_) => pcb.wants.Wants? && pcb.resume == Reacquire(pcb.wants.m)
    case _ => pcb.wants == Nothing && pcb.resume == ToUser
  }

  ghost predicate ModesOk(k: Sched) {
    && (forall q, t | Linked(k, t, q) :: t in k.pcbs && Mode(q, k.pcbs[t]))
    && (forall t | t in k.pcbs && k.pcbs[t].resume.Reacquire? :: k.pcbs[t].wants == Wants(k.pcbs[t].resume.m))
    && (forall t | t in k.pcbs && k.pcbs[t].wants.Wants? :: k.pcbs[t].wants.m < |k.locks|)
  }

  /** t has been given the mutex m it wanted and is on its way back to user mode. */
  predicate Claims(k: Sched, t: nat, m: nat) {
    && t in k.pcbs && k.pcbs[t].status != TaskBlocked
    && k.pcbs[t].resume == ToUser && k.pcbs[t].wants == Wants(m)
  }

  ghost predicate ClaimsOk(k: Sched) {
    forall t, m: nat | Claims(k, t, m) :: m < |k.locks| && k.locks[m].locked && k.locks[m].owner == k.pcbs[t].pid
  }

  ghost predicate PidLive(k: Sched, pid: nat) {
    exists t :: t in k.pcbs && k.pcbs[t].pid == pid
  }

  /** An unlocked mutex has no owner and no waiters; a locked one has one live owner (or the dying task). */
  ghost predicate LockOk(k: Sched, m: nat, dying: nat)
    requires m < |k.locks|
  {
    && Mutex(m) in k.queues
    && (!k.locks[m].locked ==> k.locks[m].owner == 0 && k.queues[Mutex(m)] == [])
    && (k.locks[m].locked ==> k.locks[m].owner != 0 && (k.locks[m].owner == dying || PidLive(k, k.locks[m].owner)))
  }

  ghost predicate LocksOk(k: Sched, dying: nat) {
    && ModesOk(k) && ClaimsOk(k)
    && (forall m: nat | m < |k.locks| :: LockOk(k, m, dying))
  }

  // ---------------------------------------------------------------- moves

  /** Lists only lose tasks, except that t arrives on q; tasks keep their mode, owners their lives. */
  lemma MovedModes(k: Sched, k': Sched, t: nat, q: QueueId, dying: nat)
    requires LocksOk(k, dying) && |k'.locks| == |k.locks| && k'.locks == k.locks
    requires k'.queues.Keys == k.queues.Keys
    requires forall q', x | Linked(k', x, q') :: (x == t && q' == q && t in k'.pcbs) || Linked(k, x, q')
    requires k'.pcbs.Keys == k.pcbs.Keys
    requires forall x | x in k.pcbs :: k'.pcbs[x].pid == k.pcbs[x].pid
    requires forall x | x in k.pcbs && x != t ::
               k'.pcbs[x].resume == k.pcbs[x].resume && k'.pcbs[x].wants == k.pcbs[x].wants
    requires forall x | x in k.pcbs && x != t && k'.pcbs[x].status != TaskBlocked :: k.pcbs[x].status != TaskBlocked
    requires forall q' | Linked(k', t, q') :: q' == q
    requires t in k.pcbs && Mode(q, k'.pcbs[t])
    requires k'.pcbs[t].resume.Reacquire? ==> k'.pcbs[t].wants == Wants(k'.pcbs[t].resume.m)
    requires k'.pcbs[t].wants.Wants? ==> k'.pcbs[t].wants.m < |k.locks|
    requires q.Mutex? && q.m < |k.locks| ==> k.locks[q.m].locked
    requires forall m: nat | Claims(k', t, m) :: m < |k.locks| && k.locks[m].locked && k.locks[m].owner == k.pcbs[t].pid
    ensures LocksOk(k', dying)
  {
    forall q', x | Linked(k', x, q')
      ensures x in k'.pcbs && Mode(q', k'.pcbs[x])
    {
      assert x != t ==> Linked(k, x, q');
    }
    forall x, m: nat | Claims(k', x, m)
      ensures m < |k'.locks| && k'.locks[m].locked && k'.locks[m].owner == k'.pcbs[x].pid
    {
      if x != t {
        assert Claims(k, x, m);
      }
    }
    forall m: nat | m < |k'.locks|
      ensures LockOk(k', m, dying)
    {
      assert LockOk(k, m, dying);
      if PidLive(k, k.locks[m].owner) {
        var o :| o in k.pcbs && k.pcbs[o].pid == k.locks[m].owner;
        assert o in k'.pcbs && k'.pcbs[o].pid == k.locks[m].owner;
      }
      if k'.queues[Mutex(m)] != [] {
        var x := k'.queues[Mutex(m)][0];
        assert Linked(k', x, Mutex(m));
        assert Linked(k, x, Mutex(m)) ==> k.queues[Mutex(m)] != [];
      }
    }
  }

  /** The task of CPU c, having possibly changed what it is in the middle of, queues up on q. */
  lemma LeaveLocks(k: Sched, c: nat, q: QueueId, pcb: Pcb, dying: nat)
    requires Core(k) && LocksOk(k, dying) && OnTask(k, c) && q in k.queues && k.cpus[c].t in k.pcbs
    requires pcb.pid == k.pcbs[k.cpus[c].t].pid && Mode(q, pcb)
    requires pcb.resume.Reacquire? ==> pcb.wants == Wants(pcb.resume.m)
    requires pcb.wants.Wants? ==> pcb.wants.m < |k.locks|
    requires q == Ready ==> pcb == k.pcbs[k.cpus[c].t]
    requires q.Mutex? && q.m < |k.locks| ==> k.locks[q.m].locked
    ensures LocksOk(Leave(SetPcb(k, k.cpus[c].t, pcb), c, q), dying)
  {
    hide LocksOk, ListsOk, PidsOk, Mode;
    var t := k.cpus[c].t;
    MoveLinks(k, q, t);
    assert IsRunning(k.pcbs, t);
    ClaimHolds(k, t, dying);
    StatusIsNoMode(q, pcb);
    MovedModes(k, Leave(SetPcb(k, t, pcb), c, q), t, q, dying);
  }

  lemma StatusIsNoMode(q: QueueId, pcb: Pcb)
    requires Mode(q, pcb)
    ensures forall status :: Mode(q, pcb.(status := status))
  {
  }

  lemma ClaimHolds(k: Sched, t: nat, dying: nat)
    requires LocksOk(k, dying) && t in k.pcbs && k.pcbs[t].status != TaskBlocked
    ensures k.pcbs[t].resume == ToUser && k.pcbs[t].wants.Wants? ==>
              var m := k.pcbs[t].wants.m; m < |k.locks| && k.locks[m].locked && k.locks[m].owner == k.pcbs[t].pid
  {
    if k.pcbs[t].resume == ToUser && k.pcbs[t].wants.Wants? {
      assert Claims(k, t, k.pcbs[t].wants.m);
    }
  }

  lemma ResumeOk(k: Sched, t: nat, dying: nat)
    requires LocksOk(k, dying) && t in k.pcbs
    ensures k.pcbs[t].resume.Reacquire? ==> k.pcbs[t].wants == Wants(k.pcbs[t].resume.m)
    ensures k.pcbs[t].wants.Wants? ==> k.pcbs[t].wants.m < |k.locks|
  {
  }

  lemma PickLocks(k: Sched, c: nat, dying: nat)
    requires Core(k) && LocksOk(k, dying) && Ready in k.queues
    ensures LocksOk(Pick(k, c), dying)
  {
    hide LocksOk, Mode;
    var s := k.queues[Ready];
    var i := FirstIdle(s, k.pcbs);
    if i < |s| {
      assert Linked(k, s[i], Ready);
      ClaimHolds(k, s[i], dying);
      ReadyMode();
      PickLinks(k, c, s[i], dying);
      MovedModes(k, Pick(k, c), s[i], Ready, dying);
    } else {
      LocksIgnoreCpus(k, Pick(k, c), dying);
    }
  }

  lemma ReadyMode()
    ensures forall pcb :: Mode(Ready, pcb)
  {
  }

  lemma PickLinks(k: Sched, c: nat, t: nat, dying: nat)
    requires Core(k) && LocksOk(k, dying) && Linked(k, t, Ready)
    ensures forall q | Linked(Pick(k, c), t, q) :: q == Ready
    ensures t in k.pcbs
    ensures k.pcbs[t].resume.Reacquire? ==> k.pcbs[t].wants == Wants(k.pcbs[t].resume.m)
    ensures k.pcbs[t].wants.Wants? ==> k.pcbs[t].wants.m < |k.locks|
  {
    assert Separate(k.queues);
  }

  lemma LocksIgnoreCpus(k: Sched, k': Sched, dying: nat)
    requires LocksOk(k, dying) && k'.pcbs == k.pcbs && k'.locks == k.locks && k'.queues == k.queues
    ensures LocksOk(k', dying)
  {
    forall q, t | Linked(k', t, q)
      ensures t in k'.pcbs && Mode(q, k'.pcbs[t])
    {
      assert Linked(k, t, q);
    }
    forall t, m: nat | Claims(k', t, m)
      ensures m < |k'.locks| && k'.locks[m].locked && k'.locks[m].owner == k'.pcbs[t].pid
    {
      assert Claims(k, t, m);
    }
    forall m: nat | m < |k'.locks|
      ensures LockOk(k', m, dying)
    {
      assert LockOk(k, m, dying);
    }
  }

  lemma SwitchLocks(k: Sched, c: nat, q: QueueId, pcb: Pcb, dying: nat)
    requires Core(k) && LocksOk(k, dying) && OnTask(k, c) && q in k.queues && k.cpus[c].t in k.pcbs
    requires pcb.pid == k.pcbs[k.cpus[c].t].pid && pcb.status == k.pcbs[k.cpus[c].t].status && Mode(q, pcb)
    requires pcb.resume.Reacquire? ==> pcb.wants == Wants(pcb.resume.m)
    requires pcb.wants.Wants? ==> pcb.wants.m < |k.locks|
    requires q == Ready ==> pcb == k.pcbs[k.cpus[c].t]
    requires q.Mutex? && q.m < |k.locks| ==> k.locks[q.m].locked
    ensures Core(SetPcb(k, k.cpus[c].t, pcb))
    ensures LocksOk(Switch(SetPcb(k, k.cpus[c].t, pcb), c, q), dying)
  {
    hide LocksOk, Mode, ListsOk, CpusOk, PidsOk, Leave, Pick;
    var k1 := SetPcb(k, k.cpus[c].t, pcb);
    CoreIgnores(k, k1);
    LeaveCore(k1, c, q);
    LeaveLocks(k, c, q, pcb, dying);
    PickCore(Leave(k1, c, q), c);
    PickLocks(Leave(k1, c, q), c, dying);
  }

  /** A task may be woken unless it still waits for a mutex that is not its own. */
  lemma WakeLocks(k: Sched, t: nat, dying: nat)
    requires Core(k) && LocksOk(k, dying) && t in k.pcbs && k.pcbs[t].status == TaskBlocked && Ready in k.queues
    requires k.pcbs[t].resume == ToUser && k.pcbs[t].wants.Wants? ==>
               var m := k.pcbs[t].wants.m; m < |k.locks| && k.locks[m].locked && k.locks[m].owner == k.pcbs[t].pid
    ensures LocksOk(Wake(k, t), dying)
  {
    hide LocksOk, Mode, ListsOk, CpusOk, PidsOk;
    MoveLinks(k, Ready, t);
    ReadyMode();
    ResumeOk(k, t, dying);
    MovedModes(k, Wake(k, t), t, Ready, dying);
  }

  /** Tasks on a condition, barrier, sleep or wait list do not wait for a mutex at that moment. */
  lemma ModeOf(k: Sched, t: nat, q: QueueId, dying: nat)
    requires LocksOk(k, dying) && Linked(k, t, q)
    ensures t in k.pcbs && Mode(q, k.pcbs[t])
    ensures !q.Ready? && !q.Mutex? ==> !(k.pcbs[t].resume == ToUser && k.pcbs[t].wants.Wants?)
  {
  }

  lemma {:induction false} WakeAllLocks(k: Sched, q: QueueId, dying: nat)
    requires Core(k) && LocksOk(k, dying) && q in k.queues && !q.Ready? && !q.Mutex?
    ensures LocksOk(WakeAll(k, q), dying)
    decreases |k.queues[q]|
  {
    hide LocksOk, Mode, ListsOk, CpusOk, PidsOk, Wake;
    if k.queues[q] != [] {
      var t := k.queues[q][0];
      Waiting(k, t, q);
      ModeOf(k, t, q, dying);
      WakeCore(k, t);
      WakeLocks(k, t, dying);
      WakeAllLocks(Wake(k, t), q, dying);
    }
  }

  lemma {:induction false} CheckSleepingLocks(k: Sched, now: nat, s: seq<nat>, dying: nat)
    requires Core(k) && LocksOk(k, dying) && NoDup(s) && forall t | t in s :: Linked(k, t, Sleep)
    ensures LocksOk(CheckSleeping(k, now, s), dying)
    decreases |s|
  {
    hide LocksOk, Mode, ListsOk, CpusOk, PidsOk, Wake;
    if s != [] {
      Waiting(k, s[0], Sleep);
      if k.pcbs[s[0]].wakeup <= now {
        ModeOf(k, s[0], Sleep, dying);
        WakeCore(k, s[0]);
        WakeLocks(k, s[0], dying);
        WakeOthers(k, s[0], Sleep, s[1..]);
        CheckSleepingLocks(Wake(k, s[0]), now, s[1..], dying);
      } else {
        CheckSleepingLocks(k, now, s[1..], dying);
      }
    }
  }

  lemma FromIdleLocks(k: Sched, c: nat)
    requires Core(k) && LocksOk(k, 0) && c in k.cpus && k.cpus[c] == Idle
    ensures LocksOk(FromIdle(k, c), 0)
  {
    hide LocksOk, ListsOk, CpusOk, PidsOk, Pick;
    var k1 := k.(cpus := k.cpus - {c});
    IdleCore(k, c);
    LocksIgnoreCpus(k, k1, 0);
    PickLocks(k1, c, 0);
  }

  lemma YieldLocks(k: Sched, c: nat)
    requires Core(k) && LocksOk(k, 0) && OnTask(k, c) && Ready in k.queues
    ensures LocksOk(Switch(k, c, Ready), 0)
  {
    hide LocksOk, ListsOk, PidsOk, Mode;
    var t := k.cpus[c].t;
    assert IsRunning(k.pcbs, t);
    hide CpusOk;
    ReadyMode();
    ResumeOk(k, t, 0);
    assert SetPcb(k, t, k.pcbs[t]) == k;
    SwitchLocks(k, c, Ready, k.pcbs[t], 0);
  }

  lemma RescheduleLocks(k: Sched, c: nat, now: nat)
    requires Core(k) && LocksOk(k, 0) && c in k.cpus && Sleep in k.queues
    ensures LocksOk(Reschedule(k, c, now), 0)
  {
    hide LocksOk, CpusOk, PidsOk;
    var k1 := CheckSleeping(k, now, k.queues[Sleep]);
    CheckSleepingLocks(k, now, k.queues[Sleep], 0);
    ReadyExists(k1);
    if k1.cpus[c].On? {
      YieldLocks(k1, c);
    } else {
      FromIdleLocks(k1, c);
    }
  }

  // ---------------------------------------------------------------- mutexes

  /** The running task changes what it is in the middle of; it is on no list that minds. */
  lemma SetModeLocks(k: Sched, t: nat, resume: Resumption, wants: Wanted, dying: nat)
    requires Core(k) && LocksOk(k, dying) && IsRunning(k.pcbs, t)
    requires resume.Reacquire? ==> wants == Wants(resume.m)
    requires wants.Wants? ==> wants.m < |k.locks|
    requires wants.Wants? && resume == ToUser ==> k.locks[wants.m].locked && k.locks[wants.m].owner == k.pcbs[t].pid
    ensures LocksOk(SetPcb(k, t, k.pcbs[t].(resume := resume, wants := wants)), dying)
  {
    var k' := SetPcb(k, t, k.pcbs[t].(resume := resume, wants := wants));
    forall q, x | Linked(k', x, q)
      ensures x in k'.pcbs && Mode(q, k'.pcbs[x])
    {
      assert Linked(k, x, q);
    }
    forall x, m: nat | Claims(k', x, m)
      ensures m < |k'.locks| && k'.locks[m].locked && k'.locks[m].owner == k'.pcbs[x].pid
    {
      assert x != t ==> Claims(k, x, m);
    }
    forall m: nat | m < |k'.locks|
      ensures LockOk(k', m, dying)
    {
      assert LockOk(k, m, dying);
      if PidLive(k, k.locks[m].owner) {
        var o :| o in k.pcbs && k.pcbs[o].pid == k.locks[m].owner;
        assert o in k'.pcbs && k'.pcbs[o].pid == k.locks[m].owner;
      }
    }
  }

  /** Nobody on the way back to user mode relies on m. */
  ghost predicate Unclaimed(k: Sched, m: nat) {
    forall t :: !Claims(k, t, m)
  }

  /** A mutex nobody relies on may get a new owner, or none if nobody waits. */
  lemma SetLockLocks(k: Sched, m: nat, locked: bool, owner: nat, dying: nat)
    requires LocksOk(k, dying) && m < |k.locks| && Unclaimed(k, m)
    requires locked ==> owner != 0 && PidLive(k, owner)
    requires !locked ==> owner == 0 && Mutex(m) in k.queues && k.queues[Mutex(m)] == []
    ensures LocksOk(SetLock(k, m, locked, owner), dying)
  {
    var k' := SetLock(k, m, locked, owner);
    forall q, t | Linked(k', t, q)
      ensures t in k'.pcbs && Mode(q, k'.pcbs[t])
    {
      assert Linked(k, t, q);
    }
    forall t, i: nat | Claims(k', t, i)
      ensures i < |k'.locks| && k'.locks[i].locked && k'.locks[i].owner == k'.pcbs[t].pid
    {
      assert Claims(k, t, i);
    }
    forall i: nat | i < |k'.locks|
      ensures LockOk(k', i, dying)
    {
      assert LockOk(k, i, dying);
      assert i == m && locked ==> PidLive(k', owner);
      assert PidLive(k, k.locks[i].owner) ==> PidLive(k', k.locks[i].owner);
    }
  }

  lemma ReleaseLockLocks(k: Sched, m: nat, dying: nat)
    requires Core(k) && LocksOk(k, dying) && m < |k.locks| && Mutex(m) in k.queues && Unclaimed(k, m)
    ensures LocksOk(ReleaseLock(k, m), dying)
    ensures dying != 0 && !PidLive(k, dying) ==> ReleaseLock(k, m).locks[m].owner != dying
    ensures !PidLive(k, dying) ==> !PidLive(ReleaseLock(k, m), dying)
  {
    hide LocksOk, Mode, ListsOk, CpusOk;
    if k.queues[Mutex(m)] == [] {
      SetLockLocks(k, m, false, 0, dying);
    } else {
      var h := k.queues[Mutex(m)][0];
      Waiting(k, h, Mutex(m));
      ModeOf(k, h, Mutex(m), dying);
      MutexMode(m, k.pcbs[h]);
      assert PidLive(k, k.pcbs[h].pid);
      var k1 := SetLock(k, m, true, k.pcbs[h].pid);
      SetLockLocks(k, m, true, k.pcbs[h].pid, dying);
      CoreIgnores(k, k1);
      WakeLocks(k1, h, dying);
    }
  }

  lemma MutexMode(m: nat, pcb: Pcb)
    requires Mode(Mutex(m), pcb)
    ensures pcb.wants == Wants(m) && pcb.resume == ToUser
  {
  }

  /** If the owner of m is not on its way back with m, nobody is. */
  lemma OwnerUnclaimed(k: Sched, t: nat, m: nat, dying: nat)
    requires Core(k) && LocksOk(k, dying) && m < |k.locks| && t in k.pcbs
    requires k.locks[m].owner == k.pcbs[t].pid && k.pcbs[t].wants == Nothing
    ensures Unclaimed(k, m)
  {
    forall x
      ensures !Claims(k, x, m)
    {
      if Claims(k, x, m) {
        assert false;
      }
    }
  }

  lemma AcquireLocks(k: Sched, c: nat, m: nat)
    requires Core(k) && LocksOk(k, 0) && OnTask(k, c) && k.cpus[c].t in k.pcbs && m < |k.locks| && Mutex(m) in k.queues
    requires var pcb := k.pcbs[k.cpus[c].t]; pcb.wants == Nothing || pcb.resume.Reacquire?
    ensures LocksOk(Acquire(k, c, m), 0)
  {
    hide LocksOk, Mode;
    var t := k.cpus[c].t;
    assert IsRunning(k.pcbs, t);
    if !k.locks[m].locked {
      UnlockedUnclaimed(k, m, 0);
      assert PidLive(k, k.pcbs[t].pid);
      var k1 := SetLock(k, m, true, k.pcbs[t].pid);
      SetLockLocks(k, m, true, k.pcbs[t].pid, 0);
      CoreIgnores(k, k1);
      hide ListsOk, CpusOk, PidsOk;
      SetModeLocks(k1, t, ToUser, Wants(m), 0);
    } else {
      hide ListsOk, CpusOk, PidsOk;
      var pcb := k.pcbs[t].(resume := ToUser, wants := Wants(m));
      IsMutexMode(m, pcb);
      SwitchLocks(k, c, Mutex(m), pcb, 0);
    }
  }

  lemma IsMutexMode(m: nat, pcb: Pcb)
    requires pcb.wants == Wants(m) && pcb.resume == ToUser
    ensures Mode(Mutex(m), pcb)
  {
  }

  lemma UnlockedUnclaimed(k: Sched, m: nat, dying: nat)
    requires LocksOk(k, dying) && m < |k.locks| && !k.locks[m].locked
    ensures Unclaimed(k, m)
  {
  }

  lemma CondWaitLocks(k: Sched, c: nat, cv: nat, m: nat)
    requires Core(k) && LocksOk(k, 0) && OnTask(k, c) && k.cpus[c].t in k.pcbs
    requires m < |k.locks| && Mutex(m) in k.queues && Condition(cv) in k.queues
    requires k.pcbs[k.cpus[c].t].wants == Nothing && k.locks[m].owner == k.pcbs[k.cpus[c].t].pid
    ensures LocksOk(CondWait(k, c, cv, m), 0)
  {
    hide LocksOk, Mode;
    var t := k.cpus[c].t;
    assert IsRunning(k.pcbs, t);
    hide ListsOk, CpusOk, PidsOk;
    OwnerUnclaimed(k, t, m, 0);
    ReleaseLockLocks(k, m, 0);
    ReleaseLockKeeps(k, m, t);
    var k1 := ReleaseLock(k, m);
    var pcb := k1.pcbs[t].(resume := Reacquire(m), wants := Wants(m));
    IsConditionMode(cv, m, pcb);
    SwitchLocks(k1, c, Condition(cv), pcb, 0);
  }

  lemma IsConditionMode(cv: nat, m: nat, pcb: Pcb)
    requires pcb.wants == Wants(m) && pcb.resume == Reacquire(m)
    ensures Mode(Condition(cv), pcb)
  {
  }

  /** Handing a mutex on does not touch a task that is running. */
  lemma ReleaseLockKeeps(k: Sched, m: nat, t: nat)
    requires Core(k) && m < |k.locks| && Mutex(m) in k.queues && IsRunning(k.pcbs, t)
    ensures ReleaseLock(k, m).pcbs[t] == k.pcbs[t]
  {
    hide CpusOk, PidsOk;
    if k.queues[Mutex(m)] != [] {
      Waiting(k, k.queues[Mutex(m)][0], Mutex(m));
    }
  }

  lemma SignalLocks(k: Sched, cv: nat)
    requires Core(k) && LocksOk(k, 0) && Condition(cv) in k.queues
    ensures LocksOk(Signal(k, cv), 0)
  {
    hide LocksOk, Mode, ListsOk, CpusOk, PidsOk, Wake;
    var s := k.queues[Condition(cv)];
    if s != [] {
      Waiting(k, s[0], Condition(cv));
      ModeOf(k, s[0], Condition(cv), 0);
      WakeLocks(k, s[0], 0);
    }
  }

  predicate InUser(k: Sched, c: nat) {
    && OnTask(k, c) && k.cpus[c].t in k.pcbs
    && k.pcbs[k.cpus[c].t].resume == ToUser && k.pcbs[k.cpus[c].t].wants == Nothing
  }

  /** Sleeping, waiting for an exit or at a barrier: tasks in user mode may block on those lists. */
  lemma UserSwitchLocks(k: Sched, c: nat, q: QueueId, pcb: Pcb)
    requires Core(k) && LocksOk(k, 0) && InUser(k, c) && q in k.queues
    requires !q.Ready? && !q.Mutex? && !q.Condition?
    requires pcb == k.pcbs[k.cpus[c].t].(wakeup := pcb.wakeup)
    ensures Core(SetPcb(k, k.cpus[c].t, pcb))
    ensures LocksOk(Switch(SetPcb(k, k.cpus[c].t, pcb), c, q), 0)
  {
    hide LocksOk, ListsOk, CpusOk, PidsOk;
    SwitchLocks(k, c, q, pcb, 0);
  }

  lemma BarrierWaitLocks(k: Sched, c: nat, b: nat)
    requires Core(k) && LocksOk(k, 0) && InUser(k, c) && b < |k.barriers| && Barrier(b) in k.queues
    ensures LocksOk(BarrierWait(k, c, b), 0)
  {
    hide LocksOk, ListsOk, CpusOk, PidsOk;
    var bar := k.barriers[b];
    if bar.current + 1 < bar.goal {
      var k1 := k.(barriers := k.barriers[b := bar.(current := bar.current + 1)]);
      CoreIgnores(k, k1);
      LocksIgnoreCpus(k, k1, 0);
      var t := k.cpus[c].t;
      assert SetPcb(k1, t, k1.pcbs[t]) == k1;
      UserSwitchLocks(k1, c, Barrier(b), k1.pcbs[t]);
    } else {
      WakeAllLocks(k, Barrier(b), 0);
      LocksIgnoreCpus(WakeAll(k, Barrier(b)), BarrierWait(k, c, b), 0);
    }
  }

  // ---------------------------------------------------------------- life and death

  lemma CreateLocks(k: Sched, t: nat)
    requires Core(k) && LocksOk(k, 0) && t !in k.pcbs && WaitOf(t) !in k.queues && Ready in k.queues
    ensures LocksOk(Create(k, t), 0)
  {
    var k' := Create(k, t);
    forall q, x | Linked(k', x, q)
      ensures x in k'.pcbs && Mode(q, k'.pcbs[x])
    {
      assert x != t ==> Linked(k, x, q);
      assert x == t && q != Ready ==> Linked(k, t, q);
    }
    forall x, m: nat | Claims(k', x, m)
      ensures m < |k'.locks| && k'.locks[m].locked && k'.locks[m].owner == k'.pcbs[x].pid
    {
      assert Claims(k, x, m);
    }
    forall m: nat | m < |k'.locks|
      ensures LockOk(k', m, 0)
    {
      assert LockOk(k, m, 0);
      if PidLive(k, k.locks[m].owner) {
        var o :| o in k.pcbs && k.pcbs[o].pid == k.locks[m].owner;
        assert o in k'.pcbs && k'.pcbs[o].pid == k.locks[m].owner;
      }
    }
  }

  lemma DropLocks(k: Sched, t: nat)
    requires Core(k) && LocksOk(k, 0) && t in k.pcbs
    ensures LocksOk(Drop(k, t), k.pcbs[t].pid) && !PidLive(Drop(k, t), k.pcbs[t].pid)
  {
    var k' := Drop(k, t);
    UnlinkSeparate(k.queues, t);
    forall q, x | Linked(k', x, q)
      ensures x in k'.pcbs && Mode(q, k'.pcbs[x])
    {
      assert Linked(k, x, q);
    }
    forall x, m: nat | Claims(k', x, m)
      ensures m < |k'.locks| && k'.locks[m].locked && k'.locks[m].owner == k'.pcbs[x].pid
    {
      assert Claims(k, x, m);
    }
    forall m: nat | m < |k'.locks|
      ensures LockOk(k', m, k.pcbs[t].pid)
    {
      assert LockOk(k, m, 0);
      if k.locks[m].locked && k.locks[m].owner != k.pcbs[t].pid {
        var o :| o in k.pcbs && k.pcbs[o].pid == k.locks[m].owner;
        assert o in k'.pcbs && k'.pcbs[o].pid == k.locks[m].owner;
      }
    }
  }

  /** A mutex of a task that is gone is claimed by nobody. */
  lemma DeadUnclaimed(k: Sched, m: nat, dying: nat)
    requires LocksOk(k, dying) && m < |k.locks| && k.locks[m].owner == dying && !PidLive(k, dying)
    ensures Unclaimed(k, m)
  {
    forall x
      ensures !Claims(k, x, m)
    {
      if Claims(k, x, m) {
        assert false;
      }
    }
  }

  lemma {:induction false} ReleaseOwnedLocks(k: Sched, pid: nat, m: nat)
    requires Core(k) && LocksOk(k, pid) && pid != 0 && !PidLive(k, pid)
    requires m <= |k.locks| && forall i | 0 <= i < |k.locks| :: Mutex(i) in k.queues
    requires forall i | 0 <= i < m :: k.locks[i].owner != pid
    ensures LocksOk(ReleaseOwned(k, pid, m), pid) && !PidLive(ReleaseOwned(k, pid, m), pid)
    ensures forall i | 0 <= i < |k.locks| :: ReleaseOwned(k, pid, m).locks[i].owner != pid
    decreases |k.locks| - m
  {
    hide LocksOk, ListsOk, CpusOk, PidsOk, PidLive, ReleaseLock;
    if m < |k.locks| {
      if k.locks[m].owner == pid {
        DeadUnclaimed(k, m, pid);
        ReleaseLockLocks(k, m, pid);
        ReleaseLockOther(k, m);
        ReleaseOwnedLocks(ReleaseLock(k, m), pid, m + 1);
      } else {
        ReleaseOwnedLocks(k, pid, m + 1);
      }
    }
  }

  lemma ReleaseLockOther(k: Sched, m: nat)
    requires Core(k) && m < |k.locks| && Mutex(m) in k.queues
    ensures forall i | 0 <= i < |k.locks| && i != m :: ReleaseLock(k, m).locks[i] == k.locks[i]
    ensures forall t | t in k.pcbs :: ReleaseLock(k, m).pcbs[t].pid == k.pcbs[t].pid
  {
    hide ListsOk, CpusOk, PidsOk;
    if k.queues[Mutex(m)] != [] {
      Waiting(k, k.queues[Mutex(m)][0], Mutex(m));
    }
  }

  /** After release_pcb no mutex is owned by the dead task, and every locked one has a live owner. */
  lemma ReleaseLocks(k: Sched, t: nat)
    requires Core(k) && LocksOk(k, 0) && t in k.pcbs && WaitOf(t) in k.queues && k.pcbs[t].pid != 0
    requires forall i | 0 <= i < |k.locks| :: Mutex(i) in k.queues
    ensures LocksOk(Release(k, t), 0)
    ensures forall i | 0 <= i < |k.locks| :: Release(k, t).locks[i].owner != k.pcbs[t].pid
  {
    hide LocksOk, Mode, ListsOk, CpusOk, PidsOk, Drop, PidLive;
    DropCore(k, t);
    DropLocks(k, t);
    var pid := k.pcbs[t].pid;
    var k1 := ReleaseOwned(Drop(k, t), pid, 0);
    ReleaseOwnedLocks(Drop(k, t), pid, 0);
    NobodyDying(k1, pid);
    WakeAllLocks(k1, WaitOf(t), 0);
    var k2 := WakeAll(k1, WaitOf(t));
    RemoveListLocks(k2, WaitOf(t));
  }

  lemma NobodyDying(k: Sched, dying: nat)
    requires LocksOk(k, dying) && forall i | 0 <= i < |k.locks| :: k.locks[i].owner != dying
    ensures LocksOk(k, 0)
  {
    forall m: nat | m < |k.locks|
      ensures LockOk(k, m, 0)
    {
      assert LockOk(k, m, dying);
    }
  }

  lemma RemoveListLocks(k: Sched, q: QueueId)
    requires LocksOk(k, 0) && !q.Mutex?
    ensures LocksOk(k.(queues := k.queues - {q}), 0)
  {
    var k' := k.(queues := k.queues - {q});
    forall q', x | Linked(k', x, q')
      ensures x in k'.pcbs && Mode(q', k'.pcbs[x])
    {
      assert Linked(k, x, q');
    }
    forall x, m: nat | Claims(k', x, m)
      ensures m < |k'.locks| && k'.locks[m].locked && k'.locks[m].owner == k'.pcbs[x].pid
    {
      assert Claims(k, x, m);
    }
    forall m: nat | m < |k'.locks|
      ensures LockOk(k', m, 0)
    {
      assert LockOk(k, m, 0);
    }
  }
}
