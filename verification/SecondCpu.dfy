/** Before CPU 1 joins: the running task stays at the head of the ready queue. */
module SecondCpu {
  import opened Seqs
  import opened Lists
  import opened SchedModel
  import opened SchedSteps

  /** The ready queue only gets longer at its tail, and the CPUs keep what they run. */
  ghost predicate TailGrows(k: Sched, k': Sched) {
    && k'.cpus == k.cpus && Ready in k.queues && Ready in k'.queues
    && |k.queues[Ready]| <= |k'.queues[Ready]|
    && k'.queues[Ready][..|k.queues[Ready]|] == k.queues[Ready]
  }

  lemma TailGrowsThen(k: Sched, k1: Sched, k2: Sched)
    requires TailGrows(k, k1) && TailGrows(k1, k2)
    ensures TailGrows(k, k2)
  {
    var s, s1, s2 := k.queues[Ready], k1.queues[Ready], k2.queues[Ready];
    assert s2[..|s|] == s2[..|s1|][..|s|];
  }

  lemma TailGrowsAlone(k: Sched, k': Sched)
    requires TailGrows(k, k') && AloneOk(k)
    ensures AloneOk(k')
  {
    var s, s' := k.queues[Ready], k'.queues[Ready];
    assert s != [] ==> s'[..|s|][0] == s'[0];
  }

  lemma WakeGrows(k: Sched, t: nat)
    requires Core(k) && t in k.pcbs && k.pcbs[t].status == TaskBlocked && Ready in k.queues
    ensures TailGrows(k, Wake(k, t))
  {
    assert !Linked(k, t, Ready);
    assert Unlink(k.queues, t)[Ready] == k.queues[Ready];
  }

  lemma {:induction false} WakeAllGrows(k: Sched, q: QueueId)
    requires Core(k) && q in k.queues && q != Ready
    ensures TailGrows(k, WakeAll(k, q))
    decreases |k.queues[q]|
  {
    hide ListsOk, CpusOk, PidsOk, Wake, TailGrows;
    ReadyExists(k);
    if k.queues[q] == [] {
      NothingGrows(k, k);
    } else {
      var t := k.queues[q][0];
      Waiting(k, t, q);
      WakeCore(k, t);
      WakeGrows(k, t);
      WakeAllGrows(Wake(k, t), q);
      TailGrowsThen(k, Wake(k, t), WakeAll(Wake(k, t), q));
    }
  }

  lemma NothingGrows(k: Sched, k': Sched)
    requires Ready in k.queues && k'.queues == k.queues && k'.cpus == k.cpus
    ensures TailGrows(k, k')
  {
  }

  lemma {:induction false} CheckSleepingGrows(k: Sched, now: nat, s: seq<nat>)
    requires Core(k) && NoDup(s) && forall t | t in s :: Linked(k, t, Sleep)
    ensures TailGrows(k, CheckSleeping(k, now, s))
    decreases |s|
  {
    hide ListsOk, CpusOk, PidsOk, Wake, TailGrows;
    ReadyExists(k);
    if s == [] {
      NothingGrows(k, k);
    } else {
      var t := s[0];
      Waiting(k, t, Sleep);
      if k.pcbs[t].wakeup <= now {
        WakeCore(k, t);
        WakeGrows(k, t);
        WakeOthers(k, t, Sleep, s[1..]);
        CheckSleepingGrows(Wake(k, t), now, s[1..]);
        TailGrowsThen(k, Wake(k, t), CheckSleeping(Wake(k, t), now, s[1..]));
      } else {
        CheckSleepingGrows(k, now, s[1..]);
      }
    }
  }

  lemma ReleaseLockGrows(k: Sched, m: nat)
    requires Core(k) && m < |k.locks| && Mutex(m) in k.queues
    ensures TailGrows(k, ReleaseLock(k, m))
  {
    hide ListsOk, CpusOk, PidsOk, Wake, TailGrows;
    ReadyExists(k);
    if k.queues[Mutex(m)] == [] {
      NothingGrows(k, ReleaseLock(k, m));
    } else {
      var h := k.queues[Mutex(m)][0];
      Waiting(k, h, Mutex(m));
      var k1 := SetLock(k, m, true, k.pcbs[h].pid);
      CoreIgnores(k, k1);
      NothingGrows(k, k1);
      WakeGrows(k1, h);
      TailGrowsThen(k, k1, Wake(k1, h));
    }
  }

  lemma {:induction false} ReleaseOwnedGrows(k: Sched, pid: nat, m: nat)
    requires Core(k) && m <= |k.locks| && forall i | 0 <= i < |k.locks| :: Mutex(i) in k.queues
    ensures TailGrows(k, ReleaseOwned(k, pid, m))
    decreases |k.locks| - m
  {
    hide ListsOk, CpusOk, PidsOk, TailGrows, ReleaseLock;
    ReadyExists(k);
    if m == |k.locks| {
      NothingGrows(k, k);
    } else if k.locks[m].owner == pid {
      ReleaseLockGrows(k, m);
      ReleaseOwnedGrows(ReleaseLock(k, m), pid, m + 1);
      TailGrowsThen(k, ReleaseLock(k, m), ReleaseOwned(ReleaseLock(k, m), pid, m + 1));
    } else {
      ReleaseOwnedGrows(k, pid, m + 1);
    }
  }

  /** A task that does not run disappears. */
  lemma DropAlone(k: Sched, t: nat)
    requires Core(k) && AloneOk(k) && !IsRunning(k.pcbs, t)
    ensures AloneOk(Drop(k, t)) && Drop(k, t).cpus == k.cpus
  {
    var s, k' := k.queues[Ready], Drop(k, t);
    assert forall c | c in k.cpus :: k.cpus[c] != On(t);
    if t in s && s[0] != t {
      assert k'.queues[Ready][0] == s[0];
    }
  }

  /** A pick on the only CPU takes the head of the ready queue. */
  lemma PickAlone(k: Sched, c: nat)
    requires Core(k) && c !in k.cpus && c <= 1 && Ready in k.queues
    ensures AloneOk(Pick(k, c))
  {
    var s := k.queues[Ready];
    if 1 !in Pick(k, c).cpus && s != [] {
      assert !IsRunning(k.pcbs, s[0]);
      assert FirstIdle(s, k.pcbs) == 0;
    }
  }

  // ---------------------------------------------------------------- the kernel calls

  lemma SwitchAlone(k: Sched, c: nat, q: QueueId)
    requires Core(k) && OnTask(k, c) && q in k.queues
    ensures Ready in Switch(k, c, q).queues && AloneOk(Switch(k, c, q))
  {
    hide ListsOk, CpusOk, PidsOk, AloneOk, Pick;
    LeaveCore(k, c, q);
    PickCore(Leave(k, c, q), c);
    PickAlone(Leave(k, c, q), c);
  }

  lemma FromIdleAlone(k: Sched, c: nat)
    requires Core(k) && c in k.cpus && k.cpus[c] == Idle
    ensures Ready in FromIdle(k, c).queues && AloneOk(FromIdle(k, c))
  {
    hide ListsOk, CpusOk, PidsOk, AloneOk, Pick;
    IdleCore(k, c);
    PickCore(k.(cpus := k.cpus - {c}), c);
    PickAlone(k.(cpus := k.cpus - {c}), c);
  }

  lemma RescheduleAlone(k: Sched, c: nat, now: nat)
    requires Core(k) && c in k.cpus && Sleep in k.queues
    ensures Ready in Reschedule(k, c, now).queues && AloneOk(Reschedule(k, c, now))
  {
    hide CpusOk, PidsOk, AloneOk;
    var k1 := CheckSleeping(k, now, k.queues[Sleep]);
    if k1.cpus[c].On? {
      SwitchAlone(k1, c, Ready);
    } else {
      FromIdleAlone(k1, c);
    }
  }

  lemma AcquireAlone(k: Sched, c: nat, m: nat)
    requires Core(k) && OnTask(k, c) && k.cpus[c].t in k.pcbs && m < |k.locks| && Mutex(m) in k.queues
    requires Ready in k.queues && AloneOk(k)
    ensures Ready in Acquire(k, c, m).queues && AloneOk(Acquire(k, c, m))
  {
    hide ListsOk, CpusOk, PidsOk;
    var t := k.cpus[c].t;
    var k1 := SetPcb(k, t, k.pcbs[t].(resume := ToUser, wants := Wants(m)));
    CoreIgnores(k, k1);
    if k.locks[m].locked {
      SwitchAlone(k1, c, Mutex(m));
    }
  }

  lemma CondWaitAlone(k: Sched, c: nat, cv: nat, m: nat)
    requires Core(k) && OnTask(k, c) && k.cpus[c].t in k.pcbs
    requires m < |k.locks| && Mutex(m) in k.queues && Condition(cv) in k.queues
    ensures Ready in CondWait(k, c, cv, m).queues && AloneOk(CondWait(k, c, cv, m))
  {
    hide ListsOk, CpusOk, PidsOk, AloneOk;
    var t := k.cpus[c].t;
    var k1 := ReleaseLock(k, m);
    var k2 := SetPcb(k1, t, k1.pcbs[t].(resume := Reacquire(m), wants := Wants(m)));
    CoreIgnores(k1, k2);
    SwitchAlone(k2, c, Condition(cv));
  }

  lemma SignalAlone(k: Sched, cv: nat)
    requires Core(k) && Condition(cv) in k.queues && Ready in k.queues && AloneOk(k)
    ensures Ready in Signal(k, cv).queues && AloneOk(Signal(k, cv))
  {
    hide ListsOk, CpusOk, PidsOk, AloneOk, Wake;
    var s := k.queues[Condition(cv)];
    if s != [] {
      Waiting(k, s[0], Condition(cv));
      WakeCore(k, s[0]);
      WakeGrows(k, s[0]);
      TailGrowsAlone(k, Wake(k, s[0]));
    }
  }

  lemma BarrierWaitAlone(k: Sched, c: nat, b: nat)
    requires Core(k) && OnTask(k, c) && b < |k.barriers| && Barrier(b) in k.queues
    requires Ready in k.queues && AloneOk(k)
    ensures Ready in BarrierWait(k, c, b).queues && AloneOk(BarrierWait(k, c, b))
  {
    hide ListsOk, CpusOk, PidsOk;
    var bar := k.barriers[b];
    if bar.current + 1 < bar.goal {
      var k1 := k.(barriers := k.barriers[b := bar.(current := bar.current + 1)]);
      CoreIgnores(k, k1);
      SwitchAlone(k1, c, Barrier(b));
    } else {
      WakeAllGrows(k, Barrier(b));
      TailGrowsAlone(k, WakeAll(k, Barrier(b)));
    }
  }

  lemma SleepUntilAlone(k: Sched, c: nat, time: nat)
    requires Core(k) && OnTask(k, c) && k.cpus[c].t in k.pcbs && Sleep in k.queues
    ensures Ready in SleepUntil(k, c, time).queues && AloneOk(SleepUntil(k, c, time))
  {
    hide ListsOk, CpusOk, PidsOk, AloneOk;
    var t := k.cpus[c].t;
    var k1 := SetPcb(k, t, k.pcbs[t].(wakeup := time));
    CoreIgnores(k, k1);
    SwitchAlone(k1, c, Sleep);
  }

  lemma CreateAlone(k: Sched, t: nat)
    requires Core(k) && t !in k.pcbs && WaitOf(t) !in k.queues && Ready in k.queues && AloneOk(k)
    ensures AloneOk(Create(k, t))
  {
    TailGrowsAlone(k, Create(k, t));
  }

  /** release_pcb of a task that does not run. */
  lemma ReleaseAlone(k: Sched, t: nat)
    requires Core(k) && t in k.pcbs && WaitOf(t) in k.queues && forall i | 0 <= i < |k.locks| :: Mutex(i) in k.queues
    requires Ready in k.queues && AloneOk(k) && !IsRunning(k.pcbs, t)
    ensures Ready in Release(k, t).queues && AloneOk(Release(k, t))
  {
    hide ListsOk, CpusOk, PidsOk, AloneOk, TailGrows, Drop;
    DropCore(k, t);
    DropAlone(k, t);
    var k1 := ReleaseOwned(Drop(k, t), k.pcbs[t].pid, 0);
    ReleaseOwnedGrows(Drop(k, t), k.pcbs[t].pid, 0);
    var k2 := WakeAll(k1, WaitOf(t));
    WakeAllGrows(k1, WaitOf(t));
    TailGrowsThen(Drop(k, t), k1, k2);
    TailGrowsAlone(Drop(k, t), k2);
    HeadAlone(k2, Release(k, t));
  }

  lemma HeadAlone(k: Sched, k': Sched)
    requires Ready in k.queues && AloneOk(k) && Ready in k'.queues
    requires k'.queues[Ready] == k.queues[Ready] && k'.cpus == k.cpus
    ensures AloneOk(k')
  {
  }
}
