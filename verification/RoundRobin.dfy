/** Round robin: how the ready queue evolves under the moves of the scheduler. */
module RoundRobin {
  import opened Seqs
  import opened Lists
  import opened SchedModel
  import opened SchedSteps

  /** How many ready tasks stand before t in the queue s. */
  function ReadyBefore(s: seq<nat>, pcbs: map<nat, Pcb>, t: nat): nat {
    if s == [] || s[0] == t then 0 else
    (if IsReady(pcbs, s[0]) then 1 else 0) + ReadyBefore(s[1..], pcbs, t)
  }

  function Rank(k: Sched, t: nat): nat
    requires Ready in k.queues
  {
    ReadyBefore(k.queues[Ready], k.pcbs, t)
  }

  // ---------------------------------------------------------------- the queue alone

  lemma {:induction false} RankAppend(s: seq<nat>, pcbs: map<nat, Pcb>, x: nat, t: nat)
    requires t in s
    ensures ReadyBefore(s + [x], pcbs, t) == ReadyBefore(s, pcbs, t)
  {
    if s[0] != t {
      assert (s + [x])[1..] == s[1..] + [x];
      RankAppend(s[1..], pcbs, x, t);
    }
  }

  lemma {:induction false} RankFewer(s: seq<nat>, pcbs: map<nat, Pcb>, pcbs': map<nat, Pcb>, t: nat)
    requires forall x | x in s && IsReady(pcbs', x) :: IsReady(pcbs, x)
    ensures ReadyBefore(s, pcbs', t) <= ReadyBefore(s, pcbs, t)
  {
    if s != [] && s[0] != t {
      RankFewer(s[1..], pcbs, pcbs', t);
    }
  }

  lemma {:induction false} RankRemove(s: seq<nat>, pcbs: map<nat, Pcb>, x: nat, t: nat)
    requires x in s && x != t
    ensures ReadyBefore(Without(s, x), pcbs, t) <= ReadyBefore(s, pcbs, t)
  {
    if s[0] == x {
      assert Without(s, x) == s[1..];
    } else if s[0] != t {
      assert Without(s, x) == [s[0]] + Without(s[1..], x);
      assert Without(s, x)[1..] == Without(s[1..], x);
      RankRemove(s[1..], pcbs, x, t);
    }
  }

  /** Running the first task that is not running puts one ready task less before everyone else. */
  lemma {:induction false} RankPick(s: seq<nat>, pcbs: map<nat, Pcb>, pcbs': map<nat, Pcb>, t: nat)
    requires NoDup(s) && t in s && IsReady(pcbs, t)
    requires var i := FirstIdle(s, pcbs); i < |s| && s[i] != t && IsReady(pcbs, s[i]) && !IsReady(pcbs', s[i])
    requires forall x | x in s && IsReady(pcbs', x) :: IsReady(pcbs, x)
    ensures ReadyBefore(s, pcbs', t) + 1 <= ReadyBefore(s, pcbs, t)
  {
    if IsRunning(pcbs, s[0]) {
      RankPick(s[1..], pcbs, pcbs', t);
    } else {
      RankFewer(s[1..], pcbs, pcbs', t);
    }
  }

  // ---------------------------------------------------------------- the moves

  /**
   From k to k' at most tasks ahead of a waiting ready task disappear, and after n picks that did
   not pick it at least n have; no ready task is blocked.
   */
  ghost predicate Evolves(k: Sched, k': Sched, n: nat) {
    && Ready in k.queues && Ready in k'.queues
    && (forall t | IsReady(k.pcbs, t) && IsReady(k'.pcbs, t) :: Rank(k', t) + n <= Rank(k, t))
    && (n == 0 ==> forall t | IsReady(k.pcbs, t) && t in k'.pcbs :: IsReady(k'.pcbs, t))
    && (forall t | IsReady(k.pcbs, t) && t in k'.pcbs :: k'.pcbs[t].status != TaskBlocked)
  }

  lemma EvolvesThen(k: Sched, k1: Sched, k2: Sched, n: nat)
    requires Evolves(k, k1, 0) && Evolves(k1, k2, n) && k2.pcbs.Keys <= k1.pcbs.Keys
    ensures Evolves(k, k2, n)
  {
  }

  lemma ReadyOnQueue(k: Sched, t: nat)
    requires Core(k) && IsReady(k.pcbs, t)
    ensures Ready in k.queues && t in k.queues[Ready]
  {
    var q :| Linked(k, t, q);
  }

  /** If statuses and the ready queue stay, nothing else matters. */
  lemma EvolvesSame(k: Sched, k': Sched)
    requires Ready in k.queues && Ready in k'.queues && k'.queues[Ready] == k.queues[Ready]
    requires k'.pcbs.Keys == k.pcbs.Keys && forall t | t in k.pcbs :: k'.pcbs[t].status == k.pcbs[t].status
    ensures Evolves(k, k', 0)
  {
    forall t | IsReady(k.pcbs, t)
      ensures Rank(k', t) <= Rank(k, t)
    {
      RankFewer(k.queues[Ready], k.pcbs, k'.pcbs, t);
    }
  }

  /** A task x that was not ready leaves its list and possibly joins the tail of the ready queue. */
  lemma EvolvesMove(k: Sched, k': Sched, x: nat, back: bool)
    requires Core(k) && Ready in k'.queues && !IsReady(k.pcbs, x)
    requires var rest := Unlink(k.queues, x)[Ready]; k'.queues[Ready] == if back then rest + [x] else rest
    requires k'.pcbs.Keys <= k.pcbs.Keys
    requires forall t | t in k'.pcbs && t != x :: k'.pcbs[t].status == k.pcbs[t].status
    ensures Evolves(k, k', 0)
  {
    var s := k.queues[Ready];
    var rest := Unlink(k.queues, x)[Ready];
    forall t | IsReady(k.pcbs, t) && t in k'.pcbs
      ensures Rank(k', t) <= Rank(k, t)
    {
      ReadyOnQueue(k, t);
      UnlinkSeparate(k.queues, x);
      assert t in rest && x !in rest;
      RankFewer(rest, k.pcbs, k'.pcbs, t);
      if back {
        RankAppend(rest, k'.pcbs, x, t);
      }
      if x in s {
        RankRemove(s, k.pcbs, x, t);
      }
    }
  }

  lemma LeaveEvolves(k: Sched, c: nat, q: QueueId)
    requires Core(k) && OnTask(k, c) && k.cpus[c].t in k.pcbs && q in k.queues
    ensures Evolves(k, Leave(k, c, q), 0)
  {
    var t := k.cpus[c].t;
    assert IsRunning(k.pcbs, t);
    EvolvesMove(k, Leave(k, c, q), t, q == Ready);
  }

  lemma WakeEvolves(k: Sched, t: nat)
    requires Core(k) && t in k.pcbs && k.pcbs[t].status == TaskBlocked && Ready in k.queues
    ensures Evolves(k, Wake(k, t), 0)
  {
    EvolvesMove(k, Wake(k, t), t, true);
  }

  /** The pick: either it takes t, or one task before t is gone. */
  lemma PickEvolves(k: Sched, c: nat)
    requires Core(k) && Ready in k.queues
    ensures Evolves(k, Pick(k, c), 1)
  {
    var s := k.queues[Ready];
    var k' := Pick(k, c);
    forall t | IsReady(k.pcbs, t) && IsReady(k'.pcbs, t)
      ensures Rank(k', t) + 1 <= Rank(k, t)
    {
      ReadyOnQueue(k, t);
      var i := FirstIdle(s, k.pcbs);
      assert s[IndexOf(s, t)] == t;
      assert Linked(k, s[i], Ready);
      RankPick(s, k.pcbs, k'.pcbs, t);
    }
  }

  lemma SwitchEvolves(k: Sched, c: nat, q: QueueId)
    requires Core(k) && OnTask(k, c) && k.cpus[c].t in k.pcbs && q in k.queues
    ensures Evolves(k, Switch(k, c, q), 1)
  {
    hide ListsOk, CpusOk, PidsOk, Leave, Pick, Evolves;
    LeaveCore(k, c, q);
    LeaveEvolves(k, c, q);
    var k1 := Leave(k, c, q);
    PickCore(k1, c);
    PickEvolves(k1, c);
    EvolvesThen(k, k1, Pick(k1, c), 1);
  }

  lemma {:induction false} WakeAllEvolves(k: Sched, q: QueueId)
    requires Core(k) && q in k.queues && q != Ready
    ensures Evolves(k, WakeAll(k, q), 0)
    decreases |k.queues[q]|
  {
    hide ListsOk, CpusOk, PidsOk, Wake, Evolves;
    ReadyExists(k);
    if k.queues[q] == [] {
      EvolvesSame(k, k);
    } else {
      var t := k.queues[q][0];
      Waiting(k, t, q);
      WakeCore(k, t);
      WakeEvolves(k, t);
      WakeAllEvolves(Wake(k, t), q);
      EvolvesThen(k, Wake(k, t), WakeAll(Wake(k, t), q), 0);
    }
  }

  lemma {:induction false} CheckSleepingEvolves(k: Sched, now: nat, s: seq<nat>)
    requires Core(k) && NoDup(s) && forall t | t in s :: Linked(k, t, Sleep)
    ensures Evolves(k, CheckSleeping(k, now, s), 0)
    decreases |s|
  {
    hide ListsOk, CpusOk, PidsOk, Wake, Evolves;
    ReadyExists(k);
    if s == [] {
      EvolvesSame(k, k);
    } else {
      var t := s[0];
      Waiting(k, t, Sleep);
      if k.pcbs[t].wakeup <= now {
        WakeCore(k, t);
        WakeEvolves(k, t);
        WakeOthers(k, t, Sleep, s[1..]);
        CheckSleepingEvolves(Wake(k, t), now, s[1..]);
        EvolvesThen(k, Wake(k, t), CheckSleeping(Wake(k, t), now, s[1..]), 0);
      } else {
        CheckSleepingEvolves(k, now, s[1..]);
      }
    }
  }

  lemma RescheduleEvolves(k: Sched, c: nat, now: nat)
    requires Core(k) && c in k.cpus && Sleep in k.queues
    ensures Evolves(k, Reschedule(k, c, now), 1)
  {
    hide PidsOk, Evolves;
    var k1 := CheckSleeping(k, now, k.queues[Sleep]);
    CheckSleepingEvolves(k, now, k.queues[Sleep]);
    if k1.cpus[c].On? {
      assert IsRunning(k1.pcbs, k1.cpus[c].t);
      SwitchEvolves(k1, c, Ready);
    } else {
      FromIdleEvolves(k1, c);
    }
    EvolvesThen(k, k1, Reschedule(k, c, now), 1);
  }

  lemma FromIdleEvolves(k: Sched, c: nat)
    requires Core(k) && c in k.cpus && k.cpus[c] == Idle
    ensures Evolves(k, FromIdle(k, c), 1)
  {
    hide ListsOk, CpusOk, PidsOk, Pick, Evolves;
    IdleCore(k, c);
    var k1 := k.(cpus := k.cpus - {c});
    EvolvesSame(k, k1);
    PickCore(k1, c);
    PickEvolves(k1, c);
    EvolvesThen(k, k1, Pick(k1, c), 1);
  }

  lemma ReleaseLockEvolves(k: Sched, m: nat)
    requires Core(k) && m < |k.locks| && Mutex(m) in k.queues
    ensures Evolves(k, ReleaseLock(k, m), 0)
  {
    hide ListsOk, CpusOk, PidsOk, Wake, Evolves;
    ReadyExists(k);
    if k.queues[Mutex(m)] == [] {
      EvolvesSame(k, ReleaseLock(k, m));
    } else {
      var h := k.queues[Mutex(m)][0];
      Waiting(k, h, Mutex(m));
      var k1 := SetLock(k, m, true, k.pcbs[h].pid);
      CoreIgnores(k, k1);
      EvolvesSame(k, k1);
      WakeCore(k1, h);
      WakeEvolves(k1, h);
      EvolvesThen(k, k1, Wake(k1, h), 0);
    }
  }

  lemma {:induction false} ReleaseOwnedEvolves(k: Sched, pid: nat, m: nat)
    requires Core(k) && m <= |k.locks| && forall i | 0 <= i < |k.locks| :: Mutex(i) in k.queues
    ensures Evolves(k, ReleaseOwned(k, pid, m), 0)
    decreases |k.locks| - m
  {
    hide ListsOk, CpusOk, PidsOk, Evolves, ReleaseLock;
    ReadyExists(k);
    if m == |k.locks| {
      EvolvesSame(k, k);
    } else if k.locks[m].owner == pid {
      ReleaseLockEvolves(k, m);
      ReleaseOwnedEvolves(ReleaseLock(k, m), pid, m + 1);
      EvolvesThen(k, ReleaseLock(k, m), ReleaseOwned(ReleaseLock(k, m), pid, m + 1), 0);
    } else {
      ReleaseOwnedEvolves(k, pid, m + 1);
    }
  }

  lemma DropEvolves(k: Sched, t: nat)
    requires Core(k) && t in k.pcbs
    ensures Evolves(k, Drop(k, t), 0)
  {
    var s, k' := k.queues[Ready], Drop(k, t);
    UnlinkSeparate(k.queues, t);
    forall x | IsReady(k.pcbs, x) && x in k'.pcbs
      ensures Rank(k', x) <= Rank(k, x)
    {
      var rest := k'.queues[Ready];
      RankFewer(rest, k.pcbs, k'.pcbs, x);
      if t in s {
        RankRemove(s, k.pcbs, t, x);
      }
    }
  }

  lemma ReleaseEvolves(k: Sched, t: nat)
    requires Core(k) && t in k.pcbs && WaitOf(t) in k.queues && forall i | 0 <= i < |k.locks| :: Mutex(i) in k.queues
    ensures Evolves(k, Release(k, t), 0)
  {
    hide ListsOk, CpusOk, PidsOk, Evolves, Drop;
    DropCore(k, t);
    DropEvolves(k, t);
    ReadyExists(k);
    var k1 := ReleaseOwned(Drop(k, t), k.pcbs[t].pid, 0);
    ReleaseOwnedEvolves(Drop(k, t), k.pcbs[t].pid, 0);
    EvolvesThen(k, Drop(k, t), k1, 0);
    var k2 := WakeAll(k1, WaitOf(t));
    WakeAllEvolves(k1, WaitOf(t));
    EvolvesThen(k, k1, k2, 0);
    EvolvesSame(k2, Release(k, t));
    EvolvesThen(k, k2, Release(k, t), 0);
  }

  lemma CreateEvolves(k: Sched, t: nat)
    requires Core(k) && t !in k.pcbs && WaitOf(t) !in k.queues && Ready in k.queues
    ensures Evolves(k, Create(k, t), 0)
  {
    var s, k' := k.queues[Ready], Create(k, t);
    forall x | IsReady(k.pcbs, x)
      ensures Rank(k', x) <= Rank(k, x)
    {
      ReadyOnQueue(k, x);
      assert Linked(k, t, Ready) ==> t in k.pcbs;
      RankAppend(s, k'.pcbs, t, x);
      RankFewer(s, k.pcbs, k'.pcbs, x);
    }
  }

  // ---------------------------------------------------------------- the kernel calls

  /** A change of what t is in the middle of, then a switch. */
  lemma SetThenSwitchEvolves(k: Sched, k1: Sched, c: nat, q: QueueId)
    requires Core(k1) && Ready in k.queues && k1.queues == k.queues && k1.cpus == k.cpus && k1.pcbs.Keys == k.pcbs.Keys
    requires forall t | t in k.pcbs :: k1.pcbs[t].status == k.pcbs[t].status
    requires OnTask(k1, c) && k1.cpus[c].t in k1.pcbs && q in k1.queues
    ensures Evolves(k, Switch(k1, c, q), 1)
  {
    hide ListsOk, CpusOk, PidsOk, Evolves, Switch;
    EvolvesSame(k, k1);
    SwitchEvolves(k1, c, q);
    EvolvesThen(k, k1, Switch(k1, c, q), 1);
  }

  lemma AcquireEvolves(k: Sched, c: nat, m: nat)
    requires Core(k) && OnTask(k, c) && k.cpus[c].t in k.pcbs && m < |k.locks| && Mutex(m) in k.queues
    ensures Evolves(k, Acquire(k, c, m), if k.locks[m].locked then 1 else 0)
  {
    hide ListsOk, CpusOk, PidsOk, Evolves;
    ReadyExists(k);
    var t := k.cpus[c].t;
    var k1 := SetPcb(k, t, k.pcbs[t].(resume := ToUser, wants := Wants(m)));
    CoreIgnores(k, k1);
    if k.locks[m].locked {
      SetThenSwitchEvolves(k, k1, c, Mutex(m));
    } else {
      EvolvesSame(k, Acquire(k, c, m));
    }
  }

  lemma CondWaitEvolves(k: Sched, c: nat, cv: nat, m: nat)
    requires Core(k) && OnTask(k, c) && k.cpus[c].t in k.pcbs
    requires m < |k.locks| && Mutex(m) in k.queues && Condition(cv) in k.queues
    ensures Evolves(k, CondWait(k, c, cv, m), 1)
  {
    hide ListsOk, CpusOk, PidsOk, Evolves, ReleaseLock, Switch;
    var t := k.cpus[c].t;
    var k1 := ReleaseLock(k, m);
    ReleaseLockEvolves(k, m);
    var k2 := SetPcb(k1, t, k1.pcbs[t].(resume := Reacquire(m), wants := Wants(m)));
    CoreIgnores(k1, k2);
    ReadyExists(k1);
    SetThenSwitchEvolves(k1, k2, c, Condition(cv));
    EvolvesThen(k, k1, CondWait(k, c, cv, m), 1);
  }

  lemma SignalEvolves(k: Sched, cv: nat)
    requires Core(k) && Condition(cv) in k.queues
    ensures Evolves(k, Signal(k, cv), 0)
  {
    hide ListsOk, CpusOk, PidsOk, Evolves, Wake;
    ReadyExists(k);
    var s := k.queues[Condition(cv)];
    if s == [] {
      EvolvesSame(k, k);
    } else {
      Waiting(k, s[0], Condition(cv));
      WakeEvolves(k, s[0]);
    }
  }

  lemma BarrierWaitEvolves(k: Sched, c: nat, b: nat)
    requires Core(k) && OnTask(k, c) && k.cpus[c].t in k.pcbs && b < |k.barriers| && Barrier(b) in k.queues
    ensures Evolves(k, BarrierWait(k, c, b), if k.barriers[b].current + 1 < k.barriers[b].goal then 1 else 0)
  {
    hide ListsOk, CpusOk, PidsOk, Evolves, Switch;
    ReadyExists(k);
    var bar := k.barriers[b];
    if bar.current + 1 < bar.goal {
      var k1 := k.(barriers := k.barriers[b := bar.(current := bar.current + 1)]);
      CoreIgnores(k, k1);
      SetThenSwitchEvolves(k, k1, c, Barrier(b));
    } else {
      var k1 := WakeAll(k, Barrier(b));
      WakeAllEvolves(k, Barrier(b));
      ReadyExists(k1);
      EvolvesSame(k1, BarrierWait(k, c, b));
      EvolvesThen(k, k1, BarrierWait(k, c, b), 0);
    }
  }

  lemma SleepUntilEvolves(k: Sched, c: nat, time: nat)
    requires Core(k) && OnTask(k, c) && k.cpus[c].t in k.pcbs && Sleep in k.queues
    ensures Evolves(k, SleepUntil(k, c, time), 1)
  {
    hide ListsOk, CpusOk, PidsOk, Evolves, Switch;
    ReadyExists(k);
    var t := k.cpus[c].t;
    var k1 := SetPcb(k, t, k.pcbs[t].(wakeup := time));
    CoreIgnores(k, k1);
    SetThenSwitchEvolves(k, k1, c, Sleep);
  }
}
