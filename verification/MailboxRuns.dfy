/**
 do_mbox_send and do_mbox_recv with their wait loops, as steps of the scheduler's machine: tasks take the
 mutex of the mailbox, try, block on its send or receive list, are woken and try again, while everything
 else in the kernel goes on around them.
 */
module MailboxRuns {
  import opened Bytes
  import opened Lists
  import opened SchedModel
  import opened SchedSteps
  import opened LockInvariant
  import opened QueueEffects
  import opened SchedRuns
  import opened SchedQueues
  import opened SchedProperties
  import opened LockTheorems
  import opened SchedTheorems
  import opened MailboxModel

  /** The mutex of one mailbox and its two lists, which nobody else uses. */
  datatype Site = Site(m: nat, sends: nat, recvs: nat)

  /** calls holds what each task inside do_mbox_send or do_mbox_recv has asked for, by slot. */
  datatype Mail = Mail(k: Sched, box: Stream, calls: map<nat, Request>)

  /**
   Begin enters the call and asks for the mutex. Attempt is the loop body, once the mutex is in hand: the
   request is served, the other side woken and the mutex released, or the task blocks on its list.
   */
  datatype Step = Other(e: Event) | Begin(c: nat, r: Request) | Attempt(c: nat)

  predicate SiteOk(a: Site) {
    a.m < LOCK_NUM && a.sends < CONDITION_NUM && a.recvs < CONDITION_NUM && a.sends != a.recvs
  }

  function OwnList(a: Site, r: Request): nat {
    if r.Send? then a.sends else a.recvs
  }

  function OtherList(a: Site, r: Request): nat {
    if r.Send? then a.recvs else a.sends
  }

  /** can_write_to_buffer, can_read_from_buffer */
  predicate Fits(box: Stream, r: Request) {
    match r
    case Send(msg) => |msg| + (|box.sent| - |box.received|) <= MAX_MBOX_LENGTH
    case Recv(n) => n <= |box.sent| - |box.received|
  }

  /** The task of CPU c is in a call that can be served now. */
  predicate CanServe(w: Mail, c: nat) {
    OnTask(w.k, c) && w.k.cpus[c].t in w.calls && Fits(w.box, w.calls[w.k.cpus[c].t])
  }

  /** Whoever is on a list of the mailbox is in a call that belongs there and cannot be served; callers are on no other condition's list. */
  ghost predicate ListsTrue(a: Site, k: Sched, box: Stream, calls: map<nat, Request>) {
    forall t, cv: nat | Linked(k, t, Condition(cv)) && (t in calls || cv == a.sends || cv == a.recvs) ::
      t in calls && cv == OwnList(a, calls[t]) && !Fits(box, calls[t])
  }

  ghost predicate CallersWant(a: Site, k: Sched, calls: map<nat, Request>) {
    forall t | t in calls :: WantsOk(k, t, a.m)
  }

  ghost predicate MailOk(a: Site, w: Mail) {
    SiteOk(a) && Inv(w.k) && StreamOk(w.box) && CallersWant(a, w.k, w.calls) && ListsTrue(a, w.k, w.box, w.calls)
  }

  predicate CanStep(a: Site, w: Mail, s: Step) {
    match s
    case Other(e) =>
      && Enabled(w.k, e)
      && (e.WaitCall? ==> e.cv != a.sends && e.cv != a.recvs)
      && (e.Return? ==> w.k.cpus[e.c].t !in w.calls)
    case Begin(c, _) => OnTask(w.k, c) && InUser(w.k, c)
    case Attempt(c) => OnTask(w.k, c) && Enabled(w.k, Return(c)) && w.k.cpus[c].t in w.calls
  }

  /** What the step is to the scheduler. */
  function Events(a: Site, w: Mail, s: Step): seq<Event>
    requires CanStep(a, w, s)
  {
    match s
    case Other(e) => [e]
    case Begin(c, _) => [AcquireCall(c, a.m)]
    case Attempt(c) =>
      var r := w.calls[w.k.cpus[c].t];
      if CanServe(w, c) then [Return(c), BroadcastCall(c, OtherList(a, r)), ReleaseCall(c, a.m)]
      else [Return(c), WaitCall(c, OwnList(a, r), a.m)]
  }

  function Alive(k: Sched, calls: map<nat, Request>): map<nat, Request> {
    map t | t in calls && t in k.pcbs :: calls[t]
  }

  ghost function Take(a: Site, w: Mail, s: Step): (w': Mail)
    requires MailOk(a, w) && CanStep(a, w, s)
  {
    hide Inv, ListsTrue, CallersWant, Next, Enabled, InUser;
    EventsRun(a, w, s);
    var k' := After(w.k, Events(a, w, s));
    match s
    case Other(_) => Mail(k', w.box, Alive(k', w.calls))
    case Begin(c, r) => Mail(k', w.box, w.calls[w.k.cpus[c].t := r])
    case Attempt(c) =>
      var t := w.k.cpus[c].t;
      if CanServe(w, c) then Mail(k', Serve(w.box, w.calls[t]), w.calls - {t}) else Mail(k', w.box, w.calls)
  }

  // ---------------------------------------------------------------- the steps exist

  /** After Return the caller is in user mode and owns the mutex. */
  lemma Returned(a: Site, w: Mail, c: nat)
    requires MailOk(a, w) && CanStep(a, w, Attempt(c))
    ensures var k1 := Next(w.k, Return(c));
            Inv(k1) && InUser(k1, c) && OwnsLock(k1, c, a.m) && k1.cpus == w.k.cpus && k1.queues == w.k.queues
  {
    hide Inv, StreamOk, ListsTrue;
    NextInv(w.k, Return(c));
    ReturnOwns(w.k, c);
    assert WantsOk(w.k, w.k.cpus[c].t, a.m);
  }

  lemma Broadcasted(k: Sched, c: nat, cv: nat, m: nat)
    requires Inv(k) && InUser(k, c) && OwnsLock(k, c, m) && cv < CONDITION_NUM
    ensures var k' := Next(k, BroadcastCall(c, cv));
            Inv(k') && InUser(k', c) && OwnsLock(k', c, m) && k'.cpus == k.cpus && k'.pcbs.Keys == k.pcbs.Keys
  {
    hide Inv, Core, LocksOk, Fixed, AloneOk, WakeAll, OnlyQueues;
    InvParts(k);
    NextInv(k, BroadcastCall(c, cv));
    WakeAllQueues(k, Condition(cv));
  }

  lemma EventsRun(a: Site, w: Mail, s: Step)
    requires MailOk(a, w) && CanStep(a, w, s)
    ensures CanRun(w.k, Events(a, w, s))
  {
    hide Inv, Next, StreamOk, ListsTrue, CallersWant, CanServe, InUser, OwnsLock;
    match s {
      case Other(e) => OneEvent(w.k, e);
      case Begin(c, r) => OneEvent(w.k, AcquireCall(c, a.m));
      case Attempt(c) =>
        var r := w.calls[w.k.cpus[c].t];
        Returned(a, w, c);
        var k1 := Next(w.k, Return(c));
        if CanServe(w, c) {
          Broadcasted(k1, c, OtherList(a, r), a.m);
          OneEvent(Next(k1, BroadcastCall(c, OtherList(a, r))), ReleaseCall(c, a.m));
          MoreEvents(k1, BroadcastCall(c, OtherList(a, r)), [ReleaseCall(c, a.m)]);
          MoreEvents(w.k, Return(c), [BroadcastCall(c, OtherList(a, r)), ReleaseCall(c, a.m)]);
        } else {
          OneEvent(k1, WaitCall(c, OwnList(a, r), a.m));
          MoreEvents(w.k, Return(c), [WaitCall(c, OwnList(a, r), a.m)]);
        }
    }
  }

  lemma OneEvent(k: Sched, e: Event)
    requires Inv(k) && Enabled(k, e)
    ensures CanRun(k, [e]) && After(k, [e]) == Next(k, e) && Inv(Next(k, e))
  {
    hide Inv, Next, Enabled;
    NextInv(k, e);
    assert [e][1..] == [];
  }

  lemma MoreEvents(k: Sched, e: Event, es: seq<Event>)
    requires Inv(k) && Enabled(k, e) && Inv(Next(k, e)) && CanRun(Next(k, e), es)
    ensures CanRun(k, [e] + es) && After(k, [e] + es) == After(Next(k, e), es)
  {
    hide Inv, Next, Enabled;
    assert ([e] + es)[1..] == es;
  }

  // ---------------------------------------------------------------- what one event keeps

  /** A condition's list holds who was there before and was not all woken, and who has just blocked. */
  lemma OnCondition(k: Sched, e: Event, t: nat, cv: nat)
    requires Inv(k) && Enabled(k, e) && cv < CONDITION_NUM && Linked(Next(k, e), t, Condition(cv))
    ensures || (Linked(k, t, Condition(cv)) && !(e.BroadcastCall? && e.cv == cv))
            || (e.WaitCall? && e.cv == cv && OnTask(k, e.c) && t == k.cpus[e.c].t)
  {
    hide Inv, Next, Core, LocksOk, AloneOk, Fixed;
    InvParts(k);
    var q := Condition(cv);
    QueueStep(k, e, q);
    if t in Remaining(k, e, q)[Drops(k, e, q)..] {
      var i :| 0 <= i < |Remaining(k, e, q)| && Remaining(k, e, q)[i] == t;
      if e.KillCall? {
        InRemaining(k, FindPid(k.pcbs, e.pid, 0), q, i);
      }
    }
  }

  lemma ConditionExists(k: Sched, t: nat, cv: nat)
    requires Inv(k) && Linked(k, t, Condition(cv))
    ensures cv < CONDITION_NUM && t in k.pcbs && k.pcbs[t].status == TaskBlocked
  {
  }

  lemma WaiterInUser(k: Sched, e: Event, m: nat)
    requires Enabled(k, e) && e.WaitCall?
    ensures OnTask(k, e.c) && !WantsOk(k, k.cpus[e.c].t, m)
  {
  }

  /** No event but its own return ends a caller's demand for the mutex. */
  lemma EventWants(a: Site, k: Sched, e: Event, calls: map<nat, Request>)
    requires Inv(k) && Enabled(k, e) && CallersWant(a, k, calls) && (e.Return? ==> k.cpus[e.c].t !in calls)
    ensures CallersWant(a, Next(k, e), Alive(Next(k, e), calls))
  {
    hide Inv, Next;
    forall t | t in Alive(Next(k, e), calls)
      ensures WantsOk(Next(k, e), t, a.m)
    {
      assert WantsOk(k, t, a.m);
      StillWants(k, e, t, a.m);
    }
  }

  /** Who is on a condition's list was there before, or is no caller and waits on another list. */
  lemma WasListed(a: Site, k: Sched, e: Event, calls: map<nat, Request>, t: nat, cv: nat)
    requires Inv(k) && Enabled(k, e) && Inv(Next(k, e)) && CallersWant(a, k, calls)
    requires e.WaitCall? ==> e.cv != a.sends && e.cv != a.recvs
    requires Linked(Next(k, e), t, Condition(cv)) && (t in calls || cv == a.sends || cv == a.recvs)
    ensures Linked(k, t, Condition(cv)) && t in Next(k, e).pcbs
  {
    hide Inv, Next, Enabled, WantsOk;
    ConditionExists(Next(k, e), t, cv);
    OnCondition(k, e, t, cv);
    if e.WaitCall? {
      WaiterInUser(k, e, a.m);
    }
  }

  /** Any event but a wait on the mailbox's lists and the return of a caller keeps the books of the mailbox. */
  lemma EventKeeps(a: Site, k: Sched, e: Event, box: Stream, calls: map<nat, Request>)
    requires SiteOk(a) && Inv(k) && Enabled(k, e)
    requires CallersWant(a, k, calls) && ListsTrue(a, k, box, calls)
    requires e.WaitCall? ==> e.cv != a.sends && e.cv != a.recvs
    requires e.Return? ==> k.cpus[e.c].t !in calls
    ensures var k' := Next(k, e);
            Inv(k') && CallersWant(a, k', Alive(k', calls)) && ListsTrue(a, k', box, Alive(k', calls))
  {
    hide Inv, Next, Fits, Enabled, CallersWant, Linked;
    NextInv(k, e);
    EventWants(a, k, e, calls);
    var k' := Next(k, e);
    forall t, cv: nat | Linked(k', t, Condition(cv)) && (t in calls || cv == a.sends || cv == a.recvs)
      ensures t in Alive(k', calls) && cv == OwnList(a, calls[t]) && !Fits(box, calls[t])
    {
      WasListed(a, k, e, calls, t, cv);
    }
  }

  lemma NobodyDies(k: Sched, e: Event, calls: map<nat, Request>)
    requires Inv(k) && Enabled(k, e) && !e.ExitCall? && !e.KillCall? && forall t | t in calls :: t in k.pcbs
    ensures Alive(Next(k, e), calls) == calls
  {
    hide Inv, Next, Enabled;
    forall t | t in calls
      ensures t in Next(k, e).pcbs
    {
      Survivors(k, e, t);
    }
  }

  /** A running task is on no list of a condition. */
  lemma RunnerNotListed(k: Sched, c: nat, t: nat, cv: nat)
    requires Inv(k) && OnCpu(k, c, t)
    ensures !Linked(k, t, Condition(cv))
  {
    hide Inv;
    if Linked(k, t, Condition(cv)) {
      ConditionExists(k, t, cv);
      InvParts(k);
      CallerRuns(k, c);
    }
  }

  // ---------------------------------------------------------------- what every step keeps

  /** The caller that asks for the mutex wants it, and is on no list of a condition. */
  lemma AsksForMutex(k: Sched, c: nat, m: nat)
    requires Inv(k) && InUser(k, c) && m < LOCK_NUM
    ensures var k', t := Next(k, AcquireCall(c, m)), k.cpus[c].t;
            Inv(k') && WantsOk(k', t, m) && forall cv: nat :: !Linked(k', t, Condition(cv))
  {
    hide Inv, Core, LocksOk, Fixed, AloneOk, Acquire, OnlyQueues, OthersKeep;
    var e, t := AcquireCall(c, m), k.cpus[c].t;
    NextInv(k, e);
    InvParts(k);
    AcquireQueues(k, c, m);
    hide Next;
    forall cv: nat
      ensures !Linked(Next(k, e), t, Condition(cv))
    {
      if Linked(Next(k, e), t, Condition(cv)) {
        ConditionExists(Next(k, e), t, cv);
        OnCondition(k, e, t, cv);
        RunnerNotListed(k, c, t, cv);
      }
    }
  }

  lemma NewCaller(a: Site, k: Sched, box: Stream, calls: map<nat, Request>, t: nat, r: Request)
    requires CallersWant(a, k, calls) && ListsTrue(a, k, box, calls)
    requires WantsOk(k, t, a.m) && forall cv: nat :: !Linked(k, t, Condition(cv))
    ensures CallersWant(a, k, calls[t := r]) && ListsTrue(a, k, box, calls[t := r])
  {
    hide Linked, Fits, WantsOk;
  }

  lemma BeginKeeps(a: Site, w: Mail, c: nat, r: Request)
    requires MailOk(a, w) && CanStep(a, w, Begin(c, r))
    ensures MailOk(a, Take(a, w, Begin(c, r)))
  {
    hide Inv, Next, StreamOk, Fits, ListsTrue;
    EventsRun(a, w, Begin(c, r));
    var e, t := AcquireCall(c, a.m), w.k.cpus[c].t;
    OneEvent(w.k, e);
    EventKeeps(a, w.k, e, w.box, w.calls);
    NobodyDies(w.k, e, w.calls);
    AsksForMutex(w.k, c, a.m);
    hide CallersWant, Enabled;
    NewCaller(a, Next(w.k, e), w.box, w.calls, t, r);
  }

  lemma OtherKeeps(a: Site, w: Mail, e: Event)
    requires MailOk(a, w) && CanStep(a, w, Other(e))
    ensures MailOk(a, Take(a, w, Other(e)))
  {
    hide Inv, Next, StreamOk, Fits, ListsTrue, CallersWant, Enabled;
    EventsRun(a, w, Other(e));
    OneEvent(w.k, e);
    EventKeeps(a, w.k, e, w.box, w.calls);
  }

  /** The caller that has the mutex leaves the books: it is on no list. */
  lemma CallerOut(a: Site, w: Mail, c: nat)
    requires MailOk(a, w) && CanStep(a, w, Attempt(c))
    ensures var k1, calls := Next(w.k, Return(c)), w.calls - {w.k.cpus[c].t};
            Inv(k1) && CallersWant(a, k1, calls) && ListsTrue(a, k1, w.box, calls) && InUser(k1, c) && OwnsLock(k1, c, a.m)
            && k1.cpus == w.k.cpus
  {
    hide Inv, Next, Fits;
    var t := w.k.cpus[c].t;
    var calls := w.calls - {t};
    forall cv: nat
      ensures !Linked(w.k, t, Condition(cv))
    {
      RunnerNotListed(w.k, c, t, cv);
    }
    hide Linked;
    assert ListsTrue(a, w.k, w.box, calls);
    Returned(a, w, c);
    EventKeeps(a, w.k, Return(c), w.box, calls);
    NobodyDies(w.k, Return(c), calls);
  }

  /** Serving one side makes nothing fit on the same side that did not fit before. */
  lemma NoEasier(box: Stream, r: Request, waiting: Request)
    requires StreamOk(box) && Fits(box, r) && !Fits(box, waiting) && waiting.Send? == r.Send?
    ensures !Fits(Serve(box, r), waiting)
  {
  }

  /** The books after a request is served: on the other side nobody waits any more. */
  lemma ServedLists(a: Site, k: Sched, box: Stream, calls: map<nat, Request>, r: Request)
    requires SiteOk(a) && StreamOk(box) && ListsTrue(a, k, box, calls) && Fits(box, r)
    requires forall t :: !Linked(k, t, Condition(OtherList(a, r)))
    ensures ListsTrue(a, k, Serve(box, r), calls)
  {
    hide Linked, StreamOk, Serve, Fits;
    forall t, cv: nat | Linked(k, t, Condition(cv)) && (t in calls || cv == a.sends || cv == a.recvs)
      ensures t in calls && cv == OwnList(a, calls[t]) && !Fits(Serve(box, r), calls[t])
    {
      assert cv != OtherList(a, r);
      NoEasier(box, r, calls[t]);
    }
  }

  lemma AttemptServes(a: Site, w: Mail, c: nat)
    requires MailOk(a, w) && CanStep(a, w, Attempt(c)) && CanServe(w, c)
    ensures MailOk(a, Take(a, w, Attempt(c)))
  {
    hide Inv, Next, StreamOk, Fits, ListsTrue, Enabled, InUser, OwnsLock;
    EventsRun(a, w, Attempt(c));
    CallerOut(a, w, c);
    var t := w.k.cpus[c].t;
    var r, calls, k1 := w.calls[t], w.calls - {t}, Next(w.k, Return(c));
    WakesOtherSide(a, k1, c, w.box, calls, r);
    var e := BroadcastCall(c, OtherList(a, r));
    var k2 := Next(k1, e);
    AttemptServed(a, k2, c, Serve(w.box, r), calls);
    MoreEvents(k1, e, [ReleaseCall(c, a.m)]);
    MoreEvents(w.k, Return(c), [e, ReleaseCall(c, a.m)]);
  }

  lemma WakesOtherSide(a: Site, k: Sched, c: nat, box: Stream, calls: map<nat, Request>, r: Request)
    requires SiteOk(a) && Inv(k) && StreamOk(box) && CallersWant(a, k, calls) && ListsTrue(a, k, box, calls)
    requires InUser(k, c) && OwnsLock(k, c, a.m) && Fits(box, r)
    ensures var e := BroadcastCall(c, OtherList(a, r));
            var k' := Next(k, e);
            && Enabled(k, e) && Inv(k') && CallersWant(a, k', calls) && ListsTrue(a, k', Serve(box, r), calls)
            && InUser(k', c) && OwnsLock(k', c, a.m)
  {
    hide Inv, Next, StreamOk, Fits, ListsTrue, InUser, OwnsLock;
    var e := BroadcastCall(c, OtherList(a, r));
    Broadcasted(k, c, OtherList(a, r), a.m);
    EventKeeps(a, k, e, box, calls);
    NobodyDies(k, e, calls);
    forall t
      ensures !Linked(Next(k, e), t, Condition(OtherList(a, r)))
    {
      if Linked(Next(k, e), t, Condition(OtherList(a, r))) {
        OnCondition(k, e, t, OtherList(a, r));
      }
    }
    ServedLists(a, Next(k, e), box, calls, r);
  }

  lemma AttemptServed(a: Site, k: Sched, c: nat, box: Stream, calls: map<nat, Request>)
    requires SiteOk(a) && Inv(k) && StreamOk(box) && CallersWant(a, k, calls) && ListsTrue(a, k, box, calls)
    requires OwnsLock(k, c, a.m)
    ensures var e := ReleaseCall(c, a.m);
            var k' := Next(k, e);
            && Enabled(k, e) && CanRun(k, [e]) && After(k, [e]) == k'
            && Inv(k') && CallersWant(a, k', calls) && ListsTrue(a, k', box, calls)
  {
    hide Inv, Next, StreamOk, ListsTrue, OwnsLock;
    OneEvent(k, ReleaseCall(c, a.m));
    EventKeeps(a, k, ReleaseCall(c, a.m), box, calls);
    NobodyDies(k, ReleaseCall(c, a.m), calls);
  }

  /** The caller goes back to its list: it is the only one that is new there, and it does not fit. */
  lemma BlocksAgain(a: Site, k: Sched, c: nat, box: Stream, calls: map<nat, Request>, r: Request)
    requires SiteOk(a) && Inv(k) && StreamOk(box) && CallersWant(a, k, calls) && ListsTrue(a, k, box, calls)
    requires InUser(k, c) && OwnsLock(k, c, a.m) && !Fits(box, r) && k.cpus[c].t !in calls
    ensures var e := WaitCall(c, OwnList(a, r), a.m);
            var k', calls' := Next(k, e), calls[k.cpus[c].t := r];
            && Enabled(k, e) && CanRun(k, [e]) && After(k, [e]) == k'
            && Inv(k') && CallersWant(a, k', calls') && ListsTrue(a, k', box, calls')
  {
    hide Inv, Next, Fits, OwnsLock;
    var e, t := WaitCall(c, OwnList(a, r), a.m), k.cpus[c].t;
    OneEvent(k, e);
    var k' := Next(k, e);
    WaitIsAtomic(k, c, OwnList(a, r), a.m);
    forall x | x in calls
      ensures WantsOk(k', x, a.m)
    {
      assert WantsOk(k, x, a.m);
      Survivors(k, e, x);
      StillWants(k, e, x, a.m);
    }
    hide Enabled, WantsOk;
    forall x, cv: nat | Linked(k', x, Condition(cv)) && (x in calls || x == t || cv == a.sends || cv == a.recvs)
      ensures if x == t then cv == OwnList(a, r) else x in calls && cv == OwnList(a, calls[x]) && !Fits(box, calls[x])
    {
      ConditionExists(k', x, cv);
      OnCondition(k, e, x, cv);
      RunnerNotListed(k, c, t, cv);
    }
  }

  lemma AttemptBlocks(a: Site, w: Mail, c: nat)
    requires MailOk(a, w) && CanStep(a, w, Attempt(c)) && !CanServe(w, c)
    ensures MailOk(a, Take(a, w, Attempt(c)))
  {
    hide Inv, Next, StreamOk, Fits, ListsTrue, Enabled, InUser, OwnsLock;
    EventsRun(a, w, Attempt(c));
    CallerOut(a, w, c);
    var t := w.k.cpus[c].t;
    var r, calls, k1 := w.calls[t], w.calls - {t}, Next(w.k, Return(c));
    BlocksAgain(a, k1, c, w.box, calls, r);
    assert calls[t := r] == w.calls;
    MoreEvents(w.k, Return(c), [WaitCall(c, OwnList(a, r), a.m)]);
  }

  /** Every step keeps the mailbox in order. */
  lemma TakeOk(a: Site, w: Mail, s: Step)
    requires MailOk(a, w) && CanStep(a, w, s)
    ensures MailOk(a, Take(a, w, s))
  {
    hide MailOk, Take, CanStep;
    match s {
      case Other(e) => OtherKeeps(a, w, e);
      case Begin(c, r) => BeginKeeps(a, w, c, r);
      case Attempt(c) =>
        if CanServe(w, c) { AttemptServes(a, w, c); } else { AttemptBlocks(a, w, c); }
    }
  }

  // ---------------------------------------------------------------- whole runs

  ghost predicate CanGo(a: Site, w: Mail, ss: seq<Step>)
    requires MailOk(a, w)
    decreases |ss|
  {
    hide MailOk;
    ss == [] || (CanStep(a, w, ss[0]) && (TakeOk(a, w, ss[0]); CanGo(a, Take(a, w, ss[0]), ss[1..])))
  }

  ghost function Gone(a: Site, w: Mail, ss: seq<Step>): (w': Mail)
    requires MailOk(a, w) && CanGo(a, w, ss)
    ensures MailOk(a, w')
    decreases |ss|
  {
    hide MailOk;
    if ss == [] then w else TakeOk(a, w, ss[0]); Gone(a, Take(a, w, ss[0]), ss[1..])
  }

  /** The requests in the order in which they were served. */
  ghost function Served(a: Site, w: Mail, ss: seq<Step>): seq<Request>
    requires MailOk(a, w) && CanGo(a, w, ss)
    decreases |ss|
  {
    hide MailOk;
    if ss == [] then [] else
    TakeOk(a, w, ss[0]);
    ServedNow(a, w, ss[0]) + Served(a, Take(a, w, ss[0]), ss[1..])
  }

  ghost function ServedNow(a: Site, w: Mail, s: Step): seq<Request>
    requires MailOk(a, w) && CanStep(a, w, s)
  {
    if s.Attempt? && CanServe(w, s.c) then [w.calls[w.k.cpus[s.c].t]] else []
  }

  /**
   Over every run, whatever is interleaved, what the mailbox does is what a FIFO does that serves the
   requests one by one, in the order in which the tasks got through; each of them was served whole.
   */
  lemma {:induction false} RunIsFifo(a: Site, w: Mail, ss: seq<Step>)
    requires MailOk(a, w) && CanGo(a, w, ss)
    ensures StreamOk(w.box) && Gone(a, w, ss).box == ServeAll(w.box, Served(a, w, ss))
    decreases |ss|
  {
    hide MailOk;
    BoxOk(a, w);
    if ss != [] {
      TakeOk(a, w, ss[0]);
      var w1 := Take(a, w, ss[0]);
      RunIsFifo(a, w1, ss[1..]);
      BoxAfter(a, w, ss[0]);
      var now, rest := ServedNow(a, w, ss[0]), Served(a, w1, ss[1..]);
      if now != [] {
        assert (now + rest)[0] == now[0] && (now + rest)[1..] == rest;
      } else {
        assert now + rest == rest;
      }
    }
  }

  /** The messages of the send requests. */
  function Messages(rs: seq<Request>): seq<seq<Byte>> {
    if rs == [] then [] else (if rs[0].Send? then [rs[0].msg] else []) + Messages(rs[1..])
  }

  /** How much the receive requests ask for. */
  function Asked(rs: seq<Request>): nat {
    if rs == [] then 0 else (if rs[0].Recv? then rs[0].n else 0) + Asked(rs[1..])
  }

  /**
   What went in over a run is the messages of the served sends, each in one piece, one after the other;
   the served receives took what they asked for, and took it in the order in which it went in.
   */
  lemma {:induction false} RunStreams(a: Site, w: Mail, ss: seq<Step>)
    requires MailOk(a, w) && CanGo(a, w, ss)
    ensures var box, rs := Gone(a, w, ss).box, Served(a, w, ss);
            && box.sent == w.box.sent + Concat(Messages(rs)) && |box.received| == |w.box.received| + Asked(rs)
            && |box.received| <= |box.sent| && box.received == box.sent[..|box.received|]
    decreases |ss|
  {
    hide MailOk, CanStep, Take, ServedNow;
    BoxOk(a, Gone(a, w, ss));
    hide StreamOk;
    if ss == [] {
      assert w.box.sent + [] == w.box.sent;
    } else {
      TakeOk(a, w, ss[0]);
      var w1 := Take(a, w, ss[0]);
      RunStreams(a, w1, ss[1..]);
      StepStreams(a, w, ss[0]);
      var now, rest := ServedNow(a, w, ss[0]), Served(a, w1, ss[1..]);
      MessagesThen(now, rest);
      hide Messages, Concat, Asked;
      assert (w.box.sent + Concat(Messages(now))) + Concat(Messages(rest))
          == w.box.sent + (Concat(Messages(now)) + Concat(Messages(rest)));
    }
  }

  lemma MessagesThen(now: seq<Request>, rest: seq<Request>)
    requires |now| <= 1
    ensures Concat(Messages(now + rest)) == Concat(Messages(now)) + Concat(Messages(rest))
    ensures Asked(now + rest) == Asked(now) + Asked(rest)
  {
    if now == [] {
      assert now + rest == rest;
    } else {
      assert (now + rest)[1..] == rest;
      if now[0].Send? {
        assert ([now[0].msg] + Messages(rest))[1..] == Messages(rest);
      } else {
        assert [] + Messages(rest) == Messages(rest);
      }
    }
  }

  /** A request is served only when it fits, so it is served whole. */
  lemma StepStreams(a: Site, w: Mail, s: Step)
    requires MailOk(a, w) && CanStep(a, w, s)
    ensures var box, now := Take(a, w, s).box, ServedNow(a, w, s);
            && |now| <= 1 && box.sent == w.box.sent + Concat(Messages(now))
            && |box.received| == |w.box.received| + Asked(now)
  {
    hide Inv, ListsTrue, CallersWant, Take;
    BoxAfter(a, w, s);
  }

  lemma BoxOk(a: Site, w: Mail)
    requires MailOk(a, w)
    ensures StreamOk(w.box)
  {
  }

  lemma BoxAfter(a: Site, w: Mail, s: Step)
    requires MailOk(a, w) && CanStep(a, w, s)
    ensures var now := ServedNow(a, w, s);
            StreamOk(w.box) && Take(a, w, s).box == (if now == [] then w.box else Serve(w.box, now[0])) && |now| <= 1
  {
    hide Inv, ListsTrue, CallersWant, After, CanRun, Next;
    EventsRun(a, w, s);
  }

  /** One at a time: whoever is at the mailbox's buffer owns its mutex, so no two CPUs are there together. */
  lemma OneAtATime(a: Site, w: Mail, c: nat, c': nat)
    requires MailOk(a, w) && CanStep(a, w, Attempt(c)) && CanStep(a, w, Attempt(c'))
    ensures c == c' && w.k.locks[a.m].owner == w.k.pcbs[w.k.cpus[c].t].pid
  {
    hide Inv, ListsTrue, StreamOk;
    ReturnOwns(w.k, c);
    ReturnOwns(w.k, c');
    assert WantsOk(w.k, w.k.cpus[c].t, a.m) && WantsOk(w.k, w.k.cpus[c'].t, a.m);
    InvParts(w.k);
    SamePid(w.k, c, c');
  }

  lemma SamePid(k: Sched, c: nat, c': nat)
    requires Core(k) && OnTask(k, c) && OnTask(k, c') && k.cpus[c].t in k.pcbs && k.cpus[c'].t in k.pcbs
    requires k.pcbs[k.cpus[c].t].pid == k.pcbs[k.cpus[c'].t].pid
    ensures c == c'
  {
    assert OnCpu(k, c, k.cpus[c].t) && OnCpu(k, c', k.cpus[c].t);
    hide ListsOk;
  }

  /**
   No wake-up is lost, over every run: a task inside do_mbox_send or do_mbox_recv that is blocked waits for
   the mutex, which a live task holds, or is on its list of the mailbox and its request does not fit.
   */
  lemma BlockedForAReason(a: Site, w: Mail, ss: seq<Step>, t: nat)
    requires MailOk(a, w) && CanGo(a, w, ss)
    ensures var w' := Gone(a, w, ss);
            t in w'.calls ==>
              && t in w'.k.pcbs && a.m < |w'.k.locks|
              && (w'.k.pcbs[t].status == TaskBlocked ==>
                    || (Linked(w'.k, t, Mutex(a.m)) && w'.k.locks[a.m].locked && PidLive(w'.k, w'.k.locks[a.m].owner))
                    || (Linked(w'.k, t, Condition(OwnList(a, w'.calls[t]))) && !Fits(w'.box, w'.calls[t])))
  {
    hide CanGo, Gone, CanStep, Take, Inv, Fits;
    var w' := Gone(a, w, ss);
    if t in w'.calls {
      assert WantsOk(w'.k, t, a.m);
      InvParts(w'.k);
      if w'.k.pcbs[t].status == TaskBlocked {
        var q := BlockedWanter(w'.k, t, a.m);
      }
    }
  }

  /** A blocked task that wants a mutex is on its list, which somebody live holds, or on a condition's list. */
  lemma BlockedWanter(k: Sched, t: nat, m: nat) returns (q: QueueId)
    requires Core(k) && LocksOk(k, 0) && WantsOk(k, t, m) && k.pcbs[t].status == TaskBlocked
    ensures Linked(k, t, q) && m < |k.locks| && (q == Mutex(m) || q.Condition?)
    ensures q == Mutex(m) ==> k.locks[m].locked && PidLive(k, k.locks[m].owner)
  {
    hide CpusOk, PidsOk;
    q :| Linked(k, t, q);
    assert Mode(q, k.pcbs[t]);
    assert LockOk(k, m, 0);
  }

  /** A call ends by being served, whole, or with the death of the task; until then it asks for the same. */
  lemma CallEnds(a: Site, w: Mail, s: Step, t: nat)
    requires MailOk(a, w) && CanStep(a, w, s) && t in w.calls
    ensures var w' := Take(a, w, s);
            if t in w'.calls then w'.calls[t] == w.calls[t]
            else t !in w'.k.pcbs || (s.Attempt? && OnCpu(w.k, s.c, t) && ServedNow(a, w, s) == [w.calls[t]])
  {
    hide Inv, ListsTrue, After, CanRun, Next;
    assert WantsOk(w.k, t, a.m);
    EventsRun(a, w, s);
  }

  lemma FirstWaiterIsAnother(k: Sched, t: nat, m: nat)
    requires Core(k) && IsRunning(k.pcbs, t) && Mutex(m) in k.queues
    ensures k.pcbs[t].pid != 0
    ensures k.queues[Mutex(m)] != [] ==> k.queues[Mutex(m)][0] in k.pcbs && k.pcbs[k.queues[Mutex(m)][0]].pid != k.pcbs[t].pid
  {
    var s := k.queues[Mutex(m)];
    if s != [] {
      assert Linked(k, s[0], Mutex(m));
    }
  }

  /** After a release the caller goes on in user mode, and the mutex is another's or nobody's. */
  lemma ReleaseGivesAway(k: Sched, c: nat, m: nat)
    requires Inv(k) && InUser(k, c) && OwnsLock(k, c, m)
    ensures var k', t := Next(k, ReleaseCall(c, m)), k.cpus[c].t;
            InUser(k', c) && OnCpu(k', c, t) && m < |k'.locks| && k'.locks[m].owner != k'.pcbs[t].pid
  {
    hide Inv, Core, LocksOk, AloneOk, Fixed, ReleaseLock, OnlyQueues;
    InvParts(k);
    CallerRuns(k, c);
    FirstWaiterIsAnother(k, k.cpus[c].t, m);
    ReleaseLockQueues(k, m);
  }

  /** Served, the caller is back in user mode; otherwise it is the last on its list. Either way it has left the mutex. */
  ghost predicate HasLeft(a: Site, w: Mail, c: nat, t: nat, k': Sched) {
    && t in w.calls && t in k'.pcbs && a.m < |k'.locks| && k'.locks[a.m].owner != k'.pcbs[t].pid
    && if CanServe(w, c) then InUser(k', c) && OnCpu(k', c, t)
       else var q := Condition(OwnList(a, w.calls[t]));
            q in w.k.queues && q in k'.queues && k'.queues[q] == w.k.queues[q] + [t]
  }

  /** No task leaves do_mbox_send or do_mbox_recv, or blocks in it, with the mutex of the mailbox in hand. */
  lemma AttemptLeaves(a: Site, w: Mail, c: nat)
    requires MailOk(a, w) && CanStep(a, w, Attempt(c))
    ensures HasLeft(a, w, c, w.k.cpus[c].t, Take(a, w, Attempt(c)).k)
  {
    hide Inv, Next, StreamOk, ListsTrue, CallersWant, CanServe, InUser, OwnsLock;
    EventsRun(a, w, Attempt(c));
    Returned(a, w, c);
    var t, k1 := w.k.cpus[c].t, Next(w.k, Return(c));
    var r := w.calls[t];
    if CanServe(w, c) {
      var e := BroadcastCall(c, OtherList(a, r));
      Broadcasted(k1, c, OtherList(a, r), a.m);
      var k2 := Next(k1, e);
      ReleaseGivesAway(k2, c, a.m);
      OneEvent(k2, ReleaseCall(c, a.m));
      MoreEvents(k1, e, [ReleaseCall(c, a.m)]);
      MoreEvents(w.k, Return(c), [e, ReleaseCall(c, a.m)]);
      InUserIs(Next(k2, ReleaseCall(c, a.m)), c);
    } else {
      var e := WaitCall(c, OwnList(a, r), a.m);
      WaitIsAtomic(k1, c, OwnList(a, r), a.m);
      OneEvent(k1, e);
      MoreEvents(w.k, Return(c), [e]);
    }
  }

  lemma InUserIs(k: Sched, c: nat)
    requires InUser(k, c)
    ensures OnTask(k, c) && k.cpus[c].t in k.pcbs
  {
  }

  /** The state after init_mbox. */
  lemma MailboxAtBoot(a: Site)
    requires SiteOk(a)
    ensures MailOk(a, Mail(Boot(), Stream([], []), map[]))
  {
    BootInv();
    hide Inv;
    var k := Boot();
    assert forall t, cv: nat :: !Linked(k, t, Condition(cv));
  }
}
