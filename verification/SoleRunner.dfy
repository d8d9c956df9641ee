/** What one runner guarantees: completions in posting order across exceptions,
    and no blocking while there is work.  And what a cancel that never returns
    does to everyone. */
module SoleRunner {
  import opened Operations
  import opened SchedulerSpec
  import opened Engine
  import opened EngineInvariant
  import opened EnginePlace
  import opened EngineRuns

  // ----- first posted, first dispatched

  /** What has been posted is what has been dispatched, then what the runner
      holds, then what is queued, in that order. */
  ghost predicate InOrder(e: Engine, t: Tid)
  {
    && e.runners.Keys == {t}
    && e.dispatched <= e.posted
    && (!e.lock.Closed? ==> e.posted == e.dispatched + Batch(e.runners[t]) + e.queue)
  }

  lemma PostInOrder(posted: seq<Op>, dispatched: seq<Op>, batch: seq<Op>, queue: seq<Op>, op: Op)
    requires posted == dispatched + batch + queue
    ensures posted + [op] == dispatched + batch + (queue + [op]) && dispatched <= posted + [op]
  {
  }

  lemma CallInOrder(e: Engine, t: Tid, a: CallStep)
    requires CallEnabled(e, a) && InOrder(e, t)
    ensures InOrder(CallNext(e, a), t)
  {
    if a.PostBuilt? {
      PostInOrder(e.posted, e.dispatched, Batch(e.runners[t]), e.queue, a.op);
    }
  }

  lemma RunInOrder(e: Engine, t: Tid, u: Tid, a: RunStep)
    requires RunEnabled(e, u, a) && InOrder(e, t) && InvLock(e)
    ensures InOrder(RunNext(e, u, a), t)
  {
    assert u == t;
    match a {
      case Take =>
        assert Batch(e.runners[t]) == [];
        TakeInOrder(e.dispatched, e.queue);
      case Dispatch =>
        var batch := Batch(e.runners[t]);
        assert Batch(RunNext(e, u, a).runners[t]) == batch[1..];
        DispatchInOrder(e.posted, e.dispatched, batch, e.queue);
      case Requeue =>
        assert e.dispatched + Batch(e.runners[t]) + e.queue == e.dispatched + [] + (Batch(e.runners[t]) + e.queue);
      case _ => OtherRunInOrder(e, t, a);
    }
  }

  lemma TakeInOrder(dispatched: seq<Op>, queue: seq<Op>)
    ensures dispatched + [] + queue == dispatched + queue + []
  {
  }

  lemma DispatchInOrder(posted: seq<Op>, dispatched: seq<Op>, batch: seq<Op>, queue: seq<Op>)
    requires batch != []
    ensures dispatched + batch + queue == (dispatched + [batch[0]]) + batch[1..] + queue
    ensures posted == dispatched + batch + queue ==> dispatched + [batch[0]] <= posted
  {
    assert batch == [batch[0]] + batch[1..];
  }

  lemma OtherRunInOrder(e: Engine, t: Tid, a: RunStep)
    requires RunEnabled(e, t, a) && InOrder(e, t) && !a.Take? && !a.Dispatch? && !a.Requeue?
    ensures InOrder(RunNext(e, t, a), t)
  {
  }

  lemma PollInOrder(e: Engine, t: Tid, u: Tid, a: PollStep)
    requires PollEnabled(e, u, a) && InOrder(e, t) && InvLock(e)
    ensures InOrder(PollNext(e, u, a), t)
  {
    hide InvLock, PollEnabled, PollNext, Batch;
    if a.PostHand? {
      PostHandQueues(e, t, u);
      PostInOrder(e.posted, e.dispatched, Batch(e.runners[t]), e.queue, e.lock.hand[0]);
    } else {
      PollQueues(e, t, u, a);
    }
  }

  lemma PostHandQueues(e: Engine, t: Tid, u: Tid)
    requires PollEnabled(e, u, PostHand) && e.runners.Keys == {t}
    ensures e.lock.CancelPass? || e.lock.NotifyPass?
    ensures e.lock.hand != []
    ensures var f, op := PollNext(e, u, PostHand), e.lock.hand[0];
            && f.queue == e.queue + [op] && f.posted == e.posted + [op] && f.dispatched == e.dispatched
            && f.runners.Keys == {t} && Batch(f.runners[t]) == Batch(e.runners[t]) && !f.lock.Closed?
  {
    NotifiedBatch(e.runners);
  }

  lemma PollQueues(e: Engine, t: Tid, u: Tid, a: PollStep)
    requires PollEnabled(e, u, a) && InvLock(e) && e.runners.Keys == {t} && !a.PostHand?
    ensures var f := PollNext(e, u, a);
            && f.queue == e.queue && f.posted == e.posted && f.dispatched == e.dispatched
            && f.runners.Keys == {t} && Batch(f.runners[t]) == Batch(e.runners[t])
            && (e.lock.Closed? ==> f.lock.Closed?)
  {
  }

  lemma StepInOrder(e: Engine, t: Tid, a: Action)
    requires Enabled(e, a) && InOrder(e, t) && InvLock(e)
    ensures InOrder(Next(e, a), t)
  {
    match a {
      case ByAny(c) => CallInOrder(e, t, c);
      case InRun(u, r) => assert u in e.runners; RunInOrder(e, t, u, r);
      case InPollOnce(u, p) => PollInOrder(e, t, u, p);
      case InDestructor(d) => hide InvLock;
    }
  }

  lemma {:induction false} RunStaysInOrder(e: Engine, t: Tid, run: seq<Action>)
    requires Inv(e) && InOrder(e, t) && Legal(e, run)
    ensures InOrder(Final(e, run), t)
    decreases |run|
  {
    if run != [] {
      var f := Next(e, run[0]);
      StepKeepsInv(e, run[0]);
      StepInOrder(e, t, run[0]);
      hide Inv, InOrder, Enabled, Next;
      RunStaysInOrder(f, t, run[1..]);
    }
  }

  /** With one runner, over any number of re-entered run() calls, handlers that
      throw and other threads that post: the sequence of dispatched operations
      is a prefix of the sequence posted. */
  lemma DispatchedInPostingOrder(t: Tid, run: seq<Action>)
    requires Legal(Initial({t}), run)
    ensures var e := Final(Initial({t}), run);
            && e.runners.Keys == {t}
            && e.dispatched <= e.posted
            && (!e.lock.Closed? ==> e.posted == e.dispatched + Batch(e.runners[t]) + e.queue)
  {
    InitialInv({t});
    RunStaysInOrder(Initial({t}), t, run);
  }

  // ----- no blocking with runnable work

  ghost predicate Idle(e: Engine)
  {
    e.queue == [] && e.count == 0 && e.remaining > 0
  }

  /** Every call is made on the runner's own thread: from a handler, or while
      it is not in run(); so what it reads without the mutex is exact. */
  ghost predicate OnThread(e: Engine, t: Tid, a: Action)
  {
    match a
    case ByAny(c) => c.NotifyAll? || (t in e.runners && (e.runners[t].Outside? || e.runners[t].Handling?))
    case InRun(_, r) => (r.IdleCheck? ==> (r.sleep <==> Idle(e))) && (r.WakeUp? ==> (r.again <==> Idle(e)))
    case _ => true
  }

  ghost predicate OnThreadRun(e: Engine, t: Tid, run: seq<Action>)
    requires Legal(e, run)
    decreases |run|
  {
    run != [] ==> OnThread(e, t, run[0]) && OnThreadRun(Next(e, run[0]), t, run[1..])
  }

  /** The condition variable is waited on only when nothing is queued or
      scheduled and work remains; the system's poll is entered without a
      timeout only when nothing is queued or cancelled and an operation waits. */
  ghost predicate NoIdleBlocking(e: Engine, t: Tid)
  {
    && e.runners.Keys == {t}
    && match e.runners[t]
       case Asleep(_) => Idle(e)
       case AtSchedulerTest(b) => b == (e.queue == [])
       case AtPoll(b) => b == (e.queue == [])
       case Cancelling(b) => e.lock.CancelPass? && (b && e.lock.removed == 0 ==> e.queue == [])
       case InPoll(_, infinite) => infinite ==> e.queue == [] && e.sched.cancelled == [] && e.sched.active != []
       case _ => true
  }

  lemma StepNoIdleBlocking(e: Engine, t: Tid, a: Action)
    requires Enabled(e, a) && OnThread(e, t, a) && NoIdleBlocking(e, t) && InvLock(e)
    ensures NoIdleBlocking(Next(e, a), t)
  {
    hide CallNext, RunNext, PollNext, InvLock;
    match a {
      case ByAny(c) => CallNoIdleBlocking(e, t, c);
      case InRun(u, r) => RunStepNoIdleBlocking(e, t, u, r);
      case InPollOnce(u, p) => PollNoIdleBlocking(e, t, u, p);
      case InDestructor(d) => CloseNoIdleBlocking(e, t, d);
    }
  }

  lemma CallNoIdleBlocking(e: Engine, t: Tid, a: CallStep)
    requires CallEnabled(e, a) && OnThread(e, t, ByAny(a)) && NoIdleBlocking(e, t)
    ensures NoIdleBlocking(CallNext(e, a), t)
  {
    hide Cancel, CancelHangs, MarkRange, Schedule;
  }

  lemma CloseNoIdleBlocking(e: Engine, t: Tid, a: CloseStep)
    requires CloseEnabled(e, a) && NoIdleBlocking(e, t) && InvLock(e)
    ensures NoIdleBlocking(CloseNext(e, a), t)
  {
  }

  lemma RunStepNoIdleBlocking(e: Engine, t: Tid, u: Tid, a: RunStep)
    requires RunEnabled(e, u, a) && OnThread(e, t, InRun(u, a)) && NoIdleBlocking(e, t)
    ensures NoIdleBlocking(RunNext(e, u, a), t)
  {
    assert u == t;
  }

  lemma PollNoIdleBlocking(e: Engine, t: Tid, u: Tid, a: PollStep)
    requires PollEnabled(e, u, a) && NoIdleBlocking(e, t) && InvLock(e)
    ensures NoIdleBlocking(PollNext(e, u, a), t)
  {
    assert u in e.runners;
    hide BeginEvent, TryItem, EndEvent;
  }

  lemma {:induction false} RunNoIdleBlocking(e: Engine, t: Tid, run: seq<Action>)
    requires Inv(e) && NoIdleBlocking(e, t) && Legal(e, run) && OnThreadRun(e, t, run)
    ensures NoIdleBlocking(Final(e, run), t) && Inv(Final(e, run))
    decreases |run|
  {
    if run != [] {
      var f := Next(e, run[0]);
      StepKeepsInv(e, run[0]);
      StepNoIdleBlocking(e, t, run[0]);
      hide Inv, NoIdleBlocking, Enabled, Next, OnThread;
      RunNoIdleBlocking(f, t, run[1..]);
    }
  }

  lemma NeverBlocksWithWork(t: Tid, run: seq<Action>)
    requires Legal(Initial({t}), run) && OnThreadRun(Initial({t}), t, run)
    ensures var e := Final(Initial({t}), run);
            && e.runners.Keys == {t}
            && (e.runners[t].InPoll? && e.runners[t].infinite
                ==> e.queue == [] && e.sched.cancelled == [] && e.sched.active != [])
            && (e.runners[t].Asleep? && Usable(e.lock)
                ==> e.queue == [] && e.sched.active == [] && e.sched.cancelled == [] && e.remaining > 0)
  {
    InitialInv({t});
    RunNoIdleBlocking(Initial({t}), t, run);
  }

  // ----- wake-ups

  /** For any number of runners: a sleeper nobody has notified means that
      nothing is queued, or that a runner is on its way to notify_all. */
  lemma NoLostWakeUp(tids: set<Tid>, run: seq<Action>, t: Tid)
    requires Legal(Initial(tids), run)
    ensures var e := Final(Initial(tids), run);
            Is(e, t, Asleep(false)) ==> e.queue == [] || exists u :: Is(e, u, Unwound)
  {
    InitialInv(tids);
    RunKeepsInv(Initial(tids), run);
    var e := Final(Initial(tids), run);
    if Is(e, t, Asleep(false)) && e.queue != [] {
      var u :| u in e.runners && e.runners[u].Unwound?;
      assert Is(e, u, Unwound);
    }
  }

  // ----- a cancel that never returns

  lemma {:induction false} StuckForGood(e: Engine, run: seq<Action>)
    requires Legal(e, run) && e.lock.Stuck?
    ensures Final(e, run).lock.Stuck? && Final(e, run).sched.active == e.sched.active
    decreases |run|
  {
    if run != [] {
      StuckForGood(Next(e, run[0]), run[1..]);
    }
  }

  /** Once a cancel hangs the mutex is never free again, in any continuation:
      the operations of the list are never completed, the count never reaches
      zero, and so no runner ever leaves run() in the ordinary way. */
  lemma HungCancelIsFatal(e: Engine, fd: int, run: seq<Action>)
    requires Inv(e) && Legal(e, run)
    ensures HangsFirst(e, fd, run) ==>
              var f := Final(e, run);
              && f.lock.Stuck? && f.remaining > 0
              && (forall o :: o in e.sched.active ==> o in f.sched.active && o !in f.queue && o !in f.dispatched)
  {
    hide Next, Enabled, CancelHangs, HangsFirst;
    if HangsFirst(e, fd, run) {
      FirstHangs(e, fd, run);
      var f0, rest := Next(e, run[0]), run[1..];
      StepKeepsInv(e, run[0]);
      StuckForGood(f0, rest);
      RunKeepsInv(f0, rest);
      WaitsForever(Final(f0, rest));
    }
  }

  /** The run begins with a cancel that hangs. */
  ghost predicate HangsFirst(e: Engine, fd: int, run: seq<Action>)
  {
    run != [] && run[0] == ByAny(CancelFd(fd)) && CancelHangs(e.sched, fd)
  }

  lemma FirstHangs(e: Engine, fd: int, run: seq<Action>)
    requires Legal(e, run) && HangsFirst(e, fd, run)
    ensures run != [] && Enabled(e, run[0])
    ensures var f := Next(e, run[0]);
            f.lock.Stuck? && f.sched.active == e.sched.active && f.sched.active != []
  {
  }

  lemma WaitsForever(f: Engine)
    requires InvPlace(f) && InvWork(f) && f.sched.active != []
    ensures f.remaining > 0
    ensures forall o :: o in f.sched.active ==> o !in f.queue && o !in f.dispatched
  {
    Holding(f.sched.active, 0, f.place, InActive);
    assert OpWork(f.sched.active[0]) in f.works;
  }
}
