/** The scheduler's part of the invariant, step by step. */
module EngineScheduler {
  import opened Operations
  import opened SchedulerSpec
  import opened SchedulerLaws
  import opened Engine
  import opened EngineInvariant

  /** Nothing built is known to the scheduler yet. */
  lemma BuiltIsNew(e: Engine, op: Op)
    requires InvPlace(e) && InvResults(e) && op in e.built
    ensures op !in e.sched.active && op !in e.sched.cancelled && op !in e.sched.flags && op !in e.sched.results
  {
    assert At(e, op, Built);
  }

  lemma CallSched(e: Engine, a: CallStep)
    requires CallEnabled(e, a) && InvPlace(e) && InvResults(e) && InvSched(e) && InvEpoll(e)
    ensures InvSched(CallNext(e, a)) && InvEpoll(CallNext(e, a))
  {
    hide *;
    match a {
      case ScheduleBuilt(op) => ScheduleSched(e, op);
      case CancelFd(fd) => CancelSched(e, fd);
      case _ => OtherCallSched(e, a);
    }
  }

  lemma ScheduleSched(e: Engine, op: Op)
    requires CallEnabled(e, ScheduleBuilt(op)) && InvPlace(e) && InvResults(e) && InvSched(e) && InvEpoll(e)
    ensures InvSched(CallNext(e, ScheduleBuilt(op))) && InvEpoll(CallNext(e, ScheduleBuilt(op)))
  {
    hide InvPlace, InvResults, Partition, EpollAgrees, Schedule;
    BuiltIsNew(e, op);
    ScheduleKeepsPartition(e.sched, op);
    ScheduleKeepsEpoll(e.sched, op);
    ScheduleCounts(e.sched, op);
  }

  lemma ScheduleCounts(s: Sched, op: Op)
    ensures |Schedule(s, op).active| == |s.active| + 1 && Schedule(s, op).cancelled == s.cancelled
  {
  }

  lemma CancelSched(e: Engine, fd: int)
    requires CallEnabled(e, CancelFd(fd)) && InvSched(e) && InvEpoll(e)
    ensures InvSched(CallNext(e, CancelFd(fd))) && InvEpoll(CallNext(e, CancelFd(fd)))
  {
    hide EpollAgrees, Cancel, CancelHangs;
    CancelKeepsPartition(e.sched, fd);
    CancelKeepsEpoll(e.sched, fd);
    CancelMoves(e.sched, fd);
  }

  lemma OtherCallSched(e: Engine, a: CallStep)
    requires CallEnabled(e, a) && InvSched(e) && InvEpoll(e) && !a.ScheduleBuilt? && !a.CancelFd?
    ensures InvSched(CallNext(e, a)) && InvEpoll(CallNext(e, a))
  {
    hide Partition, EpollAgrees, MidPass;
  }

  lemma RunSched(e: Engine, t: Tid, a: RunStep)
    requires RunEnabled(e, t, a) && InvSched(e) && InvEpoll(e)
    ensures InvSched(RunNext(e, t, a)) && InvEpoll(RunNext(e, t, a))
  {
    hide Partition, EpollAgrees, MidPass;
  }

  lemma DropFirst(s: Sched)
    requires Partition(s) && s.cancelled != []
    ensures Partition(s.(cancelled := s.cancelled[1..]))
  {
  }

  lemma SameActiveAgrees(s: Sched, t: Sched)
    requires EpollAgrees(s) && s.active == t.active && s.epoll == t.epoll
    ensures EpollAgrees(t)
  {
    forall fd ensures AgreesAt(t, fd) {
      assert AgreesAt(s, fd);
    }
  }

  lemma EraseSched(e: Engine, t: Tid)
    requires PollEnabled(e, t, EraseCancelled) && InvSched(e) && InvEpoll(e)
    ensures InvSched(PollNext(e, t, EraseCancelled)) && InvEpoll(PollNext(e, t, EraseCancelled))
  {
    DropFirst(e.sched);
    SameActiveAgrees(e.sched, PollNext(e, t, EraseCancelled).sched);
  }

  lemma NextEventSched(e: Engine, t: Tid)
    requires PollEnabled(e, t, NextEvent) && InvSched(e) && InvEpoll(e)
    ensures InvSched(PollNext(e, t, NextEvent)) && InvEpoll(PollNext(e, t, NextEvent))
  {
    var event := e.runners[t].events[0];
    if event.Ready? {
      BeginMidPass(e.sched, event.fd, event.readable);
    }
  }

  lemma TryItemCounts(s: Sched, p: Pass, outcome: Outcome)
    requires AtItem(s, p)
    ensures var t := TryItem(s, p, outcome);
            && |t.sched.active| + |t.posted| == |s.active| && t.sched.cancelled == s.cancelled
            && (t.posted == [] ==> t.sched == s) && |t.posted| <= 1
  {
  }

  lemma AttemptNext(e: Engine, t: Tid, outcome: Outcome)
    requires PollEnabled(e, t, Attempt(outcome))
    ensures e.lock.NotifyPass? && e.lock.event.On? && AtItem(e.sched, e.lock.event.pass)
    ensures var step, f := TryItem(e.sched, e.lock.event.pass, outcome), PollNext(e, t, Attempt(outcome));
            && f.sched == step.sched && f.count == e.count
            && f.lock.NotifyPass? && f.lock.event == On(step.pass) && f.lock.removed == e.lock.removed + |step.posted|
  {
    TryItemCounts(e.sched, e.lock.event.pass, outcome);
  }

  lemma AttemptSched(e: Engine, t: Tid, outcome: Outcome)
    requires PollEnabled(e, t, Attempt(outcome)) && InvSched(e) && InvEpoll(e)
    ensures InvSched(PollNext(e, t, Attempt(outcome))) && InvEpoll(PollNext(e, t, Attempt(outcome)))
  {
    hide MidPass, TryItem, AtItem, PollEnabled, PollNext;
    AttemptNext(e, t, outcome);
    var p := e.lock.event.pass;
    TryItemKeepsPartition(e.sched, p, outcome);
    TryItemKeepsMidPass(e.sched, p, outcome);
    TryItemCounts(e.sched, p, outcome);
  }

  lemma FinishEventSched(e: Engine, t: Tid)
    requires PollEnabled(e, t, FinishEvent) && InvSched(e) && InvEpoll(e)
    ensures InvSched(PollNext(e, t, FinishEvent)) && InvEpoll(PollNext(e, t, FinishEvent))
  {
    EndEventAgrees(e.sched, e.lock.event.pass);
  }

  lemma PollSched(e: Engine, t: Tid, a: PollStep)
    requires PollEnabled(e, t, a) && InvSched(e) && InvEpoll(e) && InvLock(e)
    ensures InvSched(PollNext(e, t, a)) && InvEpoll(PollNext(e, t, a))
  {
    match a {
      case EraseCancelled => EraseSched(e, t);
      case NextEvent => NextEventSched(e, t);
      case Attempt(outcome) => AttemptSched(e, t, outcome);
      case FinishEvent => FinishEventSched(e, t);
      case _ => OtherPollSched(e, t, a);
    }
  }

  lemma OtherPollSched(e: Engine, t: Tid, a: PollStep)
    requires PollEnabled(e, t, a) && InvSched(e) && InvEpoll(e)
    requires !a.EraseCancelled? && !a.NextEvent? && !a.Attempt? && !a.FinishEvent?
    ensures InvSched(PollNext(e, t, a)) && InvEpoll(PollNext(e, t, a))
  {
    hide Partition, EpollAgrees, MidPass;
  }

  // ----- result slots

  lemma CallResults(e: Engine, a: CallStep)
    requires CallEnabled(e, a) && InvPlace(e) && InvResults(e) && InvSched(e)
    ensures InvResults(CallNext(e, a))
  {
    match a {
      case ScheduleBuilt(op) => BuiltIsNew(e, op);
      case PostBuilt(op) => BuiltIsNew(e, op);
      case CancelFd(fd) => CancelResults(e, fd);
      case _ =>
    }
  }

  lemma CancelResults(e: Engine, fd: int)
    requires CallEnabled(e, CancelFd(fd)) && InvPlace(e) && InvResults(e) && InvSched(e)
    ensures InvResults(CallNext(e, CancelFd(fd)))
  {
    hide InvPlace, Range, Placed, MarkRange, Cancel, CancelHangs;
    CancelMoves(e.sched, fd);
    RangeActive(e, fd);
    CancelledOk(e.sched, e.place, fd);
    hide ResultsOk;
  }

  lemma CancelledOk(s: Sched, place: map<Op, Place>, fd: int)
    requires ResultsOk(place, s.results, s.flags)
    requires forall o :: o in Range(s, fd) ==> o in place && place[o] == InActive
    ensures var t := MarkRange(s, fd);
            && ResultsOk(place, t.results, t.flags)
            && ResultsOk(Placed(place, Range(s, fd), InCancelled), t.results, t.flags)
    ensures Range(s, fd) == [] ==> Placed(place, Range(s, fd), InCancelled) == place
  {
    MarkFacts(s, fd);
    hide MarkRange, Range;
  }

  lemma RunResults(e: Engine, t: Tid, a: RunStep)
    requires RunEnabled(e, t, a) && InvPlace(e) && InvResults(e)
    ensures InvResults(RunNext(e, t, a))
  {
    match a {
      case Dispatch => DispatchResults(e, t);
      case Take => MovedResults(e.place, Queued, Held(t), e.sched.results, e.sched.flags);
      case Requeue => MovedResults(e.place, Held(t), Queued, e.sched.results, e.sched.flags);
      case _ =>
    }
    hide InvPlace, ResultsOk, Rehoused;
  }

  lemma DispatchResults(e: Engine, t: Tid)
    requires RunEnabled(e, t, RunStep.Dispatch) && InvPlace(e) && InvResults(e)
    ensures InvResults(RunNext(e, t, RunStep.Dispatch))
  {
    hide Contains;
    Holding(Batch(e.runners[t]), 0, e.place, Held(t));
  }

  /** A completion that changes hands keeps its result. */
  lemma MovedResults(place: map<Op, Place>, p: Place, q: Place, results: map<Op, IoResult>, flags: set<Op>)
    requires ResultsOk(place, results, flags) && (p == Queued || p.Held?) && (q == Queued || q.Held?)
    ensures ResultsOk(Rehoused(place, p, q), results, flags)
  {
  }

  lemma PollResults(e: Engine, t: Tid, a: PollStep)
    requires PollEnabled(e, t, a) && InvPlace(e) && InvResults(e) && InvSched(e)
    ensures InvResults(PollNext(e, t, a))
  {
    hide *;
    match a {
      case EraseCancelled => EraseResults(e, t);
      case Attempt(outcome) => AttemptResults(e, t, outcome);
      case PostHand => PostHandResults(e, t);
      case _ => OtherPollResults(e, t, a);
    }
  }

  lemma EraseResults(e: Engine, t: Tid)
    requires PollEnabled(e, t, EraseCancelled) && InvResults(e) && InvSched(e)
    ensures InvResults(PollNext(e, t, EraseCancelled))
  {
    assert e.sched.cancelled[0] in e.sched.cancelled;
  }

  lemma AttemptResults(e: Engine, t: Tid, outcome: Outcome)
    requires PollEnabled(e, t, Attempt(outcome)) && InvPlace(e) && InvResults(e) && InvSched(e)
    ensures InvResults(PollNext(e, t, Attempt(outcome)))
  {
    Holding(e.sched.active, e.lock.event.pass.next, e.place, InActive);
  }

  lemma PostHandResults(e: Engine, t: Tid)
    requires PollEnabled(e, t, PostHand) && InvPlace(e) && InvResults(e)
    ensures InvResults(PollNext(e, t, PostHand))
  {
    Holding(Hand(e.lock), 0, e.place, InHand);
  }

  lemma OtherPollResults(e: Engine, t: Tid, a: PollStep)
    requires PollEnabled(e, t, a) && InvResults(e) && !a.EraseCancelled? && !a.Attempt? && !a.PostHand?
    ensures InvResults(PollNext(e, t, a))
  {
    hide ResultsOk;
  }

  lemma CloseResults(e: Engine, a: CloseStep)
    requires CloseEnabled(e, a) && InvResults(e)
    ensures InvResults(CloseNext(e, a))
  {
  }

  // ----- no contract check fails

  lemma CallSafe(e: Engine, a: CallStep)
    requires CallEnabled(e, a) && InvWork(e) && !e.failed
    ensures !CallNext(e, a).failed
  {
    if a.Reset? {
      UserWorks(e, a);
    }
  }

  lemma RunSafe(e: Engine, t: Tid, a: RunStep)
    requires RunEnabled(e, t, a) && InvPlace(e) && InvWork(e) && InvResults(e) && !e.failed
    ensures !RunNext(e, t, a).failed
  {
    match a {
      case Dispatch =>
        Holding(Batch(e.runners[t]), 0, e.place, Held(t));
      case HandlerReturns => WorkOfHandlerEnds(e.works, e.remaining, e.place, e.runners, t, Outside);
      case HandlerThrows => WorkOfHandlerEnds(e.works, e.remaining, e.place, e.runners, t, Outside);
      case _ =>
    }
  }

  lemma PollSafe(e: Engine, t: Tid, a: PollStep)
    requires PollEnabled(e, t, a) && InvSched(e) && InvEpoll(e) && !e.failed
    ensures !PollNext(e, t, a).failed
  {
    if a.FinishEvent? {
      EndEventAgrees(e.sched, e.lock.event.pass);
    } else if a.Attempt? {
      assert e.sched.active[e.lock.event.pass.next] in e.sched.active;
    }
  }

  lemma CloseSafe(e: Engine, a: CloseStep)
    requires CloseEnabled(e, a) && InvPlace(e) && InvWork(e) && !e.failed
    ensures !CloseNext(e, a).failed
  {
    CloseWork(e, a);
  }
}
