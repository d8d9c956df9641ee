/** What holds in every reachable state of every interleaving. */
module EngineInvariant {
  import opened Sequences
  import opened Operations
  import opened SchedulerSpec
  import opened SchedulerLaws
  import opened Engine

  ghost predicate At(e: Engine, o: Op, p: Place)
  {
    o in e.place && e.place[o] == p
  }

  /** s holds exactly the operations whose place is p, each once. */
  ghost predicate Contains(s: seq<Op>, place: map<Op, Place>, p: Place)
  {
    NoDup(s) && forall o :: o in s <==> o in place && place[o] == p
  }

  lemma Holding(s: seq<Op>, k: nat, place: map<Op, Place>, p: Place)
    requires k < |s| && Contains(s, place, p)
    ensures s[k] in place && place[s[k]] == p
  {
    assert s[k] in s;
  }

  lemma HoldingAll(s: seq<Op>, i: nat, j: nat, place: map<Op, Place>, p: Place)
    requires i <= j <= |s| && Contains(s, place, p)
    ensures forall o :: o in s[i..j] ==> o in place && place[o] == p
  {
    forall o | o in s[i..j] ensures o in place && place[o] == p { assert o in s; }
  }

  /** Every operation is in the one container its place names. */
  ghost predicate InvPlace(e: Engine)
  {
    && (forall o :: o in e.built <==> At(e, o, Built))
    && Contains(e.sched.active, e.place, InActive)
    && Contains(e.sched.cancelled, e.place, InCancelled)
    && Contains(Hand(e.lock), e.place, InHand) && |Hand(e.lock)| <= 1
    && Contains(e.queue, e.place, Queued)
    && Contains(e.dispatched, e.place, Dispatched)
    && Contains(e.discarded, e.place, Discarded)
    && (forall t :: t in e.runners ==> Contains(Batch(e.runners[t]), e.place, Held(t)))
    && (forall o :: o in e.place && e.place[o].Held? ==> e.place[o].tid in e.runners)
  }

  predicate Live(p: Place)
  {
    p != Dispatched && p != Discarded
  }

  /** The counter is the number of active Work objects: one for every operation
      not yet finished, one for every handler running, and the application's. */
  ghost predicate InvWork(e: Engine)
  {
    WorkOk(e.works, e.remaining, e.place, e.runners)
  }

  ghost predicate WorkOk(works: set<Work>, remaining: int, place: map<Op, Place>, runners: map<Tid, Runner>)
  {
    && remaining == |works|
    && (forall o :: OpWork(o) in works <==> o in place && Live(place[o]))
    && (forall t :: HandlerWork(t) in works <==> t in runners && runners[t].Handling?)
  }

  /** The holder of the scheduler's mutex is where the lock says. */
  ghost predicate InvLock(e: Engine)
  {
    && (forall t :: t in e.runners && e.runners[t].Cancelling? <==> e.lock.CancelPass? && e.lock.owner == t)
    && (forall t :: t in e.runners && e.runners[t].Notifying? <==> e.lock.NotifyPass? && e.lock.owner == t)
    && (e.lock.Closed? ==> forall t :: t in e.runners ==> e.runners[t].Outside?)
    && Removed(e.lock) >= |Hand(e.lock)|
    && (e.lock.NotifyPass? && e.lock.hand != [] ==> e.lock.event.On?)
  }

  predicate Usable(l: Lock)
  {
    !l.Stuck? && !l.Closed?
  }

  /** The list's two regions, and its length against the counter. */
  ghost predicate InvSched(e: Engine)
  {
    Usable(e.lock) ==>
      && Partition(e.sched)
      && e.count == |e.sched.active| + |e.sched.cancelled| + Removed(e.lock)
  }

  /** Epoll agrees, except for the descriptor a pass is working on. */
  ghost predicate InvEpoll(e: Engine)
  {
    Usable(e.lock) ==>
      if e.lock.NotifyPass? && e.lock.event.On? then MidPass(e.sched, e.lock.event.pass) else EpollAgrees(e.sched)
  }

  /** Past the scheduler, every I/O operation has its result; a cancelled
      operation's is operation_canceled. */
  ghost predicate InvResults(e: Engine)
  {
    ResultsOk(e.place, e.sched.results, e.sched.flags)
  }

  ghost predicate ResultsOk(place: map<Op, Place>, results: map<Op, IoResult>, flags: set<Op>)
  {
    && (forall o :: o in results ==> o in place && place[o] != Built)
    && (forall o :: o in flags ==> o in results && results[o] == OPERATION_CANCELED)
    && (forall o :: o in place && o.Io? && (place[o] == InHand || place[o] == Queued || place[o].Held? || place[o] == Dispatched)
          ==> o in results)
  }

  /** A sleeper that has not been notified: nothing is queued, or a runner is
      between putting its batch back and its notify_all. */
  ghost predicate InvWake(e: Engine)
  {
    forall t :: t in e.runners && e.runners[t] == Asleep(false) ==>
      e.queue == [] || exists u :: u in e.runners && e.runners[u].Unwound?
  }

  ghost predicate Inv(e: Engine)
  {
    InvPlace(e) && InvWork(e) && InvLock(e) && InvSched(e) && InvEpoll(e) && InvResults(e) && InvWake(e) && !e.failed
  }

  lemma InitialInv(tids: set<Tid>)
    ensures Inv(Initial(tids))
  {
    assert forall fd :: AgreesAt(EMPTY, fd);
  }

  // ----- the work count

  /** Nothing about Work changes while every operation stays finished or
      unfinished and every runner in or out of a handler. */
  ghost predicate SameLife(place: map<Op, Place>, place': map<Op, Place>, runners: map<Tid, Runner>, runners': map<Tid, Runner>)
  {
    && place.Keys == place'.Keys && (forall o :: o in place ==> (Live(place[o]) <==> Live(place'[o])))
    && runners.Keys == runners'.Keys && (forall t :: t in runners ==> (runners[t].Handling? <==> runners'[t].Handling?))
  }

  lemma WorkSame(works: set<Work>, remaining: int, place: map<Op, Place>, place': map<Op, Place>,
                 runners: map<Tid, Runner>, runners': map<Tid, Runner>)
    requires WorkOk(works, remaining, place, runners) && SameLife(place, place', runners, runners')
    ensures WorkOk(works, remaining, place', runners')
  {
  }

  lemma WorkGained(works: set<Work>, remaining: int, place: map<Op, Place>, runners: map<Tid, Runner>, op: Op)
    requires WorkOk(works, remaining, place, runners) && op !in place
    ensures WorkOk(works + {OpWork(op)}, remaining + 1, place[op := Built], runners)
  {
    assert OpWork(op) !in works;
  }

  lemma WorkLost(works: set<Work>, remaining: int, place: map<Op, Place>, runners: map<Tid, Runner>, op: Op)
    requires WorkOk(works, remaining, place, runners) && op in place && Live(place[op])
    ensures remaining > 0 && WorkOk(works - {OpWork(op)}, remaining - 1, place[op := Discarded], runners)
  {
    assert OpWork(op) in works;
  }

  lemma WorkToHandler(works: set<Work>, remaining: int, place: map<Op, Place>, runners: map<Tid, Runner>, op: Op, t: Tid, batch: seq<Op>)
    requires WorkOk(works, remaining, place, runners) && op in place && Live(place[op])
    requires t in runners && !runners[t].Handling?
    ensures WorkOk(works - {OpWork(op)} + {HandlerWork(t)}, remaining, place[op := Dispatched], runners[t := Handling(op, batch)])
  {
    assert OpWork(op) in works && HandlerWork(t) !in works;
  }

  lemma WorkOfHandlerEnds(works: set<Work>, remaining: int, place: map<Op, Place>, runners: map<Tid, Runner>, t: Tid, r: Runner)
    requires WorkOk(works, remaining, place, runners) && t in runners && runners[t].Handling? && !r.Handling?
    ensures remaining > 0 && WorkOk(works - {HandlerWork(t)}, remaining - 1, place, runners[t := r])
  {
    assert HandlerWork(t) in works;
  }

  lemma CallWork(e: Engine, a: CallStep)
    requires CallEnabled(e, a) && InvPlace(e) && InvWork(e)
    ensures InvWork(CallNext(e, a))
  {
    hide *;
    match a {
      case Build(op) => BuildWork(e, op);
      case Latch(_) => UserWorks(e, a);
      case Move(_, _) => UserWorks(e, a);
      case Reset(_) => UserWorks(e, a);
      case CancelFd(fd) => CancelWork(e, fd);
      case _ => OtherCallWork(e, a);
    }
  }

  lemma BuildWork(e: Engine, op: Op)
    requires CallEnabled(e, Build(op)) && InvWork(e)
    ensures InvWork(CallNext(e, Build(op)))
  {
    hide WorkOk;
    WorkGained(e.works, e.remaining, e.place, e.runners, op);
  }

  lemma OtherCallWork(e: Engine, a: CallStep)
    requires CallEnabled(e, a) && InvPlace(e) && InvWork(e) && (a.PostBuilt? || a.ScheduleBuilt? || a.NotifyAll?)
    ensures InvWork(CallNext(e, a))
  {
    hide WorkOk, Contains;
    WorkSame(e.works, e.remaining, e.place, CallNext(e, a).place, e.runners, CallNext(e, a).runners);
  }

  lemma UserWorks(e: Engine, a: CallStep)
    requires CallEnabled(e, a) && InvWork(e) && (a.Latch? || a.Move? || a.Reset?)
    ensures InvWork(CallNext(e, a))
    ensures a.Reset? && UserWork(a.name) in e.works ==> e.remaining > 0
  {
  }

  lemma CancelWork(e: Engine, fd: int)
    requires CallEnabled(e, CancelFd(fd)) && InvPlace(e) && InvWork(e)
    ensures InvWork(CallNext(e, CancelFd(fd)))
  {
    RangeActive(e, fd);
    PlacedLife(e.place, Range(e.sched, fd), InCancelled, e.runners);
    hide WorkOk, InvPlace, SameLife, Range, Placed, Cancel, MarkRange;
    WorkSame(e.works, e.remaining, e.place, Placed(e.place, Range(e.sched, fd), InCancelled), e.runners, e.runners);
  }

  lemma RangeActive(e: Engine, fd: int)
    requires InvPlace(e)
    ensures forall o :: o in Range(e.sched, fd) ==> o in e.place && e.place[o] == InActive
  {
    HoldingAll(e.sched.active, CancelRange(e.sched, fd).0, CancelRange(e.sched, fd).1, e.place, InActive);
  }

  lemma PlacedLife(place: map<Op, Place>, ops: seq<Op>, q: Place, runners: map<Tid, Runner>)
    requires Live(q) && forall o :: o in ops ==> o in place && Live(place[o])
    ensures SameLife(place, Placed(place, ops, q), runners, runners)
  {
  }

  lemma RunWork(e: Engine, t: Tid, a: RunStep)
    requires RunEnabled(e, t, a) && InvPlace(e) && InvWork(e)
    ensures InvWork(RunNext(e, t, a))
  {
    hide WorkOk, Contains;
    match a {
      case Dispatch =>
        var batch := Batch(e.runners[t]);
        Holding(batch, 0, e.place, Held(t));
        WorkToHandler(e.works, e.remaining, e.place, e.runners, batch[0], t, batch[1..]);
      case HandlerReturns => WorkOfHandlerEnds(e.works, e.remaining, e.place, e.runners, t, RunNext(e, t, a).runners[t]);
      case HandlerThrows => WorkOfHandlerEnds(e.works, e.remaining, e.place, e.runners, t, RunNext(e, t, a).runners[t]);
      case _ => OtherRunWork(e, t, a);
    }
  }

  lemma OtherRunWork(e: Engine, t: Tid, a: RunStep)
    requires RunEnabled(e, t, a) && InvWork(e)
    requires !a.Dispatch? && !a.HandlerReturns? && !a.HandlerThrows?
    ensures InvWork(RunNext(e, t, a))
  {
    hide WorkOk, SameLife, RunEnabled, RunNext;
    OtherRunLife(e, t, a);
    WorkSame(e.works, e.remaining, e.place, RunNext(e, t, a).place, e.runners, RunNext(e, t, a).runners);
  }

  lemma OtherRunLife(e: Engine, t: Tid, a: RunStep)
    requires RunEnabled(e, t, a) && !a.Dispatch? && !a.HandlerReturns? && !a.HandlerThrows?
    ensures RunNext(e, t, a).works == e.works && RunNext(e, t, a).remaining == e.remaining
    ensures SameLife(e.place, RunNext(e, t, a).place, e.runners, RunNext(e, t, a).runners)
  {
    hide RunEnabled, RunNext;
    OtherRunPlaces(e, t, a);
    OtherRunRunners(e, t, a);
  }

  lemma OtherRunPlaces(e: Engine, t: Tid, a: RunStep)
    requires RunEnabled(e, t, a) && !a.Dispatch? && !a.HandlerReturns? && !a.HandlerThrows?
    ensures var f := RunNext(e, t, a);
            && f.works == e.works && f.remaining == e.remaining && e.place.Keys == f.place.Keys
            && forall o :: o in e.place ==> (Live(e.place[o]) <==> Live(f.place[o]))
  {
    hide Notified;
  }

  lemma OtherRunRunners(e: Engine, t: Tid, a: RunStep)
    requires RunEnabled(e, t, a) && !a.Dispatch? && !a.HandlerReturns? && !a.HandlerThrows?
    ensures var f := RunNext(e, t, a);
            && e.runners.Keys == f.runners.Keys
            && forall u :: u in e.runners ==> (e.runners[u].Handling? <==> f.runners[u].Handling?)
  {
    hide Rehoused;
  }

  lemma PollWork(e: Engine, t: Tid, a: PollStep)
    requires PollEnabled(e, t, a) && InvPlace(e) && InvWork(e) && InvLock(e)
    ensures InvWork(PollNext(e, t, a))
  {
    hide InvPlace, InvLock, WorkOk, SameLife, PollEnabled, PollNext;
    PollLife(e, t, a);
    assert PollNext(e, t, a).works == e.works && PollNext(e, t, a).remaining == e.remaining by { PollKeepsWorks(e, t, a); }
    WorkSame(e.works, e.remaining, e.place, PollNext(e, t, a).place, e.runners, PollNext(e, t, a).runners);
  }

  lemma PollKeepsWorks(e: Engine, t: Tid, a: PollStep)
    requires PollEnabled(e, t, a)
    ensures PollNext(e, t, a).works == e.works && PollNext(e, t, a).remaining == e.remaining
  {
  }

  lemma PollLife(e: Engine, t: Tid, a: PollStep)
    requires PollEnabled(e, t, a) && InvPlace(e) && InvLock(e)
    ensures SameLife(e.place, PollNext(e, t, a).place, e.runners, PollNext(e, t, a).runners)
  {
    hide InvPlace, InvLock, PollEnabled, PollNext;
    PollPlaces(e, t, a);
    PollRunners(e, t, a);
  }

  lemma PollPlaces(e: Engine, t: Tid, a: PollStep)
    requires PollEnabled(e, t, a) && InvPlace(e)
    ensures var f := PollNext(e, t, a);
            e.place.Keys == f.place.Keys && forall o :: o in e.place ==> (Live(e.place[o]) <==> Live(f.place[o]))
  {
    hide Contains;
    match a {
      case EraseCancelled => Holding(e.sched.cancelled, 0, e.place, InCancelled);
      case Attempt(outcome) => Holding(e.sched.active, e.lock.event.pass.next, e.place, InActive);
      case PostHand => Holding(Hand(e.lock), 0, e.place, InHand);
      case _ =>
    }
  }

  lemma PollRunners(e: Engine, t: Tid, a: PollStep)
    requires PollEnabled(e, t, a) && InvLock(e)
    ensures var f := PollNext(e, t, a);
            && e.runners.Keys == f.runners.Keys
            && forall u :: u in e.runners ==> (e.runners[u].Handling? <==> f.runners[u].Handling?)
  {
  }

  lemma CloseWork(e: Engine, a: CloseStep)
    requires CloseEnabled(e, a) && InvPlace(e) && InvWork(e)
    ensures InvWork(CloseNext(e, a)) && (!a.Close? ==> e.remaining > 0)
  {
    hide WorkOk, Contains;
    match a {
      case Close =>
      case DiscardQueued =>
        Holding(e.queue, 0, e.place, Queued);
        WorkLost(e.works, e.remaining, e.place, e.runners, e.queue[0]);
      case DiscardScheduled =>
        if e.sched.active != [] {
          Holding(e.sched.active, 0, e.place, InActive);
          WorkLost(e.works, e.remaining, e.place, e.runners, e.sched.active[0]);
        } else {
          Holding(e.sched.cancelled, 0, e.place, InCancelled);
          WorkLost(e.works, e.remaining, e.place, e.runners, e.sched.cancelled[0]);
        }
    }
  }

  // ----- the mutex

  lemma CallLock(e: Engine, a: CallStep)
    requires CallEnabled(e, a) && InvLock(e)
    ensures InvLock(CallNext(e, a))
  {
  }

  /** One runner moves, and neither takes nor gives up the mutex. */
  lemma LockSame(e: Engine, f: Engine, t: Tid)
    requires InvLock(e) && t in e.runners && !e.lock.Closed? && f.lock == e.lock
    requires t in f.runners && f.runners == e.runners[t := f.runners[t]]
    requires !e.runners[t].Cancelling? && !e.runners[t].Notifying? && !f.runners[t].Cancelling? && !f.runners[t].Notifying?
    ensures InvLock(f)
  {
  }

  lemma RunIsOpen(e: Engine, t: Tid, a: RunStep)
    requires RunEnabled(e, t, a) && InvLock(e)
    ensures t in e.runners && !e.lock.Closed?
  {
  }

  lemma RunLock(e: Engine, t: Tid, a: RunStep)
    requires RunEnabled(e, t, a) && InvLock(e)
    ensures InvLock(RunNext(e, t, a)) && RunNext(e, t, a).lock == e.lock
  {
    hide InvLock;
    RunIsOpen(e, t, a);
    if a.GuardNotify? {
      var f := e.(runners := Notified(e.runners));
      assert InvLock(f) by { CallLock(e, NotifyAll); }
      hide Notified;
      NotifiedKeeps(e.runners, t);
      LockSame(f, RunNext(e, t, a), t);
    } else {
      LockSame(e, RunNext(e, t, a), t);
    }
  }

  lemma NotifiedKeeps(runners: map<Tid, Runner>, t: Tid)
    requires t in runners && !runners[t].Asleep?
    ensures t in Notified(runners) && Notified(runners)[t] == runners[t]
  {
  }

  lemma PollLock(e: Engine, t: Tid, a: PollStep)
    requires PollEnabled(e, t, a) && InvLock(e)
    ensures InvLock(PollNext(e, t, a))
  {
  }

  lemma CloseLock(e: Engine, a: CloseStep)
    requires CloseEnabled(e, a) && InvLock(e)
    ensures InvLock(CloseNext(e, a))
  {
  }

  // ----- wake-ups

  lemma CallWake(e: Engine, a: CallStep)
    requires CallEnabled(e, a) && InvWake(e)
    ensures InvWake(CallNext(e, a))
  {
  }

  lemma RunWake(e: Engine, t: Tid, a: RunStep)
    requires RunEnabled(e, t, a) && InvWake(e)
    ensures InvWake(RunNext(e, t, a))
  {
    var f := RunNext(e, t, a);
    if !a.Requeue? && !a.GuardNotify? {
      forall s | s in f.runners && f.runners[s] == Asleep(false)
        ensures f.queue == [] || exists u :: u in f.runners && f.runners[u].Unwound?
      {
        if s != t && f.queue != [] {
          assert s in e.runners && e.runners[s] == Asleep(false);
          var u :| u in e.runners && e.runners[u].Unwound?;
          assert u in f.runners && f.runners[u].Unwound?;
        }
      }
    } else if a.Requeue? {
      assert t in f.runners && f.runners[t].Unwound?;
    }
  }

  lemma PollWake(e: Engine, t: Tid, a: PollStep)
    requires PollEnabled(e, t, a) && InvWake(e) && InvLock(e)
    ensures InvWake(PollNext(e, t, a))
  {
    var f := PollNext(e, t, a);
    forall s | s in f.runners && f.runners[s] == Asleep(false)
      ensures f.queue == [] || exists u :: u in f.runners && f.runners[u].Unwound?
    {
      assert s in e.runners && e.runners[s] == Asleep(false);
      if e.queue != [] {
        var u :| u in e.runners && e.runners[u].Unwound?;
        assert u in f.runners && f.runners[u].Unwound?;
      }
    }
  }

  lemma CloseWake(e: Engine, a: CloseStep)
    requires CloseEnabled(e, a) && InvWake(e) && InvLock(e)
    ensures InvWake(CloseNext(e, a))
  {
  }
}
