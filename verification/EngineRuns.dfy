/** The theorems about whole runs, for every interleaving of any number of
    runners and other threads. */
module EngineRuns {
  import opened Sequences
  import opened Operations
  import opened SchedulerSpec
  import opened SchedulerLaws
  import opened Engine
  import opened EngineInvariant
  import opened EngineScheduler
  import opened EnginePlace

  lemma StepKeepsInv(e: Engine, a: Action)
    requires Inv(e) && Enabled(e, a)
    ensures Inv(Next(e, a))
  {
    hide InvPlace, InvWork, InvLock, InvSched, InvEpoll, InvResults, InvWake, CallNext, RunNext, PollNext, CloseNext;
    match a {
      case ByAny(c) =>
        CallPlace(e, c); CallWork(e, c); CallLock(e, c); CallSched(e, c); CallResults(e, c); CallWake(e, c); CallSafe(e, c);
      case InRun(t, r) =>
        RunPlace(e, t, r); RunWork(e, t, r); RunLock(e, t, r); RunSched(e, t, r); RunResults(e, t, r); RunWake(e, t, r);
        RunSafe(e, t, r);
      case InPollOnce(t, p) =>
        PollPlace(e, t, p); PollWork(e, t, p); PollLock(e, t, p); PollSched(e, t, p); PollResults(e, t, p);
        PollWake(e, t, p); PollSafe(e, t, p);
      case InDestructor(d) =>
        ClosePlace(e, d); CloseWork(e, d); CloseLock(e, d); CloseSched(e, d); CloseResults(e, d); CloseWake(e, d);
        CloseSafe(e, d);
    }
  }

  lemma CloseSched(e: Engine, a: CloseStep)
    requires CloseEnabled(e, a)
    ensures InvSched(CloseNext(e, a)) && InvEpoll(CloseNext(e, a))
  {
  }

  lemma {:induction false} RunKeepsInv(e: Engine, run: seq<Action>)
    requires Inv(e) && Legal(e, run)
    ensures Inv(Final(e, run))
    decreases |run|
  {
    hide Inv, Enabled, Next;
    if run != [] {
      StepKeepsInv(e, run[0]);
      RunKeepsInv(Next(e, run[0]), run[1..]);
    }
  }

  // ----- exactly once

  /** o is in the container that p names. */
  ghost predicate Holds(e: Engine, o: Op, p: Place)
  {
    match p
    case Built => o in e.built
    case InActive => o in e.sched.active
    case InCancelled => o in e.sched.cancelled
    case InHand => o in Hand(e.lock)
    case Queued => o in e.queue
    case Held(t) => t in e.runners && o in Batch(e.runners[t])
    case Dispatched => o in e.dispatched
    case Discarded => o in e.discarded
  }

  ghost predicate ExactlyOnce(e: Engine)
  {
    && (forall o, p, q :: Holds(e, o, p) && Holds(e, o, q) ==> p == q)
    && (forall o :: o in e.place <==> exists p :: Holds(e, o, p))
    && NoDup(e.sched.active) && NoDup(e.sched.cancelled) && NoDup(e.queue)
    && (forall t :: t in e.runners ==> NoDup(Batch(e.runners[t])))
    && NoDup(e.dispatched) && NoDup(e.discarded)
  }

  lemma HoldsIsPlace(e: Engine, o: Op, p: Place)
    requires InvPlace(e)
    ensures Holds(e, o, p) <==> At(e, o, p)
  {
  }

  lemma InvExactlyOnce(e: Engine)
    requires InvPlace(e)
    ensures ExactlyOnce(e)
  {
    forall o, p, q | Holds(e, o, p) && Holds(e, o, q) ensures p == q {
      HoldsIsPlace(e, o, p);
      HoldsIsPlace(e, o, q);
    }
    forall o ensures o in e.place <==> exists p :: Holds(e, o, p) {
      if o in e.place {
        HoldsIsPlace(e, o, e.place[o]);
        assert Holds(e, o, e.place[o]);
      } else if p :| Holds(e, o, p) {
        HoldsIsPlace(e, o, p);
      }
    }
  }

  /** In every reachable state every operation ever built is in exactly one
      place, is there once, and is finished at most once, one way. */
  lemma ReachableExactlyOnce(tids: set<Tid>, run: seq<Action>)
    requires Legal(Initial(tids), run)
    ensures ExactlyOnce(Final(Initial(tids), run))
  {
    InitialInv(tids);
    RunKeepsInv(Initial(tids), run);
    InvExactlyOnce(Final(Initial(tids), run));
  }

  /** No contract check of the source fails in any run. */
  lemma ReachableSafe(tids: set<Tid>, run: seq<Action>)
    requires Legal(Initial(tids), run)
    ensures !Final(Initial(tids), run).failed
  {
    InitialInv(tids);
    RunKeepsInv(Initial(tids), run);
  }

  // ----- quiescence

  /** Nothing is queued, scheduled, held, in flight or running. */
  ghost predicate Quiet(e: Engine)
  {
    && e.built == {} && e.sched.active == [] && e.sched.cancelled == [] && Hand(e.lock) == [] && e.queue == []
    && (forall t :: t in e.runners ==> Batch(e.runners[t]) == [] && !e.runners[t].Handling?)
  }

  ghost predicate ApplicationWork(e: Engine)
  {
    exists n :: UserWork(n) in e.works
  }

  lemma ZeroIsQuiet(e: Engine)
    requires InvPlace(e) && InvWork(e)
    ensures e.remaining >= 0
    ensures e.remaining == 0 <==> Quiet(e) && !ApplicationWork(e)
  {
    if e.remaining == 0 {
      assert e.works == {};
      assert forall o :: OpWork(o) !in e.works && UserWork(0) !in e.works;
      NoneLive(e);
    } else if Quiet(e) && !ApplicationWork(e) {
      var w :| w in e.works;
      match w
      case UserWork(n) =>
      case HandlerWork(t) =>
      case OpWork(o) => HoldsIsPlace(e, o, e.place[o]);
    }
  }

  lemma NoneLive(e: Engine)
    requires InvPlace(e) && InvWork(e) && e.works == {}
    ensures Quiet(e)
  {
    forall o | o in e.place ensures !Live(e.place[o]) {
      assert OpWork(o) !in e.works;
    }
    EmptyOrPlaced(e.sched.active, e.place, InActive);
    EmptyOrPlaced(e.sched.cancelled, e.place, InCancelled);
    EmptyOrPlaced(Hand(e.lock), e.place, InHand);
    EmptyOrPlaced(e.queue, e.place, Queued);
    forall t | t in e.runners ensures Batch(e.runners[t]) == [] && !e.runners[t].Handling? {
      assert HandlerWork(t) !in e.works;
      EmptyOrPlaced(Batch(e.runners[t]), e.place, Held(t));
    }
    assert forall o :: o in e.built <==> At(e, o, Built);
  }

  lemma EmptyOrPlaced(s: seq<Op>, place: map<Op, Place>, p: Place)
    requires Contains(s, place, p)
    ensures s == [] || (s[0] in place && place[s[0]] == p)
  {
    if s != [] { Holding(s, 0, place, p); }
  }

  /** A runner that leaves run() by reading zero does so when nothing at all is
      left to do; and it stays in when anything is. */
  lemma LeavesOnlyWhenQuiet(tids: set<Tid>, run: seq<Action>, t: Tid)
    requires Legal(Initial(tids), run)
    requires Enabled(Final(Initial(tids), run), InRun(t, Test))
    ensures var e := Final(Initial(tids), run);
            RunNext(e, t, Test).runners[t].Outside? <==> Quiet(e) && !ApplicationWork(e)
  {
    InitialInv(tids);
    RunKeepsInv(Initial(tids), run);
    ZeroIsQuiet(Final(Initial(tids), run));
  }

  /** Whatever step takes a runner out of run() in the ordinary way, it is its
      test of the count, and nothing at all is left to do at that moment. */
  lemma LeavingIsQuiet(tids: set<Tid>, run: seq<Action>, t: Tid, a: Action)
    requires Legal(Initial(tids), run) && Enabled(Final(Initial(tids), run), a)
    ensures var e := Final(Initial(tids), run);
            ExitsNormally(e, a, t) ==> a == InRun(t, Test) && e.remaining == 0 && Quiet(e) && !ApplicationWork(e)
  {
    var e := Final(Initial(tids), run);
    InitialInv(tids);
    RunKeepsInv(Initial(tids), run);
    hide Final, Legal, ExitsNormally;
    if ExitsNormally(e, a, t) {
      OnlyTestLeaves(e, t, a);
      ZeroIsQuiet(e);
    }
  }

  /** The step takes a runner out of run(), and not through an exception. */
  ghost predicate ExitsNormally(e: Engine, a: Action, t: Tid)
    requires Enabled(e, a)
  {
    && t in e.runners && !e.runners[t].Outside? && !e.runners[t].Unwound?
    && t in Next(e, a).runners && Next(e, a).runners[t].Outside?
  }

  lemma OnlyTestLeaves(e: Engine, t: Tid, a: Action)
    requires Enabled(e, a) && ExitsNormally(e, a, t)
    ensures a == InRun(t, Test) && e.remaining <= 0
  {
    hide CallNext, CallEnabled, RunNext, RunEnabled, PollNext, PollEnabled;
    match a {
      case ByAny(c) => CallsKeepRunner(e, t, c);
      case InRun(u, r) => RunLeaves(e, t, u, r);
      case InPollOnce(u, p) => PollNeverLeaves(e, t, u, p);
      case InDestructor(d) =>
    }
  }

  lemma CallsKeepRunner(e: Engine, t: Tid, a: CallStep)
    requires CallEnabled(e, a) && t in e.runners
    ensures var f := CallNext(e, a);
            t in f.runners && (if e.runners[t].Asleep? then f.runners[t].Asleep? else f.runners[t] == e.runners[t])
  {
  }

  lemma RunLeaves(e: Engine, t: Tid, u: Tid, a: RunStep)
    requires RunEnabled(e, u, a) && t in e.runners && !e.runners[t].Outside? && !e.runners[t].Unwound?
    ensures RunNext(e, u, a).runners.Keys == e.runners.Keys
    ensures RunNext(e, u, a).runners[t].Outside? ==> u == t && a.Test? && e.remaining <= 0
  {
  }

  lemma PollNeverLeaves(e: Engine, t: Tid, u: Tid, a: PollStep)
    requires PollEnabled(e, u, a) && t in e.runners && !e.runners[t].Outside?
    ensures t in PollNext(e, u, a).runners && !PollNext(e, u, a).runners[t].Outside?
  {
  }

  // ----- results are written once, and finished operations stay finished

  ghost predicate SlotsExtend(s: Sched, t: Sched)
  {
    && (forall o :: o in s.results ==> o in t.results && t.results[o] == s.results[o])
    && s.flags <= t.flags
  }

  ghost predicate Extends(e: Engine, f: Engine)
  {
    && SlotsExtend(e.sched, f.sched)
    && e.posted <= f.posted && e.dispatched <= f.dispatched && e.discarded <= f.discarded
    && e.place.Keys <= f.place.Keys
  }

  lemma CancelExtends(s: Sched, fd: int)
    requires Partition(s)
    ensures SlotsExtend(s, Cancel(s, fd)) && SlotsExtend(s, MarkRange(s, fd))
    ensures forall o :: o in Range(s, fd) ==> o !in s.results
    ensures forall o :: o in Cancel(s, fd).results <==> o in s.results || o in Range(s, fd)
  {
    hide Cancel, MarkRange, Range, Sorted, NoDup;
    CancelMoves(s, fd);
    MarkFacts(s, fd);
    assert forall o :: o in Range(s, fd) ==> o !in s.results;
  }

  lemma AttemptExtends(s: Sched, p: Pass, outcome: Outcome)
    requires Partition(s) && AtItem(s, p)
    ensures SlotsExtend(s, TryItem(s, p, outcome).sched)
    ensures var t := TryItem(s, p, outcome);
            && (forall o :: o in t.posted ==> o !in s.results && outcome == Done(t.sched.results[o]))
            && (forall o :: o in t.sched.results <==> o in s.results || o in t.posted)
  {
    assert s.active[p.next] in s.active;
  }

  lemma CallExtends(e: Engine, a: CallStep)
    requires CallEnabled(e, a) && InvPlace(e) && InvSched(e)
    ensures Extends(e, CallNext(e, a))
  {
    if a.CancelFd? {
      CancelStepExtends(e, a.fd);
    } else {
      OtherCallExtends(e, a);
    }
    hide *;
  }

  lemma CancelStepExtends(e: Engine, fd: int)
    requires CallEnabled(e, CancelFd(fd)) && InvPlace(e) && InvSched(e)
    ensures Extends(e, CallNext(e, CancelFd(fd)))
  {
    hide Cancel, MarkRange, CancelHangs, SlotsExtend, Placed, Range, Partition, Contains;
    CancelExtends(e.sched, fd);
    RangeActive(e, fd);
    PlacedElsewhere(e.place, Range(e.sched, fd), InCancelled);
  }

  lemma OtherCallExtends(e: Engine, a: CallStep)
    requires CallEnabled(e, a) && !a.CancelFd?
    ensures Extends(e, CallNext(e, a))
  {
  }

  lemma RunStepExtends(e: Engine, t: Tid, a: RunStep)
    requires RunEnabled(e, t, a)
    ensures Extends(e, RunNext(e, t, a))
  {
  }

  lemma PollExtends(e: Engine, t: Tid, a: PollStep)
    requires PollEnabled(e, t, a) && InvSched(e)
    ensures Extends(e, PollNext(e, t, a))
  {
    if a.Attempt? {
      AttemptExtends(e.sched, e.lock.event.pass, a.outcome);
      hide TryItem, Partition, SlotsExtend;
    } else {
      hide Partition;
    }
  }

  lemma StepExtends(e: Engine, a: Action)
    requires Inv(e) && Enabled(e, a)
    ensures Extends(e, Next(e, a))
  {
    hide CallNext, RunNext, PollNext, InvPlace, InvSched, Extends;
    match a {
      case ByAny(c) => CallExtends(e, c);
      case InRun(t, r) => RunStepExtends(e, t, r);
      case InPollOnce(t, p) => PollExtends(e, t, p);
      case InDestructor(d) => CloseExtends(e, d);
    }
  }

  lemma CloseExtends(e: Engine, a: CloseStep)
    requires CloseEnabled(e, a)
    ensures Extends(e, CloseNext(e, a))
  {
  }

  lemma ExtendsOn(e: Engine, f: Engine, g: Engine)
    ensures Extends(e, f) && Extends(f, g) ==> Extends(e, g)
  {
  }

  lemma FlagsHold(e: Engine)
    requires InvResults(e)
    ensures forall o :: o in e.sched.flags ==> o in e.sched.results && e.sched.results[o] == OPERATION_CANCELED
  {
  }

  /** Whatever else happens: a result once written is never changed, a cancelled
      operation keeps operation_canceled, what has been posted, dispatched or
      discarded stays so, in that order. */
  lemma {:induction false} RunExtends(e: Engine, run: seq<Action>)
    requires Inv(e) && Legal(e, run)
    ensures Extends(e, Final(e, run))
    ensures forall o :: o in e.sched.flags ==>
              o in Final(e, run).sched.results && Final(e, run).sched.results[o] == OPERATION_CANCELED
    decreases |run|
  {
    hide Enabled, Next;
    FlagsHold(e);
    if run != [] {
      hide Inv;
      var f := Next(e, run[0]);
      StepKeepsInv(e, run[0]);
      StepExtends(e, run[0]);
      RunExtends(f, run[1..]);
      ExtendsOn(e, f, Final(e, run));
      hide Extends;
    }
  }
}
