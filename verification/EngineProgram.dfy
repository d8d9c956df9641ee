/** What a runner does, step after step and among the steps of all others, is
    the program of run, run_once and poll_once, read off as a log: every branch
    is taken by what the runner itself saw. */
module EngineProgram {
  import opened Operations
  import opened SchedulerSpec
  import opened Engine
  import opened EngineInvariant
  import opened EngineScheduler
  import opened EngineRuns

  // ----- the log

  /** What one step of a runner reads of the shared state, or does to it. */
  datatype Note =
    | Entering
    | ReadCount(work: int)
    | WentToSleep(empty: bool)
    | WentOn
    | TookQueue(batch: seq<Op>)
    | CalledHandler(op: Op)
    | HandlerDone
    | HandlerThrew
    | PutBack(ops: seq<Op>)
    | BatchDone
    | SawQueue(empty: bool)
    | SawLength(n: int)
    | BeganCancelling(cancelled: seq<Op>)
    | TookOff(op: Op)
    | PostedOp(op: Op)
    | EndedCancelling(waiting: bool)
    | PollReturned(infinite: bool, events: seq<Event>)
    | PollFailed(infinite: bool)
    | BeganPass
    | AtEvent(event: Event)
    | LeftThere
    | EndedEvent
    | EndedPass
    | NotifiedAll

  function Last(s: seq<Op>): Op
    requires s != []
  {
    s[|s| - 1]
  }

  ghost function RunNote(e: Engine, t: Tid, a: RunStep): Note
    requires RunEnabled(e, t, a)
  {
    var f := RunNext(e, t, a);
    match a
    case Enter => Entering
    case Test => ReadCount(e.remaining)
    case IdleCheck(sleep) => if sleep then WentToSleep(e.queue == []) else WentOn
    case WakeUp(again) => if again then WentToSleep(e.queue == []) else WentOn
    case Take => TookQueue(e.queue)
    case Dispatch => if f.dispatched == [] then WentOn else CalledHandler(Last(f.dispatched))
    case HandlerReturns => HandlerDone
    case HandlerThrows => HandlerThrew
    case Requeue => if |f.queue| < |e.queue| then WentOn else PutBack(f.queue[..|f.queue| - |e.queue|])
    case DrainEnds => BatchDone
    case MoreTest => SawQueue(e.queue == [])
    case SchedulerTest => SawLength(e.count)
    case GuardNotify => NotifiedAll
  }

  ghost function PollNote(e: Engine, t: Tid, a: PollStep): Note
    requires PollEnabled(e, t, a)
  {
    match a
    case BeginCancelPass => BeganCancelling(e.sched.cancelled)
    case EraseCancelled => TookOff(e.sched.cancelled[0])
    case EndCancelPass => EndedCancelling(e.sched.active != [])
    case Deliver(events) => PollReturned(e.runners[t].infinite, events)
    case PollError => PollFailed(e.runners[t].infinite)
    case BeginNotify => BeganPass
    case NextEvent => AtEvent(e.runners[t].events[0])
    case Attempt(_) =>
      if |PollNext(e, t, a).sched.active| < |e.sched.active| then TookOff(e.sched.active[e.lock.event.pass.next])
      else LeftThere
    case FinishEvent => EndedEvent
    case EndNotify => EndedPass
    case PostHand => if PollNext(e, t, a).posted == [] then WentOn else PostedOp(Last(PollNext(e, t, a).posted))
  }

  /** The notes of t's own steps. */
  ghost function Log(e: Engine, t: Tid, run: seq<Action>): seq<Note>
    requires Legal(e, run)
    decreases |run|
  {
    if run == [] then [] else
      var rest := Log(Next(e, run[0]), t, run[1..]);
      match run[0]
      case InRun(u, a) => if u == t then [RunNote(e, t, a)] + rest else rest
      case InPollOnce(u, a) => if u == t then [PollNote(e, t, a)] + rest else rest
      case _ => rest
  }

  // ----- the program: each predicate is a place in it and says what may follow

  /** Outside run(). */
  ghost predicate Away(l: seq<Note>)
    decreases |l|
  {
    l != [] ==> l[0].Entering? && Loop(l[1..])
  }

  /** run(): while the count is not zero. */
  ghost predicate Loop(l: seq<Note>)
    decreases |l|
  {
    l != [] ==> l[0].ReadCount? && if l[0].work > 0 then Idling(l[1..]) else Away(l[1..])
  }

  /** It waits, again and again, only on an empty queue; then run_once. */
  ghost predicate Idling(l: seq<Note>)
    decreases |l|
  {
    l != [] ==> (l[0] == WentToSleep(true) && Idling(l[1..])) || (l[0] == WentOn && Once(l[1..]))
  }

  /** run_once(): the queue is taken, and dispatched front first. */
  ghost predicate Once(l: seq<Note>)
    decreases |l|
  {
    l != [] ==> l[0].TookQueue? && Drains(l[1..], l[0].batch)
  }

  ghost predicate Drains(l: seq<Note>, batch: seq<Op>)
    decreases |l|
  {
    l != [] ==>
      if batch == [] then l[0] == BatchDone && Readiness(l[1..])
      else l[0] == CalledHandler(batch[0]) && Handles(l[1..], batch[1..])
  }

  /** A handler returns, or throws: then the rest is put back and the guard
      notifies on the way out. */
  ghost predicate Handles(l: seq<Note>, rest: seq<Op>)
    decreases |l|
  {
    l != [] ==> (l[0] == HandlerDone && Drains(l[1..], rest)) || (l[0] == HandlerThrew && Unwinds(l[1..], rest))
  }

  ghost predicate Unwinds(l: seq<Note>, rest: seq<Op>)
    decreases |l|
  {
    l != [] ==> l[0] == PutBack(rest) && Leaves(l[1..])
  }

  ghost predicate Leaves(l: seq<Note>)
    decreases |l|
  {
    l != [] ==> l[0] == NotifiedAll && Away(l[1..])
  }

  ghost predicate Returns(l: seq<Note>)
    decreases |l|
  {
    l != [] ==> l[0] == NotifiedAll && Loop(l[1..])
  }

  /** It may block only if it saw the queue empty, and polls exactly if it saw
      the scheduler not empty. */
  ghost predicate Readiness(l: seq<Note>)
    decreases |l|
  {
    l != [] ==> l[0].SawQueue? && Length(l[1..], l[0].empty)
  }

  ghost predicate Length(l: seq<Note>, block: bool)
    decreases |l|
  {
    l != [] ==> l[0].SawLength? && if l[0].n != 0 then Polls(l[1..], block) else Returns(l[1..])
  }

  /** poll_once(): every cancelled operation is taken off and posted, in order. */
  ghost predicate Polls(l: seq<Note>, block: bool)
    decreases |l|
  {
    l != [] ==> l[0].BeganCancelling? && Cancels(l[1..], l[0].cancelled, block, l[0].cancelled == [])
  }

  ghost predicate Cancels(l: seq<Note>, cancelled: seq<Op>, block: bool, none: bool)
    decreases |l|
  {
    l != [] ==>
      if cancelled != [] then l[0] == TookOff(cancelled[0]) && CancelPosts(l[1..], cancelled[0], cancelled[1..], block, none)
      else l[0].EndedCancelling? && if l[0].waiting then Waits(l[1..], block, block && none) else Returns(l[1..])
  }

  ghost predicate CancelPosts(l: seq<Note>, op: Op, cancelled: seq<Op>, block: bool, none: bool)
    decreases |l|
  {
    l != [] ==> l[0] == PostedOp(op) && Cancels(l[1..], cancelled, block, none)
  }

  /** The system's poll has no timeout exactly when told so, and may fail. */
  ghost predicate Waits(l: seq<Note>, block: bool, infinite: bool)
    decreases |l|
  {
    l != [] ==>
      || (l[0] == PollFailed(infinite) && Leaves(l[1..]))
      || (l[0].PollReturned? && l[0].infinite == infinite && Notifies(l[1..], l[0].events, block))
  }

  ghost predicate Notifies(l: seq<Note>, events: seq<Event>, block: bool)
    decreases |l|
  {
    l != [] ==> l[0] == BeganPass && Passes(l[1..], events, block, |events| == 1024)
  }

  /** Every event it was given, in order; then it polls again, without waiting,
      exactly when the buffer was full and it may not block. */
  ghost predicate Passes(l: seq<Note>, events: seq<Event>, block: bool, full: bool)
    decreases |l|
  {
    l != [] ==>
      if events == [] then l[0] == EndedPass && if full && !block then Waits(l[1..], block, false) else Returns(l[1..])
      else l[0] == AtEvent(events[0])
           && if events[0].Wake? then Passes(l[1..], events[1..], block, full) else Tries(l[1..], events[1..], block, full)
  }

  /** The operations of one event: what is taken off is posted next. */
  ghost predicate Tries(l: seq<Note>, events: seq<Event>, block: bool, full: bool)
    decreases |l|
  {
    l != [] ==>
      || (l[0] == LeftThere && Tries(l[1..], events, block, full))
      || (l[0].TookOff? && TryPosts(l[1..], l[0].op, events, block, full))
      || (l[0] == EndedEvent && Passes(l[1..], events, block, full))
  }

  ghost predicate TryPosts(l: seq<Note>, op: Op, events: seq<Event>, block: bool, full: bool)
    decreases |l|
  {
    l != [] ==> l[0] == PostedOp(op) && Tries(l[1..], events, block, full)
  }

  // ----- where a runner is in it

  ghost predicate CancelPlaceOf(l: seq<Note>, lock: Lock, cancelled: seq<Op>, block: bool)
  {
    lock.CancelPass? ==>
      if lock.hand == [] then Cancels(l, cancelled, block, lock.removed == 0 && cancelled == [])
      else CancelPosts(l, lock.hand[0], cancelled, block, false)
  }

  ghost predicate PassPlaceOf(l: seq<Note>, lock: Lock, events: seq<Event>, block: bool, full: bool)
  {
    lock.NotifyPass? ==>
      if lock.hand != [] then TryPosts(l, lock.hand[0], events, block, full)
      else if lock.event.On? then Tries(l, events, block, full)
      else Passes(l, events, block, full)
  }

  ghost predicate Continues(l: seq<Note>, r: Runner, lock: Lock, cancelled: seq<Op>)
  {
    match r
    case Outside => Away(l)
    case AtTest => Loop(l)
    case AtIdleCheck => Idling(l)
    case Asleep(_) => Idling(l)
    case AtTake => Once(l)
    case Draining(batch) => Drains(l, batch)
    case Handling(_, batch) => Handles(l, batch)
    case Unwinding(batch) => Unwinds(l, batch)
    case Unwound => Leaves(l)
    case Returning => Returns(l)
    case AtMoreTest => Readiness(l)
    case AtSchedulerTest(block) => Length(l, block)
    case AtPoll(block) => Polls(l, block)
    case Cancelling(block) => CancelPlaceOf(l, lock, cancelled, block)
    case InPoll(block, infinite) => Waits(l, block, infinite)
    case AtNotify(block, events) => Notifies(l, events, block)
    case Notifying(block, events, full) => PassPlaceOf(l, lock, events, block, full)
  }

  ghost predicate Follows(e: Engine, t: Tid, l: seq<Note>)
  {
    t in e.runners && Continues(l, e.runners[t], e.lock, e.sched.cancelled)
  }

  // ----- step by step

  lemma OwnRunFollows(e: Engine, t: Tid, a: RunStep, l: seq<Note>)
    requires RunEnabled(e, t, a) && Follows(RunNext(e, t, a), t, l)
    ensures Follows(e, t, [RunNote(e, t, a)] + l)
  {
    hide RunEnabled, RunNext, RunNote, Follows;
    match a {
      case Dispatch => BatchFollows(e, t, a, l);
      case HandlerReturns => BatchFollows(e, t, a, l);
      case HandlerThrows => BatchFollows(e, t, a, l);
      case Requeue => BatchFollows(e, t, a, l);
      case DrainEnds => BatchFollows(e, t, a, l);
      case _ => LoopFollows(e, t, a, l);
    }
  }

  lemma BatchFollows(e: Engine, t: Tid, a: RunStep, l: seq<Note>)
    requires RunEnabled(e, t, a) && Follows(RunNext(e, t, a), t, l)
    requires a.Dispatch? || a.HandlerReturns? || a.HandlerThrows? || a.Requeue? || a.DrainEnds?
    ensures Follows(e, t, [RunNote(e, t, a)] + l)
  {
    var all := [RunNote(e, t, a)] + l;
    assert all[0] == RunNote(e, t, a) && all[1..] == l;
  }

  lemma LoopFollows(e: Engine, t: Tid, a: RunStep, l: seq<Note>)
    requires RunEnabled(e, t, a) && Follows(RunNext(e, t, a), t, l)
    requires !a.Dispatch? && !a.HandlerReturns? && !a.HandlerThrows? && !a.Requeue? && !a.DrainEnds?
    ensures Follows(e, t, [RunNote(e, t, a)] + l)
  {
    var all := [RunNote(e, t, a)] + l;
    assert all[0] == RunNote(e, t, a) && all[1..] == l;
  }

  lemma OwnPollFollows(e: Engine, t: Tid, a: PollStep, l: seq<Note>)
    requires PollEnabled(e, t, a) && InvLock(e) && InvPlace(e) && Follows(PollNext(e, t, a), t, l)
    ensures Follows(e, t, [PollNote(e, t, a)] + l)
  {
    assert |Hand(e.lock)| <= 1;
    hide InvPlace, InvLock, PollEnabled, PollNext, PollNote, Follows;
    match a {
      case BeginNotify => AskingFollows(e, t, a, l);
      case Deliver(_) => AskingFollows(e, t, a, l);
      case PollError => AskingFollows(e, t, a, l);
      case BeginCancelPass => CancellingFollows(e, t, a, l);
      case EraseCancelled => CancellingFollows(e, t, a, l);
      case EndCancelPass => CancellingFollows(e, t, a, l);
      case PostHand => PostHandFollows(e, t, l);
      case _ => NotifyingFollows(e, t, a, l);
    }
  }

  lemma AskingFollows(e: Engine, t: Tid, a: PollStep, l: seq<Note>)
    requires PollEnabled(e, t, a) && Follows(PollNext(e, t, a), t, l) && (a.Deliver? || a.PollError? || a.BeginNotify?)
    ensures Follows(e, t, [PollNote(e, t, a)] + l)
  {
    var all := [PollNote(e, t, a)] + l;
    assert all[0] == PollNote(e, t, a) && all[1..] == l;
  }

  lemma CancellingFollows(e: Engine, t: Tid, a: PollStep, l: seq<Note>)
    requires PollEnabled(e, t, a) && InvLock(e) && Follows(PollNext(e, t, a), t, l)
    requires a.BeginCancelPass? || a.EraseCancelled? || a.EndCancelPass?
    ensures Follows(e, t, [PollNote(e, t, a)] + l)
  {
    var all := [PollNote(e, t, a)] + l;
    assert all[0] == PollNote(e, t, a) && all[1..] == l;
  }

  lemma PostHandFollows(e: Engine, t: Tid, l: seq<Note>)
    requires PollEnabled(e, t, PostHand) && InvLock(e) && |Hand(e.lock)| <= 1 && Follows(PollNext(e, t, PostHand), t, l)
    ensures Follows(e, t, [PollNote(e, t, PostHand)] + l)
  {
    hide InvLock, PollEnabled, PollNext, PollNote, Notified;
    HandPosted(e, t);
    var all := [PollNote(e, t, PostHand)] + l;
    assert all[0] == PollNote(e, t, PostHand) && all[1..] == l;
  }

  lemma HandPosted(e: Engine, t: Tid)
    requires PollEnabled(e, t, PostHand) && InvLock(e) && |Hand(e.lock)| <= 1
    ensures t in e.runners && (e.runners[t].Cancelling? || e.runners[t].Notifying?) && Hand(e.lock) != []
    ensures var f := PollNext(e, t, PostHand);
            && PollNote(e, t, PostHand) == PostedOp(Hand(e.lock)[0])
            && t in f.runners && f.runners[t] == e.runners[t] && f.sched == e.sched && Hand(f.lock) == []
            && (e.runners[t].Cancelling? ==> e.lock.CancelPass? && f.lock.CancelPass? && f.lock.removed == e.lock.removed > 0)
            && (e.runners[t].Notifying? ==> e.lock.NotifyPass? && f.lock.NotifyPass? && f.lock.event == e.lock.event)
            && (e.lock.NotifyPass? ==> e.lock.event.On?)
  {
  }

  lemma NotifyingFollows(e: Engine, t: Tid, a: PollStep, l: seq<Note>)
    requires PollEnabled(e, t, a) && InvLock(e) && Follows(PollNext(e, t, a), t, l)
    requires a.NextEvent? || a.Attempt? || a.FinishEvent? || a.EndNotify?
    ensures Follows(e, t, [PollNote(e, t, a)] + l)
  {
    hide TryItem, EndEvent, BeginEvent, Tried;
    if a.Attempt? { TryItemCounts(e.sched, e.lock.event.pass, a.outcome); }
    var all := [PollNote(e, t, a)] + l;
    assert all[0] == PollNote(e, t, a) && all[1..] == l;
  }

  /** No step of another thread moves a runner, but for a notification. */
  lemma OthersKeepPlace(e: Engine, t: Tid, a: Action)
    requires Enabled(e, a) && InvLock(e) && t in e.runners
    requires !(a.InRun? && a.t == t) && !(a.InPollOnce? && a.t == t)
    ensures StaysPut(e, Next(e, a), t)
  {
    hide CallEnabled, CallNext, RunEnabled, RunNext, PollEnabled, PollNext, CloseEnabled, CloseNext, StaysPut, InvLock;
    match a {
      case ByAny(c) => CallKeepsPlace(e, t, c);
      case InRun(u, r) => RunKeepsPlace(e, t, u, r);
      case InPollOnce(u, p) => PollKeepsPlace(e, t, u, p);
      case InDestructor(d) => CloseKeepsPlace(e, t, d);
    }
  }

  ghost predicate StaysPut(e: Engine, f: Engine, t: Tid)
  {
    && t in e.runners && t in f.runners
    && (if e.runners[t].Asleep? then f.runners[t].Asleep? else f.runners[t] == e.runners[t])
    && (e.runners[t].Cancelling? ==> f.lock == e.lock && f.sched.cancelled == e.sched.cancelled)
    && (e.runners[t].Notifying? ==> f.lock == e.lock)
  }

  lemma CallKeepsPlace(e: Engine, t: Tid, a: CallStep)
    requires CallEnabled(e, a) && InvLock(e) && t in e.runners
    ensures StaysPut(e, CallNext(e, a), t)
  {
    hide Schedule, Cancel, CancelHangs, MarkRange;
  }

  lemma RunKeepsPlace(e: Engine, t: Tid, u: Tid, a: RunStep)
    requires RunEnabled(e, u, a) && t in e.runners && u != t
    ensures StaysPut(e, RunNext(e, u, a), t)
  {
  }

  lemma PollKeepsPlace(e: Engine, t: Tid, u: Tid, a: PollStep)
    requires PollEnabled(e, u, a) && InvLock(e) && t in e.runners && u != t
    ensures StaysPut(e, PollNext(e, u, a), t)
  {
    hide TryItem, EndEvent, BeginEvent, AtItem, Tried;
  }

  lemma CloseKeepsPlace(e: Engine, t: Tid, a: CloseStep)
    requires CloseEnabled(e, a) && InvLock(e) && t in e.runners
    ensures StaysPut(e, CloseNext(e, a), t)
  {
  }

  lemma StaysFollowing(e: Engine, f: Engine, t: Tid, l: seq<Note>)
    requires StaysPut(e, f, t) && Follows(f, t, l)
    ensures Follows(e, t, l)
  {
  }

  /** From any point of any run, with any number of other threads: what a runner
      does from there on is what its place in the program says. */
  lemma {:induction false} FollowsProgram(e: Engine, t: Tid, run: seq<Action>)
    requires Inv(e) && Legal(e, run) && t in e.runners
    ensures Follows(e, t, Log(e, t, run))
    decreases |run|
  {
    if run == [] {
      NothingFollows(e, t);
    } else {
      hide InvPlace, InvWork, InvLock, InvSched, InvEpoll, InvResults, InvWake, Enabled, Next, Follows, StaysPut, RunNote, PollNote;
      var a, f := run[0], Next(e, run[0]);
      StepKeepsInv(e, a);
      StillARunner(e, t, a);
      FollowsProgram(f, t, run[1..]);
      var l := Log(f, t, run[1..]);
      if a.InRun? && a.t == t {
        ByRunStep(e, t, a.run, l);
      } else if a.InPollOnce? && a.t == t {
        ByPollStep(e, t, a.poll, l);
      } else {
        OthersKeepPlace(e, t, a);
        StaysFollowing(e, f, t, l);
      }
    }
  }

  lemma NothingFollows(e: Engine, t: Tid)
    requires t in e.runners
    ensures Follows(e, t, [])
  {
  }

  lemma StillARunner(e: Engine, t: Tid, a: Action)
    requires Enabled(e, a) && InvLock(e) && t in e.runners
    ensures t in Next(e, a).runners
  {
    hide CallEnabled, CallNext, RunEnabled, RunNext, PollEnabled, PollNext, CloseEnabled, CloseNext, InvLock;
    if !(a.InRun? && a.t == t) && !(a.InPollOnce? && a.t == t) {
      OthersKeepPlace(e, t, a);
    } else if a.InRun? {
      OwnRunStays(e, t, a.run);
    } else {
      OwnPollStays(e, t, a.poll);
    }
  }

  lemma OwnRunStays(e: Engine, t: Tid, a: RunStep)
    requires RunEnabled(e, t, a)
    ensures t in RunNext(e, t, a).runners
  {
  }

  lemma OwnPollStays(e: Engine, t: Tid, a: PollStep)
    requires PollEnabled(e, t, a) && t in e.runners
    ensures t in PollNext(e, t, a).runners
  {
    hide TryItem, EndEvent, BeginEvent, AtItem, Tried;
  }

  lemma ByRunStep(e: Engine, t: Tid, a: RunStep, l: seq<Note>)
    requires Enabled(e, InRun(t, a)) && Follows(Next(e, InRun(t, a)), t, l)
    ensures RunEnabled(e, t, a) && Follows(e, t, [RunNote(e, t, a)] + l)
  {
    hide RunEnabled, RunNext, RunNote, Follows;
    OwnRunFollows(e, t, a, l);
  }

  lemma ByPollStep(e: Engine, t: Tid, a: PollStep, l: seq<Note>)
    requires Enabled(e, InPollOnce(t, a)) && InvLock(e) && InvPlace(e) && Follows(Next(e, InPollOnce(t, a)), t, l)
    ensures PollEnabled(e, t, a) && Follows(e, t, [PollNote(e, t, a)] + l)
  {
    hide PollEnabled, PollNext, PollNote, Follows, InvLock, InvPlace;
    OwnPollFollows(e, t, a, l);
  }

  /** In every run from the start, every runner follows the program from its
      outside on. */
  lemma EveryRunnerFollows(tids: set<Tid>, run: seq<Action>, t: Tid)
    requires Legal(Initial(tids), run) && t in tids
    ensures Away(Log(Initial(tids), t, run))
  {
    InitialInv(tids);
    FollowsProgram(Initial(tids), t, run);
    hide Log, Away, Legal, Inv;
  }

  // ----- no runner is ever stuck on its own

  predicate NeedsMutex(r: Runner)
  {
    r.AtPoll? || r.AtNotify?
  }

  /** A runner can always take its next step, unless that is to take a mutex
      that somebody holds. */
  lemma CanGoOn(e: Engine, t: Tid) returns (a: Action)
    requires Inv(e) && t in e.runners && !e.lock.Closed?
    requires NeedsMutex(e.runners[t]) ==> e.lock.Free?
    ensures Enabled(e, a) && ((a.InRun? && a.t == t) || (a.InPollOnce? && a.t == t))
  {
    match e.runners[t] {
      case AtPoll(_) => a := InPollOnce(t, BeginCancelPass);
      case Cancelling(_) => a := InPollOnce(t, CancellingNext(e, t));
      case InPoll(_, _) => a := InPollOnce(t, Deliver([]));
      case AtNotify(_, _) => a := InPollOnce(t, BeginNotify);
      case Notifying(_, _, _) => a := InPollOnce(t, NotifyingNext(e, t));
      case _ => a := InRun(t, RunNextStep(e.runners[t]));
    }
  }

  function RunNextStep(r: Runner): RunStep
  {
    match r
    case Outside => Enter
    case AtTest => Test
    case AtIdleCheck => IdleCheck(false)
    case Asleep(_) => WakeUp(false)
    case AtTake => Take
    case Draining(batch) => if batch == [] then DrainEnds else RunStep.Dispatch
    case Handling(_, _) => HandlerReturns
    case Unwinding(_) => RunStep.Requeue
    case AtMoreTest => MoreTest
    case AtSchedulerTest(_) => SchedulerTest
    case _ => GuardNotify
  }

  ghost function CancellingNext(e: Engine, t: Tid): (a: PollStep)
    requires InvLock(e) && t in e.runners && e.runners[t].Cancelling?
    ensures PollEnabled(e, t, a)
  {
    if e.lock.hand != [] then PostHand
    else if e.sched.cancelled != [] then EraseCancelled
    else EndCancelPass
  }

  ghost function NotifyingNext(e: Engine, t: Tid): (a: PollStep)
    requires InvLock(e) && t in e.runners && e.runners[t].Notifying?
    ensures PollEnabled(e, t, a)
  {
    if e.lock.hand != [] then PostHand
    else if e.lock.event.On? then if AtItem(e.sched, e.lock.event.pass) then Attempt(WouldBlock) else FinishEvent
    else if e.runners[t].events != [] then NextEvent
    else EndNotify
  }
}
