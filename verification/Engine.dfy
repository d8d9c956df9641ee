/** The completion engine as a transition system.  A step is one critical
    section, one atomic read or write of a counter, or one thing a thread does
    on its own; any number of runner threads and of other threads interleave.
    A step whose contract check would fail raises `failed`. */
module Engine {
  import opened Operations
  import opened SchedulerSpec

  type Tid = nat

  /** The Work objects that can be active: the one wrapped into an operation,
      the one a handler runs under, and those of the application. */
  datatype Work = OpWork(op: Op) | HandlerWork(tid: Tid) | UserWork(name: nat)

  /** Who is inside the scheduler's mutex, and the loop it runs there.  `hand`
      is an operation erased from the list and not yet posted, `removed` the
      number erased and not yet subtracted from the counter. */
  datatype Lock =
    | Free
    | CancelPass(owner: Tid, removed: nat, hand: seq<Op>)
    | NotifyPass(owner: Tid, removed: nat, hand: seq<Op>, event: Current)
    | Stuck   // a cancel that never returns
    | Closed  // the context is being destroyed

  /** The event a notification pass is working on. */
  datatype Current = Between | On(pass: Pass)

  /** Where a runner thread is in run, run_once and poll_once. */
  datatype Runner =
    | Outside
    | AtTest
    | AtIdleCheck
    | Asleep(notified: bool)
    | AtTake
    | Draining(batch: seq<Op>)
    | Handling(op: Op, batch: seq<Op>)
    | Unwinding(batch: seq<Op>)
    | Unwound
    | AtMoreTest
    | AtSchedulerTest(block: bool)
    | AtPoll(block: bool)
    | Cancelling(block: bool)
    | InPoll(block: bool, infinite: bool)
    | AtNotify(block: bool, events: seq<Event>)
    | Notifying(block: bool, events: seq<Event>, full: bool)
    | Returning

  /** Where an operation is; kept as history, to be tied to the containers. */
  datatype Place = Built | InActive | InCancelled | InHand | Queued | Held(tid: Tid) | Dispatched | Discarded

  datatype Engine = Engine(
    sched: Sched,
    count: int,                 // poll_queue_length_
    lock: Lock,
    queue: seq<Op>,             // completion_queue_
    runners: map<Tid, Runner>,
    works: set<Work>,
    remaining: int,             // remaining_count_
    built: set<Op>,
    place: map<Op, Place>,
    posted: seq<Op>,
    dispatched: seq<Op>,
    discarded: seq<Op>,
    failed: bool)

  function Batch(r: Runner): seq<Op>
  {
    match r
    case Draining(b) => b
    case Handling(_, b) => b
    case Unwinding(b) => b
    case _ => []
  }

  function Hand(l: Lock): seq<Op>
  {
    if l.CancelPass? || l.NotifyPass? then l.hand else []
  }

  function Removed(l: Lock): nat
  {
    if l.CancelPass? || l.NotifyPass? then l.removed else 0
  }

  function Initial(tids: set<Tid>): Engine
  {
    Engine(EMPTY, 0, Free, [], map t | t in tids :: Outside, {}, 0, {}, map[], [], [], [], false)
  }

  /** What any thread may do, a handler included. */
  datatype CallStep =
    | Build(op: Op)
    | PostBuilt(op: Op)
    | ScheduleBuilt(op: Op)
    | CancelFd(fd: int)
    | Latch(name: nat)
    | Move(source: nat, target: nat)
    | Reset(name: nat)
    | NotifyAll

  /** A runner's steps in run and run_once. */
  datatype RunStep =
    | Enter
    | Test
    | IdleCheck(sleep: bool)
    | WakeUp(again: bool)
    | Take
    | Dispatch
    | HandlerReturns
    | HandlerThrows
    | Requeue
    | DrainEnds
    | MoreTest
    | SchedulerTest
    | GuardNotify

  /** A runner's steps in poll_once. */
  datatype PollStep =
    | BeginCancelPass
    | EraseCancelled
    | EndCancelPass
    | Deliver(events: seq<Event>)
    | PollError
    | BeginNotify
    | NextEvent
    | Attempt(outcome: Outcome)
    | FinishEvent
    | EndNotify
    | PostHand

  /** The destructor's steps. */
  datatype CloseStep = Close | DiscardQueued | DiscardScheduled

  datatype Action =
    | ByAny(call: CallStep)
    | InRun(t: Tid, run: RunStep)
    | InPollOnce(t: Tid, poll: PollStep)
    | InDestructor(close: CloseStep)

  // ----- pieces of steps

  function Go(e: Engine, t: Tid, r: Runner): Engine
  {
    e.(runners := e.runners[t := r])
  }

  function Notified(runners: map<Tid, Runner>): map<Tid, Runner>
  {
    map t | t in runners :: if runners[t].Asleep? then Asleep(true) else runners[t]
  }

  /** Context::post: push_back and notify_all in one critical section. */
  function Post(e: Engine, op: Op): Engine
  {
    e.(queue := e.queue + [op], posted := e.posted + [op], place := e.place[op := Queued],
       runners := Notified(e.runners))
  }

  /** release_work for a Work object that is active. */
  function Release(e: Engine, w: Work): Engine
  {
    e.(works := e.works - {w}, remaining := e.remaining - 1, failed := e.failed || e.remaining <= 0)
  }

  /** decrement_count. */
  function Decrement(e: Engine, n: nat): Engine
  {
    e.(count := e.count - n, failed := e.failed || (n != 0 && e.count < n))
  }

  function Rehoused(place: map<Op, Place>, from: Place, to: Place): map<Op, Place>
  {
    map o | o in place :: if place[o] == from then to else place[o]
  }

  function Placed(place: map<Op, Place>, ops: seq<Op>, to: Place): map<Op, Place>
  {
    place + (map o | o in ops :: to)
  }

  predicate Is(e: Engine, t: Tid, r: Runner)
  {
    t in e.runners && e.runners[t] == r
  }

  predicate Owns(e: Engine, t: Tid)
  {
    (e.lock.CancelPass? || e.lock.NotifyPass?) && e.lock.owner == t
  }

  // ----- the steps

  ghost predicate CallEnabled(e: Engine, a: CallStep)
  {
    match a
    case Build(op) => !e.lock.Closed? && op !in e.place
    case PostBuilt(op) => !e.lock.Closed? && op in e.built && op.Callback?
    case ScheduleBuilt(op) => e.lock.Free? && op in e.built && op.Io?
    case CancelFd(_) => e.lock.Free?
    case Latch(n) => !e.lock.Closed? && UserWork(n) !in e.works
    case Move(_, m) => !e.lock.Closed? && UserWork(m) !in e.works
    case Reset(_) => !e.lock.Closed?
    case NotifyAll => true
  }

  ghost function CallNext(e: Engine, a: CallStep): Engine
    requires CallEnabled(e, a)
  {
    match a
    case Build(op) =>
      e.(built := e.built + {op}, place := e.place[op := Built], works := e.works + {OpWork(op)}, remaining := e.remaining + 1)
    case PostBuilt(op) => Post(e.(built := e.built - {op}), op)
    case ScheduleBuilt(op) =>
      e.(built := e.built - {op}, place := e.place[op := InActive],
         sched := Schedule(e.sched, op), count := e.count + 1)
    case CancelFd(fd) =>
      if CancelHangs(e.sched, fd) then
        // the operations are marked, and the splice goes on for ever
        e.(lock := Stuck, sched := MarkRange(e.sched, fd))
      else
        e.(sched := Cancel(e.sched, fd), place := Placed(e.place, Range(e.sched, fd), InCancelled))
    case Latch(n) => e.(works := e.works + {UserWork(n)}, remaining := e.remaining + 1)
    case Move(n, m) =>
      if UserWork(n) in e.works then e.(works := e.works - {UserWork(n)} + {UserWork(m)}) else e
    case Reset(n) =>
      if UserWork(n) in e.works then Release(e, UserWork(n)) else e
    case NotifyAll => e.(runners := Notified(e.runners))
  }

  ghost predicate RunEnabled(e: Engine, t: Tid, a: RunStep)
  {
    match a
    case Enter => !e.lock.Closed? && Is(e, t, Outside)
    case Test => Is(e, t, AtTest)
    case IdleCheck(sleep) => Is(e, t, AtIdleCheck) && (sleep ==> e.queue == [])
    case WakeUp(again) => t in e.runners && e.runners[t].Asleep? && (again ==> e.queue == [])
    case Take => Is(e, t, AtTake)
    case Dispatch => t in e.runners && e.runners[t].Draining? && e.runners[t].batch != []
    case HandlerReturns => t in e.runners && e.runners[t].Handling?
    case HandlerThrows => t in e.runners && e.runners[t].Handling?
    case Requeue => t in e.runners && e.runners[t].Unwinding?
    case DrainEnds => Is(e, t, Draining([]))
    case MoreTest => Is(e, t, AtMoreTest)
    case SchedulerTest => t in e.runners && e.runners[t].AtSchedulerTest?
    case GuardNotify => Is(e, t, Unwound) || Is(e, t, Returning)
  }

  ghost function RunNext(e: Engine, t: Tid, a: RunStep): Engine
    requires RunEnabled(e, t, a)
  {
    match a
    case Enter => Go(e, t, AtTest)
    case Test => if e.remaining > 0 then Go(e, t, AtIdleCheck) else Go(e, t, Outside)
    case IdleCheck(sleep) => if sleep then Go(e, t, Asleep(false)) else Go(e, t, AtTake)
    case WakeUp(again) => if again then Go(e, t, Asleep(false)) else Go(e, t, AtTake)
    case Take => Go(e.(queue := [], place := Rehoused(e.place, Queued, Held(t))), t, Draining(e.queue))
    case Dispatch =>
      var batch := e.runners[t].batch;
      var op := batch[0];
      // the callback and its Work move out, the operation is freed, then the
      // callback is invoked; an I/O operation must have its result by then
      Go(e.(place := e.place[op := Dispatched], dispatched := e.dispatched + [op],
            works := e.works - {OpWork(op)} + {HandlerWork(t)},
            failed := e.failed || (op.Io? && op !in e.sched.results)),
         t, Handling(op, batch[1..]))
    case HandlerReturns => Go(Release(e, HandlerWork(t)), t, Draining(e.runners[t].batch))
    case HandlerThrows => Go(Release(e, HandlerWork(t)), t, Unwinding(e.runners[t].batch))
    case Requeue =>
      Go(e.(queue := e.runners[t].batch + e.queue, place := Rehoused(e.place, Held(t), Queued)), t, Unwound)
    case DrainEnds => Go(e, t, AtMoreTest)
    case MoreTest => Go(e, t, AtSchedulerTest(e.queue == []))
    case SchedulerTest =>
      if e.count != 0 then Go(e, t, AtPoll(e.runners[t].block)) else Go(e, t, Returning)
    case GuardNotify =>
      Go(e.(runners := Notified(e.runners)), t, if e.runners[t].Unwound? then Outside else AtTest)
  }

  ghost predicate PollEnabled(e: Engine, t: Tid, a: PollStep)
  {
    match a
    case BeginCancelPass => e.lock.Free? && t in e.runners && e.runners[t].AtPoll?
    case EraseCancelled => e.lock.CancelPass? && Owns(e, t) && e.lock.hand == [] && e.sched.cancelled != []
    case EndCancelPass =>
      t in e.runners && e.runners[t].Cancelling? && e.lock.CancelPass? && Owns(e, t) && e.lock.hand == [] && e.sched.cancelled == []
    case Deliver(events) => t in e.runners && e.runners[t].InPoll? && |events| <= MAX_EVENTS_PER_POLL
    case PollError => t in e.runners && e.runners[t].InPoll?
    case BeginNotify => e.lock.Free? && t in e.runners && e.runners[t].AtNotify?
    case NextEvent =>
      t in e.runners && e.runners[t].Notifying? && e.runners[t].events != []
      && e.lock.NotifyPass? && Owns(e, t) && e.lock.event.Between? && e.lock.hand == []
    case Attempt(_) =>
      e.lock.NotifyPass? && Owns(e, t) && e.lock.event.On? && e.lock.hand == [] && AtItem(e.sched, e.lock.event.pass)
    case FinishEvent =>
      e.lock.NotifyPass? && Owns(e, t) && e.lock.event.On? && e.lock.hand == [] && !AtItem(e.sched, e.lock.event.pass)
    case EndNotify =>
      t in e.runners && e.runners[t].Notifying? && e.runners[t].events == []
      && e.lock.NotifyPass? && Owns(e, t) && e.lock.event.Between? && e.lock.hand == []
    case PostHand => (e.lock.CancelPass? || e.lock.NotifyPass?) && Owns(e, t) && e.lock.hand != []
  }

  ghost function PollNext(e: Engine, t: Tid, a: PollStep): Engine
    requires PollEnabled(e, t, a)
  {
    match a
    case BeginCancelPass => Go(e.(lock := CancelPass(t, 0, [])), t, Cancelling(e.runners[t].block))
    case EraseCancelled =>
      var op := e.sched.cancelled[0];
      e.(sched := e.sched.(cancelled := e.sched.cancelled[1..]), place := e.place[op := InHand],
         lock := CancelPass(t, e.lock.removed + 1, [op]))
    case EndCancelPass =>
      var removed, block := e.lock.removed, e.runners[t].block;
      var d := Decrement(e, removed).(lock := Free);
      if e.sched.active == [] then Go(d.(failed := d.failed || d.count != 0), t, Returning)
      else Go(d, t, InPoll(block, block && removed == 0))
    case Deliver(events) => Go(e, t, AtNotify(e.runners[t].block, events))
    case PollError => Go(e, t, Unwound)
    case BeginNotify =>
      var r := e.runners[t];
      Go(e.(lock := NotifyPass(t, 0, [], Between)), t, Notifying(r.block, r.events, |r.events| == MAX_EVENTS_PER_POLL))
    case NextEvent =>
      var r := e.runners[t];
      var current := if r.events[0].Wake? then Between else On(BeginEvent(e.sched, r.events[0].fd, r.events[0].readable));
      Go(e.(lock := e.lock.(event := current)), t, r.(events := r.events[1..]))
    case Attempt(outcome) =>
      var p := e.lock.event.pass;
      var op := e.sched.active[p.next];
      var step := TryItem(e.sched, p, outcome);
      var failed := e.failed || (Tried(e.sched, p) && op in e.sched.results);
      if step.posted == [] then e.(lock := e.lock.(event := On(step.pass)), failed := failed)
      else
        e.(sched := step.sched, place := e.place[op := InHand], failed := failed,
           lock := NotifyPass(t, e.lock.removed + 1, [op], On(step.pass)))
    case FinishEvent =>
      var p := e.lock.event.pass;
      e.(sched := EndEvent(e.sched, p), lock := e.lock.(event := Between),
         failed := e.failed || (p.seen != p.finished && p.fd !in e.sched.epoll))
    case EndNotify =>
      var r := e.runners[t];
      var d := Decrement(e, e.lock.removed).(lock := Free);
      Go(d, t, if r.full && !r.block then InPoll(false, false) else Returning)
    case PostHand => Post(e.(lock := e.lock.(hand := [])), e.lock.hand[0])
  }

  ghost predicate CloseEnabled(e: Engine, a: CloseStep)
  {
    match a
    case Close => e.lock.Free? && forall t :: t in e.runners ==> e.runners[t].Outside?
    case DiscardQueued => e.lock.Closed? && e.queue != []
    case DiscardScheduled => e.lock.Closed? && e.queue == [] && e.sched.active + e.sched.cancelled != []
  }

  ghost function CloseNext(e: Engine, a: CloseStep): Engine
    requires CloseEnabled(e, a)
  {
    match a
    case Close => e.(lock := Closed)
    case DiscardQueued =>
      var op := e.queue[0];
      Release(e.(queue := e.queue[1..], discarded := e.discarded + [op], place := e.place[op := Discarded]), OpWork(op))
    case DiscardScheduled =>
      var (op, sched) :=
        if e.sched.active != [] then (e.sched.active[0], e.sched.(active := e.sched.active[1..]))
        else (e.sched.cancelled[0], e.sched.(cancelled := e.sched.cancelled[1..]));
      Release(e.(sched := sched, discarded := e.discarded + [op], place := e.place[op := Discarded]), OpWork(op))
  }

  ghost predicate Enabled(e: Engine, a: Action)
  {
    match a
    case ByAny(c) => CallEnabled(e, c)
    case InRun(t, r) => RunEnabled(e, t, r)
    case InPollOnce(t, p) => PollEnabled(e, t, p)
    case InDestructor(d) => CloseEnabled(e, d)
  }

  ghost function Next(e: Engine, a: Action): Engine
    requires Enabled(e, a)
  {
    match a
    case ByAny(c) => CallNext(e, c)
    case InRun(t, r) => RunNext(e, t, r)
    case InPollOnce(t, p) => PollNext(e, t, p)
    case InDestructor(d) => CloseNext(e, d)
  }

  // ----- runs

  ghost predicate Legal(e: Engine, run: seq<Action>)
    decreases |run|
  {
    run != [] ==> Enabled(e, run[0]) && Legal(Next(e, run[0]), run[1..])
  }

  ghost function Final(e: Engine, run: seq<Action>): Engine
    requires Legal(e, run)
    decreases |run|
  {
    if run == [] then e else Final(Next(e, run[0]), run[1..])
  }
}
