/** The completion queue and the run loop of one runner, over the linked ring. */
module ContextThreads {
  import opened Sequences
  import opened IntrusiveLists
  import opened Operations
  import opened SchedulerSpec
  import opened SchedulerLaws
  import opened PollLaws
  import opened SchedulerRuns
  import opened IoSchedulers

  /** What a handler may do to its context, in any order, and how it ends. */
  datatype Deed = PostOp(op: Op) | ScheduleOp(op: Op) | CancelFd(fd: int) | LatchOwn | ReleaseOwn

  datatype Effect = Effect(deeds: seq<Deed>, throws: bool)

  /** The scheduler, the completion queue, and the Work the application holds. */
  datatype World = World(sched: Sched, queue: seq<Op>, held: nat)

  function Act(w: World, d: Deed): World
  {
    match d
    case PostOp(op) => w.(queue := w.queue + [op])
    case ScheduleOp(op) => w.(sched := Do(w.sched, DoSchedule(op)).0)
    case CancelFd(fd) => w.(sched := Do(w.sched, DoCancel(fd)).0)
    case LatchOwn => w.(held := w.held + 1)
    case ReleaseOwn => w.(held := if w.held > 0 then w.held - 1 else 0)
  }

  /** Only new operations are scheduled, no cancel hangs, and what is released
      is held. */
  ghost predicate Allowed(w: World, d: Deed)
  {
    match d
    case ScheduleOp(op) => Legal(w.sched, DoSchedule(op))
    case CancelFd(fd) => Legal(w.sched, DoCancel(fd))
    case ReleaseOwn => w.held > 0
    case _ => true
  }

  function ActAll(w: World, deeds: seq<Deed>): World
    decreases |deeds|
  {
    if deeds == [] then w else ActAll(Act(w, deeds[0]), deeds[1..])
  }

  ghost predicate AllAllowed(w: World, deeds: seq<Deed>)
    decreases |deeds|
  {
    deeds != [] ==> Allowed(w, deeds[0]) && AllAllowed(Act(w, deeds[0]), deeds[1..])
  }

  lemma FirstDeed(w: World, deeds: seq<Deed>)
    requires deeds != [] && AllAllowed(w, deeds)
    ensures Allowed(w, deeds[0]) && AllAllowed(Act(w, deeds[0]), deeds[1..])
    ensures ActAll(w, deeds) == ActAll(Act(w, deeds[0]), deeds[1..])
  {
  }

  // ----- what a handler's deeds come to, by counting them

  function Count(deeds: seq<Deed>, which: Deed -> bool): nat
  {
    if deeds == [] then 0 else (if which(deeds[0]) then 1 else 0) + Count(deeds[1..], which)
  }

  predicate IsSchedule(d: Deed) { d.ScheduleOp? }

  predicate IsLatch(d: Deed) { d.LatchOwn? }

  predicate IsRelease(d: Deed) { d.ReleaseOwn? }

  /** What is posted, in order. */
  function PostsOf(deeds: seq<Deed>): seq<Op>
  {
    if deeds == [] then [] else (if deeds[0].PostOp? then [deeds[0].op] else []) + PostsOf(deeds[1..])
  }

  /** The calls of the scheduler, in order. */
  function CallsOf(deeds: seq<Deed>): seq<Call>
  {
    if deeds == [] then []
    else
      (match deeds[0]
       case ScheduleOp(op) => [DoSchedule(op)]
       case CancelFd(fd) => [DoCancel(fd)]
       case _ => []) + CallsOf(deeds[1..])
  }

  /** After a handler the queue has gained its posts, the scheduler has taken its
      calls, and the application holds what it held, with the latches and without
      the releases. */
  ghost predicate Did(w: World, deeds: seq<Deed>, after: World)
  {
    && after.queue == w.queue + PostsOf(deeds)
    && after.sched == SchedulerRuns.Run(w.sched, CallsOf(deeds)).0
    && after.held == w.held + Count(deeds, IsLatch) - Count(deeds, IsRelease)
  }

  lemma {:induction false} ActAllExact(w: World, deeds: seq<Deed>)
    requires AllAllowed(w, deeds)
    ensures Did(w, deeds, ActAll(w, deeds))
    decreases |deeds|
  {
    if deeds == [] {
      assert w.queue + [] == w.queue;
    } else {
      var mid := Act(w, deeds[0]);
      ActAllExact(mid, deeds[1..]);
      hide ActAll, AllAllowed;
      DeedExact(w, deeds[0], deeds[1..], ActAll(mid, deeds[1..]));
      assert deeds == [deeds[0]] + deeds[1..];
    }
  }

  lemma DeedExact(w: World, d: Deed, rest: seq<Deed>, after: World)
    requires Allowed(w, d) && Did(Act(w, d), rest, after)
    ensures Did(w, [d] + rest, after)
  {
    hide PostsOf, CallsOf, Count, Do, SchedulerRuns.Run;
    DeedCounts(d, rest);
    match d {
      case PostOp(op) => assert (w.queue + [op]) + PostsOf(rest) == w.queue + ([op] + PostsOf(rest));
      case ScheduleOp(op) => CallFirst(w.sched, DoSchedule(op), CallsOf(rest));
      case CancelFd(fd) => CallFirst(w.sched, DoCancel(fd), CallsOf(rest));
      case _ =>
    }
  }

  lemma DeedCounts(d: Deed, rest: seq<Deed>)
    ensures PostsOf([d] + rest) == if d.PostOp? then [d.op] + PostsOf(rest) else PostsOf(rest)
    ensures CallsOf([d] + rest) == if d.ScheduleOp? then [DoSchedule(d.op)] + CallsOf(rest)
                                   else if d.CancelFd? then [DoCancel(d.fd)] + CallsOf(rest) else CallsOf(rest)
    ensures Count([d] + rest, IsLatch) == Count(rest, IsLatch) + if d.LatchOwn? then 1 else 0
    ensures Count([d] + rest, IsRelease) == Count(rest, IsRelease) + if d.ReleaseOwn? then 1 else 0
  {
    var all := [d] + rest;
    assert all[1..] == rest && all[0] == d;
    assert [] + CallsOf(rest) == CallsOf(rest) && [] + PostsOf(rest) == PostsOf(rest);
  }

  lemma CallFirst(s: Sched, c: Call, rest: seq<Call>)
    ensures SchedulerRuns.Run(s, [c] + rest).0 == SchedulerRuns.Run(Do(s, c).0, rest).0
  {
    assert ([c] + rest)[1..] == rest && ([c] + rest)[0] == c;
  }

  /** By how much the count grows. */
  function Growth(deeds: seq<Deed>): int
  {
    |PostsOf(deeds)| + Count(deeds, IsSchedule) + Count(deeds, IsLatch) - Count(deeds, IsRelease)
  }

  lemma FirstGrows(deeds: seq<Deed>)
    requires deeds != []
    ensures Growth(deeds) - Growth(deeds[1..])
         == match deeds[0]
            case PostOp(_) => 1
            case ScheduleOp(_) => 1
            case CancelFd(_) => 0
            case LatchOwn => 1
            case ReleaseOwn => -1
  {
  }

  lemma GrowthIs(deeds: seq<Deed>)
    ensures Growth(deeds)
         == |PostsOf(deeds)| + Count(deeds, IsSchedule) + Count(deeds, IsLatch) - Count(deeds, IsRelease)
    ensures Growth([]) == 0
  {
  }

  // ----- an account of one batch

  datatype Drained = Drained(world: World, dispatched: seq<Op>, left: seq<Op>, thrown: bool)

  function Drain(w: World, batch: seq<Op>, handle: Op -> Effect): Drained
    decreases |batch|
  {
    if batch == [] then Drained(w, [], [], false) else
      var after := ActAll(w, handle(batch[0]).deeds);
      if handle(batch[0]).throws then Drained(after, [batch[0]], batch[1..], true)
      else
        var rest := Drain(after, batch[1..], handle);
        rest.(dispatched := [batch[0]] + rest.dispatched)
  }

  ghost predicate DrainAllowed(w: World, batch: seq<Op>, handle: Op -> Effect)
    decreases |batch|
  {
    batch != [] ==>
      var e := handle(batch[0]);
      AllAllowed(w, e.deeds) && (!e.throws ==> DrainAllowed(ActAll(w, e.deeds), batch[1..], handle))
  }

  /** What is left when the given handlers have run, one after the other. */
  function Replay(w: World, ops: seq<Op>, handle: Op -> Effect): World
    decreases |ops|
  {
    if ops == [] then w else Replay(ActAll(w, handle(ops[0]).deeds), ops[1..], handle)
  }

  /** An account that splits the batch at its first throw. */
  ghost predicate Splits(d: Drained, w: World, batch: seq<Op>, handle: Op -> Effect)
  {
    && d.dispatched + d.left == batch
    && d.world == Replay(w, d.dispatched, handle)
    && (forall k :: 0 <= k < |d.dispatched| - 1 ==> !handle(d.dispatched[k]).throws)
    && (d.thrown <==> d.dispatched != [] && handle(d.dispatched[|d.dispatched| - 1]).throws)
    && (!d.thrown ==> d.left == [])
  }

  /** The batch is dispatched up to and including its first throwing handler;
      the rest is left in order; and the world is what those handlers, and no
      others, have made of it. */
  lemma {:induction false} DrainSplits(w: World, batch: seq<Op>, handle: Op -> Effect)
    ensures Splits(Drain(w, batch, handle), w, batch, handle)
    decreases |batch|
  {
    if batch != [] {
      var e := handle(batch[0]);
      assert batch == [batch[0]] + batch[1..];
      if e.throws {
        assert Replay(w, [batch[0]], handle) == ActAll(w, e.deeds);
      } else {
        DrainSplits(ActAll(w, e.deeds), batch[1..], handle);
        SplitsMore(batch[0], Drain(ActAll(w, e.deeds), batch[1..], handle), w, batch[1..], handle);
      }
    }
  }

  lemma SplitsMore(op: Op, rest: Drained, w: World, batch: seq<Op>, handle: Op -> Effect)
    requires Splits(rest, ActAll(w, handle(op).deeds), batch, handle) && !handle(op).throws
    ensures Splits(rest.(dispatched := [op] + rest.dispatched), w, [op] + batch, handle)
  {
    assert ([op] + rest.dispatched)[1..] == rest.dispatched;
    assert ([op] + rest.dispatched) + rest.left == [op] + (rest.dispatched + rest.left);
  }

  /** Everything the given handlers do, one after the other. */
  function AllDeeds(ops: seq<Op>, handle: Op -> Effect): seq<Deed>
  {
    if ops == [] then [] else handle(ops[0]).deeds + AllDeeds(ops[1..], handle)
  }

  lemma {:induction false} ActInTurn(w: World, a: seq<Deed>, b: seq<Deed>)
    requires AllAllowed(w, a) && AllAllowed(ActAll(w, a), b)
    ensures AllAllowed(w, a + b) && ActAll(w, a + b) == ActAll(ActAll(w, a), b)
    decreases |a|
  {
    if a == [] {
      assert a + b == b;
    } else {
      assert (a + b)[1..] == a[1..] + b && (a + b)[0] == a[0];
      ActInTurn(Act(w, a[0]), a[1..], b);
    }
  }

  /** The world after a batch, in terms of what the handlers that ran did. */
  lemma {:induction false} DrainExact(w: World, batch: seq<Op>, handle: Op -> Effect)
    requires DrainAllowed(w, batch, handle)
    ensures var d := Drain(w, batch, handle);
            && AllAllowed(w, AllDeeds(d.dispatched, handle))
            && d.world == ActAll(w, AllDeeds(d.dispatched, handle))
            && Did(w, AllDeeds(d.dispatched, handle), d.world)
    decreases |batch|
  {
    var d := Drain(w, batch, handle);
    if batch != [] {
      var e := handle(batch[0]);
      var after := ActAll(w, e.deeds);
      hide ActAll, AllAllowed, Did;
      if e.throws {
        assert AllDeeds([batch[0]], handle) == e.deeds + [] && e.deeds + [] == e.deeds;
      } else {
        DrainExact(after, batch[1..], handle);
        var rest := Drain(after, batch[1..], handle).dispatched;
        ActInTurn(w, e.deeds, AllDeeds(rest, handle));
        assert ([batch[0]] + rest)[1..] == rest;
      }
    }
    ActAllExact(w, AllDeeds(d.dispatched, handle));
  }

  /** What is done and what is still to do, together. */
  ghost predicate Ahead(goal: Drained, done: seq<Op>, rest: Drained)
  {
    goal == rest.(dispatched := done + rest.dispatched)
  }

  lemma DrainStep(goal: Drained, done: seq<Op>, w: World, batch: seq<Op>, handle: Op -> Effect)
    requires batch != [] && Ahead(goal, done, Drain(w, batch, handle)) && DrainAllowed(w, batch, handle)
    ensures AllAllowed(w, handle(batch[0]).deeds)
    ensures var e := handle(batch[0]);
            var after := ActAll(w, e.deeds);
            if e.throws then goal == Drained(after, done + [batch[0]], batch[1..], true)
            else Ahead(goal, done + [batch[0]], Drain(after, batch[1..], handle)) && DrainAllowed(after, batch[1..], handle)
  {
    hide ActAll, AllAllowed;
    if !handle(batch[0]).throws {
      var rest := Drain(ActAll(w, handle(batch[0]).deeds), batch[1..], handle);
      assert (done + [batch[0]]) + rest.dispatched == done + ([batch[0]] + rest.dispatched);
    }
  }

  lemma DrainBegins(goal: Drained)
    ensures Ahead(goal, [], goal)
  {
    assert [] + goal.dispatched == goal.dispatched;
  }

  lemma DrainEnds(goal: Drained, done: seq<Op>, w: World, handle: Op -> Effect)
    ensures Ahead(goal, done, Drain(w, [], handle)) ==> goal == Drained(w, done, [], false)
  {
    assert done + [] == done;
  }

  lemma ValuesNone()
    ensures Values([]) == []
  {
  }

  lemma ValuesTail(s: seq<ListItem<Op>>)
    requires s != []
    ensures Values(s) != [] && Values(s[1..]) == Values(s)[1..] && Values(s)[0] == s[0].value
  {
  }

  lemma ValuesEmpty(s: seq<ListItem<Op>>)
    ensures Values(s) == [] <==> s == []
  {
  }

  /** Requeued in front, the rest of a batch keeps the posting order. */
  lemma DrainInOrder(posted: seq<Op>, dispatched: seq<Op>, w: World, batch: seq<Op>, handle: Op -> Effect)
    requires posted == dispatched + batch
    ensures var d := Drain(w, batch, handle);
            && posted + d.world.queue == (dispatched + d.dispatched) + (d.left + d.world.queue)
            && |d.left| == |batch| - |d.dispatched|
            && (!d.thrown ==> d.left + d.world.queue == d.world.queue)
  {
    hide Drain, Replay;
    DrainSplits(w, batch, handle);
    var d := Drain(w, batch, handle);
    assert |d.dispatched + d.left| == |d.dispatched| + |d.left|;
    Reassociate(dispatched, d.dispatched, d.left, d.world.queue);
  }

  lemma Reassociate(a: seq<Op>, b: seq<Op>, c: seq<Op>, d: seq<Op>)
    ensures a + (b + c) + d == (a + b) + (c + d)
    ensures [] + d == d
  {
  }

  // ----- run_once on values

  datatype Once = Once(world: World, num: nat, thrown: bool, entry: Entry)

  /** The queue is taken whole, so the handlers of the batch begin with none. */
  function Batch(w: World, handle: Op -> Effect): Drained
  {
    Drain(w.(queue := []), w.queue, handle)
  }

  /** No handler of the batch does what it may not, and the poll that follows
      has as many rounds as it asks for. */
  ghost predicate PassReady(w: World, handle: Op -> Effect, rounds: seq<Round>)
  {
    var d := Batch(w, handle);
    && DrainAllowed(w.(queue := []), w.queue, handle)
    && (!d.thrown && d.world.sched.active != [] ==> Enough(rounds, d.world.queue == [], 0))
  }

  ghost function RunOnceSpec(w: World, handle: Op -> Effect, rounds: seq<Round>): Once
    requires PassReady(w, handle, rounds)
  {
    var d := Batch(w, handle);
    if d.thrown then
      DrainSplits(w.(queue := []), w.queue, handle);
      Once(d.world.(queue := d.left + d.world.queue), |d.dispatched| - 1, true, NotEntered)
    else PollSpec(d.world, |d.dispatched|, rounds)
  }

  /** The poll, unless the scheduler is empty. */
  ghost function PollSpec(w: World, num: nat, rounds: seq<Round>): Once
    requires w.sched.active != [] ==> Enough(rounds, w.queue == [], 0)
  {
    if w.sched.active == [] && w.sched.cancelled == [] then Once(w, num, false, NotEntered)
    else
      var p := Poll(w.sched, w.queue == [], rounds);
      Once(w.(sched := p.sched, queue := w.queue + p.posted), num, p.thrown, PollEntry(w.sched, w.queue == []))
  }

  /** The end of run_once, told without its functions: with nothing waiting on a
      descriptor the system is not asked; it is asked without a timeout exactly
      when no completion is queued and nothing is cancelled; and either way the
      cancelled operations, and what the rounds complete, are queued behind what
      was there. */
  ghost predicate PollHappened(w: World, rounds: seq<Round>, after: World, thrown: bool, entry: Entry)
  {
    && (entry == NotEntered <==> w.sched.active == [])
    && (entry == Blocking <==> w.queue == [] && w.sched.cancelled == [] && w.sched.active != [])
    && after.held == w.held && w.queue <= after.queue
    && PollTold(w.sched, w.queue == [], rounds, after.queue[|w.queue|..], after.sched, thrown)
  }

  lemma PollSpecHappened(w: World, num: nat, rounds: seq<Round>)
    requires Fine(w.sched) && (w.sched.active != [] ==> Enough(rounds, w.queue == [], 0))
    ensures var o := PollSpec(w, num, rounds);
            PollHappened(w, rounds, o.world, o.thrown, o.entry)
  {
    PollIsTold(w.sched, w.queue == [], rounds);
    hide Fine, Enough;
    if w.sched.active == [] {
      PollOfNone(w.sched, w.queue == [], rounds);
    }
    hide Poll;
  }

  // ----- the run loop of one runner whose handlers create no work

  /** The handlers may cancel; they do not post, schedule, latch or throw. */
  ghost predicate CreatesNothing(handle: Op -> Effect)
  {
    forall op :: !handle(op).throws && OnlyCancels(handle(op).deeds)
  }

  predicate OnlyCancels(deeds: seq<Deed>)
  {
    forall k :: 0 <= k < |deeds| ==> deeds[k].CancelFd?
  }

  ghost predicate Fine(s: Sched)
  {
    Partition(s) && EpollAgrees(s)
  }

  function Size(s: Sched): nat
  {
    |s.active| + |s.cancelled|
  }

  lemma CancelKeepsSize(s: Sched, fd: int)
    requires Fine(s)
    ensures Fine(Cancel(s, fd)) && Size(Cancel(s, fd)) == Size(s)
  {
    hide Cancel;
    CancelKeepsPartition(s, fd);
    CancelKeepsEpoll(s, fd);
    CancelMoves(s, fd);
  }

  lemma {:induction false} CancelsKeepSize(w: World, deeds: seq<Deed>)
    requires Fine(w.sched) && OnlyCancels(deeds)
    ensures var t := ActAll(w, deeds);
            Fine(t.sched) && Size(t.sched) == Size(w.sched) && t.queue == w.queue && t.held == w.held
    decreases |deeds|
  {
    hide Fine, Size;
    if deeds != [] {
      CancelKeepsSize(w.sched, deeds[0].fd);
      hide Cancel;
      CancelsKeepSize(Act(w, deeds[0]), deeds[1..]);
    }
  }

  /** Such handlers dispatch their whole batch and leave as much scheduled. */
  lemma {:induction false} DrainCreatesNothing(w: World, batch: seq<Op>, handle: Op -> Effect)
    requires Fine(w.sched) && CreatesNothing(handle)
    ensures var d := Drain(w, batch, handle);
            && d.dispatched == batch && d.left == [] && !d.thrown
            && Fine(d.world.sched) && Size(d.world.sched) == Size(w.sched)
            && d.world.queue == w.queue && d.world.held == w.held
    decreases |batch|
  {
    hide Fine, Size, ActAll, OnlyCancels;
    if batch != [] {
      CancelsKeepSize(w, handle(batch[0]).deeds);
      DrainCreatesNothing(ActAll(w, handle(batch[0]).deeds), batch[1..], handle);
      assert batch == [batch[0]] + batch[1..];
    }
  }

  /** The pass that starts in w goes as the environment promises: no cancel of
      its handlers hangs, the do-while of its poll is finite and does not fail,
      and a poll that blocks delivers at least one completion. */
  ghost predicate Delivers(w: World, handle: Op -> Effect, rounds: seq<Round>)
  {
    && DrainAllowed(w.(queue := []), w.queue, handle)
    && PollDelivers(Batch(w, handle).world.sched, rounds)
  }

  ghost predicate PollDelivers(s: Sched, rounds: seq<Round>)
  {
    s.active != [] ==>
      && Enough(rounds, true, 0)
      && !Poll(s, true, rounds).thrown
      && (PollEntry(s, true) == Blocking ==> Poll(s, true, rounds).posted != [])
  }

  /** One pass of the loop: the queue is dispatched, then the scheduler polled. */
  ghost function AfterPass(w: World, handle: Op -> Effect, rounds: seq<Round>): World
  {
    if PassReady(w, handle, rounds) then RunOnceSpec(w, handle, rounds).world else w
  }

  ghost function StateAt(w: World, handle: Op -> Effect, polls: nat -> seq<Round>, n: nat): World
  {
    if n == 0 then w else AfterPass(StateAt(w, handle, polls, n - 1), handle, polls(n - 1))
  }

  ghost predicate DeliversAlways(w: World, handle: Op -> Effect, polls: nat -> seq<Round>)
  {
    forall n: nat :: Delivers(StateAt(w, handle, polls, n), handle, polls(n))
  }

  lemma DeliversNow(w: World, handle: Op -> Effect, polls: nat -> seq<Round>, n: nat)
    requires DeliversAlways(w, handle, polls)
    ensures Delivers(StateAt(w, handle, polls, n), handle, polls(n))
    ensures StateAt(w, handle, polls, 0) == w
    ensures StateAt(w, handle, polls, n + 1) == AfterPass(StateAt(w, handle, polls, n), handle, polls(n))
  {
  }

  /** A pass whose handlers create nothing dispatches the whole queue, whatever
      they cancel, and then polls. */
  lemma OnePass(w: World, handle: Op -> Effect, rounds: seq<Round>)
    requires Fine(w.sched) && CreatesNothing(handle) && Delivers(w, handle, rounds)
    ensures PassReady(w, handle, rounds)
    ensures var d, o := Batch(w, handle), RunOnceSpec(w, handle, rounds);
            && d.dispatched == w.queue && d.world.queue == [] && d.left == []
            && Size(d.world.sched) == Size(w.sched) && d.world.held == w.held
            && o.world == AfterPass(w, handle, rounds) && o.num == |w.queue| && !o.thrown && o.world.held == w.held
  {
    hide Fine, Size, DrainAllowed, CreatesNothing, Poll, Enough;
    DrainCreatesNothing(w.(queue := []), w.queue, handle);
    PollSucceeds(Batch(w, handle).world.sched, rounds);
    hide Drain;
  }

  lemma PollSucceeds(s: Sched, rounds: seq<Round>)
    requires PollDelivers(s, rounds)
    ensures s.active != [] ==> Enough(rounds, true, 0)
    ensures !Poll(s, true, rounds).thrown
  {
  }

  /** A pass makes progress: whatever it takes off the scheduler is queued, and
      if nothing was queued before, no handler runs and it takes at least one. */
  lemma PassProgress(w: World, handle: Op -> Effect, rounds: seq<Round>)
    requires Delivers(w, handle, rounds) && PassReady(w, handle, rounds)
    requires |w.queue| + Size(w.sched) > 0
    ensures w.queue == [] ==> AfterPass(w, handle, rounds).queue != []
  {
    if w.queue == [] {
      assert Batch(w, handle) == Drained(w, [], [], false);
      PollProgress(w.sched, rounds);
      hide Drain, DrainAllowed, Poll, Enough;
    }
  }

  /** Both, and what they come to in numbers. */
  lemma PassFacts(w: World, handle: Op -> Effect, rounds: seq<Round>)
    requires Fine(w.sched) && CreatesNothing(handle) && Delivers(w, handle, rounds)
    requires |w.queue| + Size(w.sched) > 0
    ensures PassReady(w, handle, rounds)
    ensures var o := RunOnceSpec(w, handle, rounds);
            && Batch(w, handle).dispatched == w.queue && Batch(w, handle).left + Batch(w, handle).world.queue == []
            && Size(Batch(w, handle).world.sched) == Size(w.sched) && Batch(w, handle).world.held == w.held
            && o.world == AfterPass(w, handle, rounds) && o.num == |w.queue| && !o.thrown && o.world.held == w.held
            && (w.queue == [] ==> o.world.queue != [])
  {
    OnePass(w, handle, rounds);
    PassProgress(w, handle, rounds);
  }

  lemma PollProgress(s: Sched, rounds: seq<Round>)
    requires PollDelivers(s, rounds) && Size(s) > 0
    ensures s.active != [] ==> Enough(rounds, true, 0)
    ensures Poll(s, true, rounds).posted != []
  {
  }

  class ContextThread {
    const io: IoScheduler
    const queue: IntrusiveList<Op>
    var remaining: nat
    ghost var held: nat  // Work objects of the application that are active
    ghost var posted: seq<Op>
    ghost var dispatched: seq<Op>

    ghost predicate Separate()
      reads queue, io, io.operations
    {
      queue.Apart(io.operations)
    }

    /** The two rings are sound and apart. */
    ghost predicate Sane()
      reads queue, queue.Nodes(), io, io.operations, io.operations.Nodes()
      ensures Sane() ==> io.split <= |io.operations.items|
    {
      queue.Valid() && io.Sound() && Separate()
    }

    /** A runner's own list of what it has taken, apart from both. */
    ghost predicate Holds(tmp: IntrusiveList<Op>)
      reads queue, queue.Nodes(), io, io.operations, io.operations.Nodes(), tmp, tmp.Nodes()
      ensures Holds(tmp) ==> Sane() && tmp.Valid() && io.split <= |io.operations.items|
    {
      Sane() && tmp.Valid() && tmp.Apart(queue) && tmp.Apart(io.operations)
    }

    ghost function Now(): World
      requires io.split <= |io.operations.items|
      reads this, queue, io, io.operations
    {
      World(io.View(), Values(queue.items), held)
    }

    /** The Work objects that are active outside handlers. */
    ghost function Pending(): nat
      reads this, queue, io, io.operations
    {
      |queue.items| + |io.operations.items| + held
    }

    /** The queue holds, in posting order, what has been posted and not yet
        dispatched; and the count is what is waiting or held, exactly. */
    ghost predicate Valid()
      reads this, queue, queue.Nodes(), io, io.operations, io.operations.Nodes()
      ensures Valid() ==> io.split <= |io.operations.items|
    {
      && Sane()
      && posted == dispatched + Values(queue.items)
      && remaining == Pending()
    }

    constructor ()
      ensures Valid() && Now() == World(EMPTY, [], 0) && remaining == 0
      ensures posted == [] && dispatched == []
      ensures fresh(io) && fresh(io.operations) && fresh(io.operations.Nodes()) && fresh(queue) && fresh(queue.Nodes())
    {
      io := new IoScheduler();
      queue := new IntrusiveList<Op>();
      remaining, held, posted, dispatched := 0, 0, [], [];
      new;
      EmptySound();
    }

    lemma EmptySound()
      ensures Partition(EMPTY) && EpollAgrees(EMPTY)
    {
      assert forall fd :: AgreesAt(EMPTY, fd);
    }

    /** `latch_work`, for the application. */
    method LatchWork()
      modifies this`remaining, this`held
      ensures remaining == old(remaining) + 1 && held == old(held) + 1
    {
      remaining, held := remaining + 1, held + 1;
    }

    /** `release_work`, for the application: the count is not zero. */
    method ReleaseWork()
      requires held > 0 && remaining >= held
      modifies this`remaining, this`held
      ensures remaining == old(remaining) - 1 && held == old(held) - 1
    {
      remaining, held := remaining - 1, held - 1;
    }

    /** `post` of an operation whose node is in no list. */
    method PostNode(node: ListItem<Op>)
      requires queue.Valid() && node !in queue.Nodes()
      modifies this`posted, queue, queue.Nodes(), node
      ensures queue.Valid() && queue.Nodes() == old(queue.Nodes()) + {node}
      ensures Values(queue.items) == old(Values(queue.items)) + [node.value]
      ensures posted == old(posted) + [node.value]
    {
      hide IntrusiveList.Valid;
      ghost var items := queue.items;
      queue.PushBack(node);
      posted := posted + [node.value];
      ValuesConcat(items, [node]);
      assert Values([node]) == [node.value];
    }

    /** `post` of a callback: it is built with its Work, then queued. */
    method Post(op: Op)
      requires Sane()
      modifies this`remaining, this`posted, queue, queue.Nodes()
      ensures Sane() && Now() == Act(old(Now()), PostOp(op))
      ensures posted == old(posted) + [op] && remaining == old(remaining) + 1
      ensures remaining - Pending() == old(remaining - Pending())
      ensures forall n :: n in queue.Nodes() ==> n in old(queue.Nodes()) || fresh(n)
    {
      hide IntrusiveList.Valid, IoScheduler.Sound, IoScheduler.View, Values;
      label before:
      remaining := remaining + 1;
      var node := new ListItem(op);
      PostNode(node);
      io.Framed@before();
    }

    /** An I/O operation is built with its Work, then scheduled. */
    method ScheduleIo(op: Op)
      requires Sane() && Allowed(Now(), ScheduleOp(op))
      modifies this`remaining, io, io.operations, io.operations.Nodes()
      ensures Sane() && Now() == Act(old(Now()), ScheduleOp(op)) && remaining == old(remaining) + 1
      ensures remaining - Pending() == old(remaining - Pending())
      ensures forall n :: n in io.operations.Nodes() ==> n in old(io.operations.Nodes()) || fresh(n)
    {
      hide IntrusiveList.Valid, IoScheduler.Valid, IoScheduler.View, Partition, EpollAgrees, Values, SchedulerSpec.Schedule, Unknown;
      label before:
      DoKeeps(io.View(), DoSchedule(op));
      PartitionSorted(io.View());
      remaining := remaining + 1;
      var node := new ListItem(op);
      io.Schedule(node);
      queue.Framed@before();
    }

    /** `cancel`, from a handler. */
    method CancelIo(fd: int)
      requires Sane() && Allowed(Now(), CancelFd(fd))
      modifies io, io.operations, io.operations.Nodes()
      ensures Sane() && Now() == Act(old(Now()), CancelFd(fd))
      ensures Pending() == old(Pending()) && io.operations.Nodes() == old(io.operations.Nodes())
    {
      hide IntrusiveList.Valid, IoScheduler.Valid, IoScheduler.View, Partition, EpollAgrees, Values, SchedulerSpec.Cancel, CancelHangs;
      label before:
      DoKeeps(io.View(), DoCancel(fd));
      PartitionSorted(io.View());
      io.Cancel(fd);
      queue.Framed@before();
    }

    /** One thing a handler does. */
    method Perform(d: Deed)
      requires Sane() && Allowed(Now(), d) && remaining >= Pending()
      modifies this`remaining, this`held, this`posted, queue, queue.Nodes(), io, io.operations, io.operations.Nodes()
      ensures Sane() && Now() == Act(old(Now()), d)
      ensures remaining - Pending() == old(remaining - Pending())
      ensures posted == old(posted) + if d.PostOp? then [d.op] else []
      ensures held == old(held) + if d.LatchOwn? then 1 else if d.ReleaseOwn? then -1 else 0
      ensures remaining == old(remaining) + match d
                                            case PostOp(_) => 1
                                            case ScheduleOp(_) => 1
                                            case CancelFd(_) => 0
                                            case LatchOwn => 1
                                            case ReleaseOwn => -1
      ensures forall n :: n in queue.Nodes() ==> n in old(queue.Nodes()) || fresh(n)
      ensures forall n :: n in io.operations.Nodes() ==> n in old(io.operations.Nodes()) || fresh(n)
    {
      hide Sane, Separate, IoScheduler.View, Values;
      match d
      case PostOp(op) => Post(op);
      case ScheduleOp(op) => ScheduleIo(op);
      case CancelFd(fd) => CancelIo(fd);
      case LatchOwn => LatchWork();
      case ReleaseOwn => ReleaseWork();
    }

    /** A handler, from its start to its end or its throw. */
    method Handle(deeds: seq<Deed>, ghost was: seq<Op>)
      requires Sane() && AllAllowed(Now(), deeds) && remaining >= Pending() && posted == was + Now().queue
      modifies this`remaining, this`held, this`posted, queue, queue.Nodes(), io, io.operations, io.operations.Nodes()
      ensures Sane() && Now() == ActAll(old(Now()), deeds)
      ensures remaining - Pending() == old(remaining - Pending())
      ensures posted == was + Now().queue
      ensures Did(old(Now()), deeds, Now())
      ensures remaining == old(remaining) + |PostsOf(deeds)| + Count(deeds, IsSchedule) + Count(deeds, IsLatch)
                           - Count(deeds, IsRelease)
      ensures forall n :: n in queue.Nodes() ==> n in old(queue.Nodes()) || fresh(n)
      ensures forall n :: n in io.operations.Nodes() ==> n in old(io.operations.Nodes()) || fresh(n)
    {
      hide Separate, IoScheduler.View, Values, IntrusiveList.Valid, IoScheduler.Sound, Allowed, Did, Growth;
      ActAllExact(Now(), deeds);
      var i := 0;
      assert deeds[0..] == deeds;
      while i < |deeds|
        invariant i <= |deeds| && Sane()
        invariant ActAll(Now(), deeds[i..]) == ActAll(old(Now()), deeds) && AllAllowed(Now(), deeds[i..])
        invariant remaining - Pending() == old(remaining - Pending())
        invariant posted == was + Now().queue
        invariant remaining + Growth(deeds[i..]) == old(remaining) + Growth(deeds)
        invariant forall n :: n in queue.Nodes() ==> n in old(queue.Nodes()) || fresh(n)
        invariant forall n :: n in io.operations.Nodes() ==> n in old(io.operations.Nodes()) || fresh(n)
      {
        FirstDeed(Now(), deeds[i..]);
        FirstGrows(deeds[i..]);
        assert deeds[i..][0] == deeds[i] && deeds[i..][1..] == deeds[i + 1..];
        ghost var queued := Now().queue;
        Perform(deeds[i]);
        assert deeds[i].PostOp? ==> was + (queued + [deeds[i].op]) == (was + queued) + [deeds[i].op];
        i := i + 1;
      }
      GrowthIs(deeds);
    }

    /** The batch, the loop over it and the guard of `run_once`. */
    method DispatchBatch(handle: Op -> Effect) returns (num: nat, thrown: bool)
      requires Valid() && DrainAllowed(Now().(queue := []), Now().queue, handle)
      modifies this`remaining, this`held, this`posted, this`dispatched
      modifies queue, queue.Nodes(), io, io.operations, io.operations.Nodes()
      ensures Valid()
      ensures var d := Batch(old(Now()), handle);
              && thrown == d.thrown
              && Now() == d.world.(queue := d.left + d.world.queue)
              && dispatched == old(dispatched) + d.dispatched && posted == old(posted) + d.world.queue
              && num == if thrown then |d.dispatched| - 1 else |d.dispatched|
      ensures forall n :: n in queue.Nodes() ==> n in old(queue.Nodes()) || fresh(n)
      ensures forall n :: n in io.operations.Nodes() ==> n in old(io.operations.Nodes()) || fresh(n)
    {
      hide IntrusiveList.Valid, Sane, Holds, Pending, IoScheduler.View, Values, Drain, DrainAllowed, Ahead, ActAll, AllAllowed;
      ghost var w, batch, done := Now().(queue := []), Now().queue, [];
      ghost var goal := Drain(w, batch, handle);
      DrainInOrder(posted, dispatched, w, batch, handle);
      DrainBegins(goal);
      assert dispatched == old(dispatched) + [] && posted == old(posted) + [];
      var tmp := TakeBatch();
      num, thrown := 0, false;
      var empty := NoneLeft(tmp);
      while !empty && !thrown
        invariant Holds(tmp)
        invariant forall n :: n in queue.Nodes() + tmp.Nodes() ==> n in old(queue.Nodes()) || fresh(n)
        invariant forall n :: n in io.operations.Nodes() ==> n in old(io.operations.Nodes()) || fresh(n)
        invariant !thrown ==> empty == (tmp.items == [])
        invariant dispatched == old(dispatched) + done && posted == old(posted) + Now().queue
        invariant remaining == Pending() + |tmp.items|
        invariant num == if thrown then |done| - 1 else |done|
        invariant if thrown then goal == Drained(Now(), done, Values(tmp.items), true)
                  else Ahead(goal, done, Drain(Now(), Values(tmp.items), handle)) && DrainAllowed(Now(), Values(tmp.items), handle)
        decreases |tmp.items|, !thrown
      {
        ValuesTail(tmp.items);
        DrainStep(goal, done, Now(), Values(tmp.items), handle);
        ghost var op := tmp.items[0].value;
        assert (old(dispatched) + done) + [op] == old(dispatched) + (done + [op]);
        thrown, empty := DispatchOne(tmp, handle, old(posted));
        done := done + [op];
        if !thrown {
          num := num + 1;
        }
      }
      ValuesNone();
      DrainEnds(goal, done, Now(), handle);
      Requeue(tmp);
    }

    /** One turn of drain_list: the front operation leaves the batch and its
        handler runs; the handler's Work ends with it, thrown or not. */
    method DispatchOne(tmp: IntrusiveList<Op>, handle: Op -> Effect, ghost was: seq<Op>)
      returns (thrown: bool, empty: bool)
      requires Holds(tmp)
      requires tmp.items != [] && AllAllowed(Now(), handle(tmp.items[0].value).deeds)
      requires remaining == Pending() + |tmp.items| && posted == was + Now().queue
      modifies this`remaining, this`held, this`posted, this`dispatched
      modifies queue, queue.Nodes(), io, io.operations, io.operations.Nodes(), tmp, tmp.Nodes()
      ensures Holds(tmp)
      ensures tmp.items == old(tmp.items)[1..]
      ensures forall n :: n in queue.Nodes() + tmp.Nodes() ==> n in old(queue.Nodes() + tmp.Nodes()) || fresh(n)
      ensures forall n :: n in io.operations.Nodes() ==> n in old(io.operations.Nodes()) || fresh(n)
      ensures var op := old(tmp.items)[0].value;
              && thrown == handle(op).throws && (!thrown ==> empty == (tmp.items == []))
              && dispatched == old(dispatched) + [op]
              && Now() == ActAll(old(Now()), handle(op).deeds) && Did(old(Now()), handle(op).deeds, Now())
              && remaining == old(remaining) - 1 + |PostsOf(handle(op).deeds)| + Count(handle(op).deeds, IsSchedule)
                              + Count(handle(op).deeds, IsLatch) - Count(handle(op).deeds, IsRelease)
      ensures remaining == Pending() + |tmp.items| && posted == was + Now().queue
    {
      hide IntrusiveList.Valid, Sane, Holds, IoScheduler.View, Values, ActAll, AllAllowed, Did;
      var item := PopOne(tmp);
      dispatched := dispatched + [item.value];
      var effect := handle(item.value);
      RunHandler(tmp, effect.deeds, was);
      thrown := effect.throws;
      empty := NoneLeft(tmp);
    }

    /** The test of drain_list's loop. */
    method NoneLeft(tmp: IntrusiveList<Op>) returns (empty: bool)
      requires Holds(tmp)
      ensures Holds(tmp) && empty == (tmp.items == [])
    {
      hide IntrusiveList.Valid, Sane;
      empty := tmp.Empty();
    }

    method PopOne(tmp: IntrusiveList<Op>) returns (item: ListItem<Op>)
      requires Holds(tmp) && tmp.items != []
      modifies tmp, tmp.Nodes()
      ensures Holds(tmp) && Now() == old(Now()) && Pending() == old(Pending())
      ensures item == old(tmp.items)[0] && tmp.items == old(tmp.items)[1..] && tmp.Nodes() <= old(tmp.Nodes())
    {
      hide IntrusiveList.Valid, Sane, IoScheduler.View, Values;
      item := tmp.Front();
      tmp.PopFront();
    }

    /** The handler, and the end of its Work. */
    method RunHandler(tmp: IntrusiveList<Op>, deeds: seq<Deed>, ghost was: seq<Op>)
      requires Holds(tmp) && AllAllowed(Now(), deeds)
      requires remaining == Pending() + |tmp.items| + 1 && posted == was + Now().queue
      modifies this`remaining, this`held, this`posted, queue, queue.Nodes(), io, io.operations, io.operations.Nodes()
      ensures Holds(tmp) && Now() == ActAll(old(Now()), deeds) && tmp.items == old(tmp.items) && tmp.Nodes() == old(tmp.Nodes())
      ensures remaining == Pending() + |tmp.items| && posted == was + Now().queue
      ensures Did(old(Now()), deeds, Now())
      ensures remaining == old(remaining) - 1 + |PostsOf(deeds)| + Count(deeds, IsSchedule) + Count(deeds, IsLatch)
                           - Count(deeds, IsRelease)
      ensures forall n :: n in queue.Nodes() ==> n in old(queue.Nodes()) || fresh(n)
      ensures forall n :: n in io.operations.Nodes() ==> n in old(io.operations.Nodes()) || fresh(n)
    {
      hide IntrusiveList.Valid, Sane, IoScheduler.View, Values, ActAll, AllAllowed, Did;
      label before:
      Handle(deeds, was);
      tmp.Framed@before();
      remaining := remaining - 1;
    }

    /** The first critical section of `run_once`: the queue moves, whole, into
        a list of the runner's own. */
    method TakeBatch() returns (tmp: IntrusiveList<Op>)
      requires Sane()
      modifies queue, queue.Nodes()
      ensures fresh(tmp) && Holds(tmp)
      ensures tmp.items == old(queue.items) && queue.items == [] && Now() == old(Now()).(queue := [])
      ensures Pending() + |tmp.items| == old(Pending())
      ensures forall n :: n in queue.Nodes() + tmp.Nodes() ==> n in old(queue.Nodes()) || fresh(n)
    {
      hide IntrusiveList.Valid, IoScheduler.Sound, IoScheduler.View, Values;
      label before:
      tmp := new IntrusiveList<Op>();
      ghost var taken := queue.items;
      assert tmp.items[..0] + taken + tmp.items[0..] == taken;
      var _ := tmp.SpliceAll(tmp.sentinel, queue, 0);
      io.Framed@before();
      ValuesNone();
    }

    /** The guard of `run_once`: what the runner still holds goes back in front
        of what has been queued meanwhile. */
    method Requeue(tmp: IntrusiveList<Op>)
      requires Holds(tmp)
      modifies queue, queue.Nodes(), tmp, tmp.Nodes()
      ensures Sane() && Now() == old(Now()).(queue := old(Values(tmp.items)) + old(Values(queue.items)))
      ensures Pending() == old(Pending() + |tmp.items|)
      ensures forall n :: n in queue.Nodes() ==> n in old(queue.Nodes() + tmp.Nodes())
    {
      hide IntrusiveList.Valid, IoScheduler.Sound, IoScheduler.View, Values;
      label before:
      ghost var rest, later := tmp.items, queue.items;
      ValuesConcat(rest, later);
      var empty := tmp.Empty();
      if !empty {
        var begin := queue.Begin();
        assert later[..0] + rest + later[0..] == rest + later;
        var _ := queue.SpliceAll(begin, tmp, 0);
        io.Framed@before();
      } else {
        assert rest + later == later;
      }
    }

    /** Posting what a poll has taken off the scheduler's list, in order. */
    method PostNodes(nodes: seq<ListItem<Op>>)
      requires queue.Valid() && NoDup(nodes) && forall n :: n in nodes ==> n !in queue.Nodes()
      modifies this`posted, queue, queue.Nodes(), set n | n in nodes
      ensures queue.Valid() && queue.Nodes() == old(queue.Nodes()) + (set n | n in nodes)
      ensures Values(queue.items) == old(Values(queue.items)) + Values(nodes)
      ensures posted == old(posted) + Values(nodes)
    {
      hide IntrusiveList.Valid;
      var i := 0;
      while i < |nodes|
        invariant i <= |nodes| && queue.Valid()
        invariant queue.Nodes() == old(queue.Nodes()) + (set k | 0 <= k < i :: nodes[k])
        invariant Values(queue.items) == old(Values(queue.items)) + Values(nodes)[..i]
        invariant posted == old(posted) + Values(nodes)[..i]
      {
        PostNode(nodes[i]);
        i := i + 1;
      }
    }

    /** `run_once`. */
    method RunOnce(handle: Op -> Effect, rounds: seq<Round>) returns (num: nat, thrown: bool, entry: Entry)
      requires Valid() && PassReady(Now(), handle, rounds)
      modifies this`remaining, this`held, this`posted, this`dispatched
      modifies queue, queue.Nodes(), io, io.operations, io.operations.Nodes()
      ensures Valid()
      ensures Once(Now(), num, thrown, entry) == RunOnceSpec(old(Now()), handle, rounds)
      ensures dispatched == old(dispatched) + Batch(old(Now()), handle).dispatched
      ensures var d := Batch(old(Now()), handle);
              && remaining == |d.left + d.world.queue| + Size(d.world.sched) + d.world.held
              && Did(World(old(Now()).sched, [], old(Now()).held), AllDeeds(d.dispatched, handle), d.world)
              && if d.thrown
                 then thrown && entry == NotEntered && num == |d.dispatched| - 1
                      && Now() == d.world.(queue := d.left + d.world.queue)
                 else num == |d.dispatched| && PollHappened(d.world, rounds, Now(), thrown, entry)
      ensures var d := Batch(old(Now()), handle);
              && (entry == NotEntered <==> d.thrown || d.world.sched.active == [])
              && (entry == Blocking <==> !d.thrown && d.world.queue == [] && d.world.sched.cancelled == []
                                         && d.world.sched.active != [])
      ensures forall n :: n in queue.Nodes() ==> n in old(queue.Nodes()) || n in old(io.operations.Nodes()) || fresh(n)
      ensures forall n :: n in io.operations.Nodes() ==>
                n in old(queue.Nodes()) || n in old(io.operations.Nodes()) || fresh(n)
    {
      hide IntrusiveList.Valid, IoScheduler.Sound, IoScheduler.View, Values, Drain, DrainAllowed, Poll, Did, PollTold;
      ghost var w := Now();
      DrainExact(w.(queue := []), w.queue, handle);
      DrainInOrder([] + w.queue, [], w.(queue := []), w.queue, handle);
      num, thrown := DispatchBatch(handle);
      Sizes();
      entry := NotEntered;
      if thrown { return; }
      thrown, entry := PollIfAny(rounds);
    }

    /** The end of `run_once`: whether completions are ready is read first. */
    method PollIfAny(rounds: seq<Round>) returns (thrown: bool, entry: Entry)
      requires Valid() && (Now().sched.active != [] ==> Enough(rounds, Now().queue == [], 0))
      modifies this`posted, queue, queue.Nodes(), io, io.operations, io.operations.Nodes()
      ensures Valid() && forall num: nat :: Once(Now(), num, thrown, entry) == PollSpec(old(Now()), num, rounds)
      ensures PollHappened(old(Now()), rounds, Now(), thrown, entry)
      ensures queue.Nodes() + io.operations.Nodes() <= old(queue.Nodes() + io.operations.Nodes())
    {
      hide IntrusiveList.Valid, Poll, Values, PollHappened, Fine;
      Sizes();
      PollSpecHappened(Now(), 0, rounds);
      ValuesEmpty(queue.items);
      var drained := queue.Empty();
      var idle := io.Empty();
      thrown, entry := false, NotEntered;
      if !idle {
        thrown, entry := PollAndPost(drained, rounds);
      }
    }

    /** The poll of `run_once`, and the posts made from inside it. */
    method PollAndPost(block: bool, rounds: seq<Round>) returns (thrown: bool, entry: Entry)
      requires Sane()
      requires io.View().active != [] ==> Enough(rounds, block, 0)
      modifies this`posted, queue, queue.Nodes(), io, io.operations, io.operations.Nodes()
      ensures Sane()
      ensures var p := Poll(old(io.View()), block, rounds);
              && io.View() == p.sched && thrown == p.thrown && entry == PollEntry(old(io.View()), block)
              && Values(queue.items) == old(Values(queue.items)) + p.posted
              && posted == old(posted) + p.posted
              && |io.operations.items| == old(|io.operations.items|) - |p.posted|
      ensures queue.Nodes() + io.operations.Nodes() <= old(queue.Nodes() + io.operations.Nodes())
    {
      hide IntrusiveList.Valid, IoScheduler.Valid, IoScheduler.Sound, Values, Poll, IoScheduler.View;
      label before:
      var _, failed, how, nodes := io.PollOnce(block, rounds);
      queue.Framed@before();
      thrown, entry := failed, how;
      label polled:
      PostNodes(nodes);
      io.Framed@polled();
    }

    /** One pass of the loop of `run`: the check that would wait, and run_once. */
    method RunPass(handle: Op -> Effect, rounds: seq<Round>) returns (num: nat)
      requires Valid() && CreatesNothing(handle) && Delivers(Now(), handle, rounds)
      requires held == 0 && remaining > 0
      modifies this`remaining, this`held, this`posted, this`dispatched
      modifies queue, queue.Nodes(), io, io.operations, io.operations.Nodes()
      ensures Valid() && Now() == AfterPass(old(Now()), handle, rounds)
      ensures held == 0 && num == old(|queue.items|) && |dispatched| == old(|dispatched|) + num
      ensures remaining == old(remaining) - num
      ensures |queue.items| + |io.operations.items| == remaining
      ensures old(queue.items) == [] ==> queue.items != []
      ensures forall n :: n in queue.Nodes() ==> n in old(queue.Nodes()) || n in old(io.operations.Nodes()) || fresh(n)
      ensures forall n :: n in io.operations.Nodes() ==>
                n in old(queue.Nodes()) || n in old(io.operations.Nodes()) || fresh(n)
    {
      hide Sane, Values, IntrusiveList.Valid, AfterPass, Delivers, CreatesNothing, RunOnceSpec, PassReady, Batch;
      ghost var w := Now();
      Sizes();
      PassFacts(w, handle, rounds);
      var thrown, entry;
      num, thrown, entry := RunOnce(handle, rounds);
      Sizes();
    }

    lemma Sizes()
      requires Sane()
      ensures io.split <= |io.operations.items|
      ensures |Now().queue| == |queue.items| && Size(Now().sched) == |io.operations.items| && Fine(Now().sched)
    {
      io.ViewParts();
    }

    /** `run`, when no Work is held but by waiting operations and no handler
        creates any: it never reaches the wait on the condition variable, ends,
        and returns the number of operations that were pending. */
    method Run(handle: Op -> Effect, polls: nat -> seq<Round>) returns (num: nat)
      requires Valid() && held == 0 && CreatesNothing(handle)
      requires DeliversAlways(Now(), handle, polls)
      modifies this`remaining, this`held, this`posted, this`dispatched
      modifies queue, queue.Nodes(), io, io.operations, io.operations.Nodes()
      ensures Valid() && remaining == 0 && queue.items == [] && io.operations.items == []
      ensures num == old(|queue.items| + |io.operations.items|)
      ensures dispatched == posted && |dispatched| == old(|dispatched|) + num
    {
      ghost var start := Now();
      var n: nat := 0;
      hide *;
      DeliversNow(start, handle, polls, 0);
      num := 0;
      while remaining > 0
        invariant Valid() && held == 0
        invariant remaining == |queue.items| + |io.operations.items|
        invariant Now() == StateAt(start, handle, polls, n)
        invariant num + remaining == old(remaining)
        invariant |dispatched| == old(|dispatched|) + num
        invariant forall k :: k in queue.Nodes() ==> k in old(queue.Nodes()) || k in old(io.operations.Nodes()) || fresh(k)
        invariant forall k :: k in io.operations.Nodes() ==>
                    k in old(queue.Nodes()) || k in old(io.operations.Nodes()) || fresh(k)
        decreases 2 * |io.operations.items| + |queue.items|
      {
        DeliversNow(start, handle, polls, n);
        var once := RunPass(handle, polls(n));
        num := num + once;
        n := n + 1;
      }
      AllDispatched();
    }

    lemma AllDispatched()
      requires Valid() && queue.items == []
      ensures dispatched == posted
    {
    }
  }
}
