/** A notification pass of the engine, taken step by step among the steps of
    every other thread, is the batch function of the scheduler. */
module EngineNotification {
  import opened Operations
  import opened Sequences
  import opened SchedulerSpec
  import opened NotificationOrder
  import opened Engine
  import opened EngineInvariant
  import opened EngineScheduler
  import opened EngineRuns

  // ----- one oracle for each event

  function RunEach(s: Sched, events: seq<Event>, ios: seq<Op -> Outcome>): (Sched, seq<Op>)
    requires |ios| == |events|
    decreases |events|
  {
    if events == [] then (s, []) else
      var (s1, posted) := RunEvent(s, events[0], ios[0]);
      var (s2, more) := RunEach(s1, events[1..], ios[1..]);
      (s2, posted + more)
  }

  function Oracle(ios: seq<Op -> Outcome>): (nat, Op) -> Outcome
  {
    (k: nat, o: Op) => if k < |ios| then ios[k](o) else WouldBlock
  }

  lemma OracleAt(ios: seq<Op -> Outcome>, k: nat, o: Op)
    requires k < |ios|
    ensures Oracle(ios)(k, o) == ios[k](o)
  {
  }

  lemma {:induction false} RunEachIsRunEvents(s: Sched, events: seq<Event>, ios: seq<Op -> Outcome>, k: nat)
    requires |ios| == |events| && k <= |events|
    ensures RunEach(s, events[k..], ios[k..]) == RunEvents(s, events, Oracle(ios), k)
    decreases |events| - k
  {
    if k < |events| {
      if events[k].Ready? {
        forall o ensures Oracle(ios)(k, o) == ios[k](o) { OracleAt(ios, k, o); }
        OnlyMatchingTried(s, events[k], o => Oracle(ios)(k, o), ios[k]);
      }
      assert events[k..][1..] == events[k + 1..] && ios[k..][1..] == ios[k + 1..];
      RunEachIsRunEvents(RunEvent(s, events[k], ios[k]).0, events, ios, k + 1);
    }
  }

  // ----- what a run of the engine says about one runner's pass

  ghost predicate InPass(e: Engine, t: Tid)
  {
    e.lock.NotifyPass? && e.lock.owner == t && t in e.runners && e.runners[t].Notifying?
  }

  /** What t posts from inside its pass, in order. */
  ghost function PostedBy(e: Engine, t: Tid, run: seq<Action>): seq<Op>
    requires Legal(e, run)
    decreases |run|
  {
    if run == [] then [] else
      var rest := PostedBy(Next(e, run[0]), t, run[1..]);
      if run[0] == InPollOnce(t, PostHand) then Hand(e.lock) + rest else rest
  }

  /** The answers t's attempts get: those for the event it is at, and those for
      each event it goes on to. */
  ghost function Answers(e: Engine, t: Tid, run: seq<Action>): (Op -> Outcome, seq<Op -> Outcome>)
    requires Legal(e, run)
    decreases |run|
  {
    if run == [] then ((o: Op) => WouldBlock, []) else
      var (cur, later) := Answers(Next(e, run[0]), t, run[1..]);
      if run[0] == InPollOnce(t, NextEvent) then ((o: Op) => WouldBlock, [cur] + later)
      else if run[0].InPollOnce? && run[0].t == t && run[0].poll.Attempt? then (Answering(cur, Tested(e), run[0].poll.outcome), later)
      else (cur, later)
  }

  function Answering(io: Op -> Outcome, op: Op, outcome: Outcome): Op -> Outcome
  {
    (o: Op) => if o == op then outcome else io(o)
  }

  /** The operation under the cursor of the pass. */
  ghost function Tested(e: Engine): Op
    requires e.lock.NotifyPass? && e.lock.event.On? && AtItem(e.sched, e.lock.event.pass)
  {
    e.sched.active[e.lock.event.pass.next]
  }

  /** The event at hand, done. */
  ghost function AfterCurrent(s: Sched, at: Current, cur: Op -> Outcome): (Sched, seq<Op>)
  {
    if at.Between? then (s, []) else
      var r := RunItems(s, at.pass, cur);
      (EndEvent(r.sched, r.pass), r.posted)
  }

  /** What the batch function has still to do from the middle of a pass. */
  ghost function Remainder(s: Sched, hand: seq<Op>, at: Current, events: seq<Event>,
                           cur: Op -> Outcome, later: seq<Op -> Outcome>): (Sched, seq<Op>)
    requires |later| == |events|
  {
    var now := AfterCurrent(s, at, cur);
    var rest := RunEach(now.0, events, later);
    (rest.0, hand + (now.1 + rest.1))
  }

  ghost predicate Agree(goal: Sched, posts: seq<Op>, s: Sched, hand: seq<Op>, at: Current, events: seq<Event>,
                        answers: (Op -> Outcome, seq<Op -> Outcome>))
  {
    |answers.1| == |events| && (goal, posts) == Remainder(s, hand, at, events, answers.0, answers.1)
  }

  /** ... is what it will do in the given run. */
  ghost predicate Explains(e: Engine, t: Tid, run: seq<Action>)
    requires Legal(e, run) && InPass(e, t)
  {
    Agree(Final(e, run).sched, PostedBy(e, t, run), e.sched, e.lock.hand, e.lock.event, e.runners[t].events, Answers(e, t, run))
  }

  // ----- one step of the pass, on values

  lemma PostAgrees(goal: Sched, posts: seq<Op>, s: Sched, hand: seq<Op>, at: Current, events: seq<Event>,
                   answers: (Op -> Outcome, seq<Op -> Outcome>))
    requires Agree(goal, posts, s, [], at, events, answers)
    ensures Agree(goal, hand + posts, s, hand, at, events, answers)
  {
    var rest := Remainder(s, [], at, events, answers.0, answers.1);
    hide RunItems, RunEach;
    assert forall q: seq<Op> :: [] + q == q;
  }

  function Start(s: Sched, e: Event): Current
  {
    if e.Wake? then Between else On(BeginEvent(s, e.fd, e.readable))
  }

  lemma NextAgrees(goal: Sched, posts: seq<Op>, s: Sched, events: seq<Event>, cur: Op -> Outcome,
                   answers: (Op -> Outcome, seq<Op -> Outcome>))
    requires events != [] && Agree(goal, posts, s, [], Start(s, events[0]), events[1..], answers)
    ensures Agree(goal, posts, s, [], Between, events, (cur, [answers.0] + answers.1))
  {
    var later := [answers.0] + answers.1;
    assert later[1..] == answers.1 && later[0] == answers.0;
    hide RunItems, EndEvent, BeginEvent;
    var (s1, posted) := RunEvent(s, events[0], answers.0);
    assert RunEach(s, events, later).1 == posted + RunEach(s1, events[1..], answers.1).1;
    assert forall q: seq<Op> :: [] + q == q;
  }

  lemma TryOnePass(s: Sched, p: Pass, cur: Op -> Outcome, outcome: Outcome)
    requires AtItem(s, p) && NoDup(s.active)
    ensures var op, step := s.active[p.next], TryItem(s, p, outcome);
            var all, rest := RunItems(s, p, Answering(cur, op, outcome)), RunItems(step.sched, step.pass, cur);
            all == Step(rest.sched, rest.pass, step.posted + rest.posted)
  {
    var op, step := s.active[p.next], TryItem(s, p, outcome);
    TailShrinks(s, p, outcome);
    assert forall o :: o in s.active[p.next..][1..] ==> o != op;
    RunItemsTries(step.sched, step.pass, Answering(cur, op, outcome), cur);
  }

  lemma AttemptAgrees(goal: Sched, posts: seq<Op>, s: Sched, p: Pass, outcome: Outcome, events: seq<Event>,
                      answers: (Op -> Outcome, seq<Op -> Outcome>))
    requires AtItem(s, p) && NoDup(s.active)
    requires var step := TryItem(s, p, outcome); Agree(goal, posts, step.sched, step.posted, On(step.pass), events, answers)
    ensures Agree(goal, posts, s, [], On(p), events, (Answering(answers.0, s.active[p.next], outcome), answers.1))
  {
    hide TryItem, RunItems, RunEach, EndEvent, Answering, AtItem, NoDup;
    TryOnePass(s, p, answers.0, outcome);
    assert forall q: seq<Op> :: [] + q == q;
    assert forall a: seq<Op>, b: seq<Op>, c: seq<Op> :: a + (b + c) == (a + b) + c;
  }

  lemma CurrentFinishes(s: Sched, p: Pass, cur: Op -> Outcome)
    requires !AtItem(s, p)
    ensures AfterCurrent(s, On(p), cur) == AfterCurrent(EndEvent(s, p), Between, cur)
  {
    hide EndEvent;
    assert RunItems(s, p, cur) == Step(s, p, []);
  }

  lemma FinishAgrees(goal: Sched, posts: seq<Op>, s: Sched, p: Pass, events: seq<Event>,
                     answers: (Op -> Outcome, seq<Op -> Outcome>))
    requires !AtItem(s, p) && Agree(goal, posts, EndEvent(s, p), [], Between, events, answers)
    ensures Agree(goal, posts, s, [], On(p), events, answers)
  {
    CurrentFinishes(s, p, answers.0);
    hide AfterCurrent, RunEach, EndEvent, AtItem;
  }

  // ----- the steps of the engine

  /** Nobody else touches the scheduler, or the runner, while t has its mutex. */
  lemma OthersKeepPass(e: Engine, t: Tid, a: Action)
    requires InPass(e, t) && Enabled(e, a) && !(a.InPollOnce? && a.t == t)
    ensures var f := Next(e, a);
            f.sched == e.sched && f.lock == e.lock && t in f.runners && f.runners[t] == e.runners[t]
  {
    hide InPass, CallEnabled, CallNext, RunEnabled, RunNext, PollEnabled, PollNext;
    match a {
      case ByAny(c) => CallsKeepPass(e, t, c);
      case InRun(u, r) => RunsKeepPass(e, t, u, r);
      case InPollOnce(u, p) => PollsKeepPass(e, t, u, p);
      case InDestructor(d) => NoDestructor(e, t, d);
    }
  }

  lemma CallsKeepPass(e: Engine, t: Tid, a: CallStep)
    requires InPass(e, t) && CallEnabled(e, a)
    ensures var f := CallNext(e, a);
            f.sched == e.sched && f.lock == e.lock && t in f.runners && f.runners[t] == e.runners[t]
  {
    hide Schedule, Cancel, CancelHangs, MarkRange;
  }

  lemma RunsKeepPass(e: Engine, t: Tid, u: Tid, a: RunStep)
    requires InPass(e, t) && RunEnabled(e, u, a)
    ensures var f := RunNext(e, u, a);
            f.sched == e.sched && f.lock == e.lock && t in f.runners && f.runners[t] == e.runners[t]
  {
    assert u != t;
  }

  lemma PollsKeepPass(e: Engine, t: Tid, u: Tid, a: PollStep)
    requires InPass(e, t) && PollEnabled(e, u, a) && u != t
    ensures var f := PollNext(e, u, a);
            f.sched == e.sched && f.lock == e.lock && t in f.runners && f.runners[t] == e.runners[t]
  {
    hide TryItem, EndEvent, BeginEvent, AtItem, Tried;
    assert a.Deliver? || a.PollError?;
  }

  lemma NoDestructor(e: Engine, t: Tid, a: CloseStep)
    ensures !(InPass(e, t) && CloseEnabled(e, a))
  {
  }

  lemma PostHandNext(e: Engine, t: Tid)
    requires InPass(e, t) && PollEnabled(e, t, PostHand) && |Hand(e.lock)| <= 1
    ensures var f := PollNext(e, t, PostHand);
            && InPass(f, t) && f.sched == e.sched && f.lock.hand == [] && f.lock.event == e.lock.event
            && f.runners[t] == e.runners[t] && Hand(e.lock) == e.lock.hand
  {
  }

  lemma NextEventNext(e: Engine, t: Tid)
    requires InPass(e, t) && PollEnabled(e, t, NextEvent)
    ensures e.runners[t].events != [] && e.lock.event.Between? && e.lock.hand == []
    ensures var f, events := PollNext(e, t, NextEvent), e.runners[t].events;
            && InPass(f, t) && f.sched == e.sched && f.lock.hand == [] && f.lock.event == Start(e.sched, events[0])
            && f.runners[t].events == events[1..]
  {
  }

  lemma AttemptPass(e: Engine, t: Tid, outcome: Outcome)
    requires InPass(e, t) && PollEnabled(e, t, Attempt(outcome))
    ensures e.lock.event.On? && e.lock.hand == [] && AtItem(e.sched, e.lock.event.pass)
    ensures var f, step := PollNext(e, t, Attempt(outcome)), TryItem(e.sched, e.lock.event.pass, outcome);
            && InPass(f, t) && f.sched == step.sched && f.lock.hand == step.posted && f.lock.event == On(step.pass)
            && f.runners[t] == e.runners[t]
  {
    TryItemCounts(e.sched, e.lock.event.pass, outcome);
  }

  lemma FinishEventNext(e: Engine, t: Tid)
    requires InPass(e, t) && PollEnabled(e, t, FinishEvent)
    ensures e.lock.event.On? && e.lock.hand == [] && !AtItem(e.sched, e.lock.event.pass)
    ensures var f := PollNext(e, t, FinishEvent);
            && InPass(f, t) && f.sched == EndEvent(e.sched, e.lock.event.pass) && f.lock.hand == [] && f.lock.event == Between
            && f.runners[t] == e.runners[t]
  {
  }

  lemma StaysInPass(e: Engine, t: Tid, p: PollStep)
    requires InPass(e, t) && PollEnabled(e, t, p)
    ensures p.PostHand? || p.NextEvent? || p.Attempt? || p.FinishEvent? || p.EndNotify?
  {
  }

  lemma PassEnds(e: Engine, t: Tid)
    requires InPass(e, t) && PollEnabled(e, t, EndNotify)
    ensures Explains(e, t, [])
  {
    var none: seq<Op> := [];
    assert none + (none + none) == none;
  }

  lemma RunUnfolds(e: Engine, t: Tid, run: seq<Action>)
    requires Legal(e, run) && run != []
    ensures Enabled(e, run[0]) && Legal(Next(e, run[0]), run[1..])
    ensures Final(e, run) == Final(Next(e, run[0]), run[1..])
    ensures var rest := PostedBy(Next(e, run[0]), t, run[1..]);
            PostedBy(e, t, run) == if run[0] == InPollOnce(t, PostHand) then Hand(e.lock) + rest else rest
    ensures var rest := Answers(Next(e, run[0]), t, run[1..]);
            && (run[0] == InPollOnce(t, NextEvent) ==> Answers(e, t, run).1 == [rest.0] + rest.1)
            && (!(run[0].InPollOnce? && run[0].t == t && (run[0].poll.NextEvent? || run[0].poll.Attempt?))
                ==> Answers(e, t, run) == rest)
  {
    hide Enabled, Next;
  }

  lemma AttemptUnfolds(e: Engine, t: Tid, run: seq<Action>, outcome: Outcome)
    requires Legal(e, run) && run != [] && run[0] == InPollOnce(t, Attempt(outcome)) && InPass(e, t)
    ensures e.lock.event.On? && AtItem(e.sched, e.lock.event.pass)
    ensures var rest := Answers(Next(e, run[0]), t, run[1..]);
            Answers(e, t, run) == (Answering(rest.0, e.sched.active[e.lock.event.pass.next], outcome), rest.1)
  {
    hide Next, Answering;
  }

  /** The answers for an event that is not yet begun do not matter. */
  lemma BetweenIgnores(goal: Sched, posts: seq<Op>, s: Sched, hand: seq<Op>, events: seq<Event>, cur: Op -> Outcome,
                       answers: (Op -> Outcome, seq<Op -> Outcome>))
    requires Agree(goal, posts, s, hand, Between, events, (cur, answers.1))
    ensures Agree(goal, posts, s, hand, Between, events, answers)
  {
  }

  /** One step of t ahead of a run that is explained. */
  lemma OwnStepExplained(e: Engine, t: Tid, run: seq<Action>, p: PollStep)
    requires Inv(e) && InPass(e, t) && Legal(e, run) && run != [] && run[0] == InPollOnce(t, p) && !p.EndNotify?
    ensures InPass(Next(e, run[0]), t)
    ensures Explains(Next(e, run[0]), t, run[1..]) ==> Explains(e, t, run)
  {
    assert |Hand(e.lock)| <= 1 && NoDup(e.sched.active);
    hide InvPlace, Inv, Legal, Final, PostedBy, Answers, PollNext, PollEnabled, AtItem, Agree, Answering, NoDup;
    RunUnfolds(e, t, run);
    StaysInPass(e, t, p);
    var f, rest := Next(e, run[0]), run[1..];
    var goal, posts, answers, events := Final(f, rest).sched, PostedBy(f, t, rest), Answers(f, t, rest), e.runners[t].events;
    match p {
      case PostHand =>
        PostHandNext(e, t);
        if Explains(f, t, rest) { PostAgrees(goal, posts, e.sched, Hand(e.lock), e.lock.event, events, answers); }
      case NextEvent =>
        NextEventNext(e, t);
        if Explains(f, t, rest) {
          NextAgrees(goal, posts, e.sched, events, answers.0, answers);
          BetweenIgnores(goal, posts, e.sched, [], events, answers.0, Answers(e, t, run));
        }
      case Attempt(outcome) =>
        AttemptPass(e, t, outcome);
        AttemptUnfolds(e, t, run, outcome);
        if Explains(f, t, rest) {
          AttemptAgrees(goal, posts, e.sched, e.lock.event.pass, outcome, events, answers);
        }
      case FinishEvent =>
        FinishEventNext(e, t);
        if Explains(f, t, rest) { FinishAgrees(goal, posts, e.sched, e.lock.event.pass, events, answers); }
    }
  }

  lemma OtherStepExplained(e: Engine, t: Tid, run: seq<Action>)
    requires InPass(e, t) && Legal(e, run) && run != [] && !(run[0].InPollOnce? && run[0].t == t)
    ensures InPass(Next(e, run[0]), t)
    ensures Explains(Next(e, run[0]), t, run[1..]) ==> Explains(e, t, run)
  {
    hide Legal, Final, PostedBy, Answers, Enabled, Next, Agree;
    RunUnfolds(e, t, run);
    OthersKeepPass(e, t, run[0]);
  }

  lemma {:induction false} PassExplained(e: Engine, t: Tid, run: seq<Action>)
    requires Inv(e) && InPass(e, t) && Legal(e, run)
    requires InPollOnce(t, EndNotify) !in run && PollEnabled(Final(e, run), t, EndNotify)
    ensures Explains(e, t, run)
    decreases |run|
  {
    hide Inv, InPass, Explains, Enabled, Next, PollEnabled;
    if run == [] {
      PassEnds(e, t);
    } else {
      StepKeepsInv(e, run[0]);
      if run[0].InPollOnce? && run[0].t == t {
        OwnStepExplained(e, t, run, run[0].poll);
      } else {
        OtherStepExplained(e, t, run);
      }
      PassExplained(Next(e, run[0]), t, run[1..]);
    }
  }

  /** Between a runner's taking the mutex for a batch of events and its giving
      it up, in any run and among any steps of other threads, what it leaves of
      the scheduler and what it posts, in order, are those of the batch function
      on the answers its attempts were given. */
  lemma PassIsRunEvents(e: Engine, t: Tid, run: seq<Action>)
    requires Inv(e) && PollEnabled(e, t, BeginNotify)
    requires Legal(PollNext(e, t, BeginNotify), run) && InPollOnce(t, EndNotify) !in run
    requires PollEnabled(Final(PollNext(e, t, BeginNotify), run), t, EndNotify)
    ensures var e1 := PollNext(e, t, BeginNotify);
            var later := Answers(e1, t, run).1;
            && |later| == |e.runners[t].events|
            && (Final(e1, run).sched, PostedBy(e1, t, run)) == RunEvents(e.sched, e.runners[t].events, Oracle(later), 0)
  {
    hide Inv, Legal, Final, PostedBy, Answers, RunEach, RunEvents, Oracle;
    var e1 := PollNext(e, t, BeginNotify);
    StepKeepsInv(e, InPollOnce(t, BeginNotify));
    PassExplained(e1, t, run);
    var later, events := Answers(e1, t, run).1, e.runners[t].events;
    RunEachIsRunEvents(e.sched, events, later, 0);
    assert events[0..] == events && later[0..] == later;
    assert forall q: seq<Op> :: [] + q == q;
  }

  /** So the stable filter and the order of completions hold of the engine. */
  lemma PassIsStableFilter(e: Engine, t: Tid, run: seq<Action>)
    requires Inv(e) && PollEnabled(e, t, BeginNotify)
    requires Legal(PollNext(e, t, BeginNotify), run) && InPollOnce(t, EndNotify) !in run
    requires PollEnabled(Final(PollNext(e, t, BeginNotify), run), t, EndNotify)
    ensures var e1, events := PollNext(e, t, BeginNotify), e.runners[t].events;
            var io := Oracle(Answers(e1, t, run).1);
            && Final(e1, run).sched.active == RemainingAll(e.sched.active, events, io, 0)
            && PostedBy(e1, t, run) == CompletedAll(e.sched.active, events, io, 0)
  {
    assert Partition(e.sched) && EpollAgrees(e.sched);
    hide Inv, Partition, EpollAgrees, PollEnabled, PollNext, Legal, Final, PostedBy, Answers, RunEvents, Oracle, RemainingAll, CompletedAll;
    PassIsRunEvents(e, t, run);
    PassFilters(e.sched, e.runners[t].events, Oracle(Answers(PollNext(e, t, BeginNotify), t, run).1), 0);
  }
}
