/** Every operation stays in exactly one place, step by step. */
module EnginePlace {
  import opened Sequences
  import opened Operations
  import opened SchedulerSpec
  import opened SchedulerLaws
  import opened Engine
  import opened EngineInvariant

  lemma NotifiedBatch(runners: map<Tid, Runner>)
    ensures Notified(runners).Keys == runners.Keys
    ensures forall t :: t in runners ==> Batch(Notified(runners)[t]) == Batch(runners[t])
  {
  }

  // ----- one operation moves

  lemma Gains(s: seq<Op>, k: nat, place: map<Op, Place>, op: Op, p: Place)
    requires k <= |s| && Contains(s, place, p) && (op in place ==> place[op] != p)
    ensures Contains(InsertAt(s, k, op), place[op := p], p)
  {
    NoDupInsert(s, k, op);
    MembersInsert(s, k, op);
  }

  lemma GainsLast(s: seq<Op>, place: map<Op, Place>, op: Op, p: Place)
    requires Contains(s, place, p) && (op in place ==> place[op] != p)
    ensures Contains(s + [op], place[op := p], p)
  {
    Gains(s, |s|, place, op, p);
    assert InsertAt(s, |s|, op) == s + [op];
  }

  lemma Loses(s: seq<Op>, k: nat, place: map<Op, Place>, p: Place, q: Place)
    requires k < |s| && Contains(s, place, p) && p != q
    ensures s[k] in place && place[s[k]] == p
    ensures Contains(RemoveAt(s, k), place[s[k] := q], p)
  {
    assert s[k] in s;
    NoDupRemove(s, k);
    MembersRemove(s, k);
  }

  lemma LosesFirst(s: seq<Op>, place: map<Op, Place>, p: Place, q: Place)
    requires s != [] && Contains(s, place, p) && p != q
    ensures s[0] in place && place[s[0]] == p
    ensures Contains(s[1..], place[s[0] := q], p)
  {
    Loses(s, 0, place, p, q);
    assert RemoveAt(s, 0) == s[1..];
  }

  lemma Unaffected(s: seq<Op>, place: map<Op, Place>, op: Op, q: Place, r: Place)
    requires Contains(s, place, r) && q != r && (op in place ==> place[op] != r)
    ensures Contains(s, place[op := q], r)
  {
  }

  /** A move from p to q leaves every other container as it was. */
  lemma OthersSame(e: Engine, op: Op, q: Place)
    requires InvPlace(e)
    ensures var place, p := e.place[op := q], if op in e.place then e.place[op] else q;
            && (p != InActive && q != InActive ==> Contains(e.sched.active, place, InActive))
            && (p != InCancelled && q != InCancelled ==> Contains(e.sched.cancelled, place, InCancelled))
            && (p != InHand && q != InHand ==> Contains(Hand(e.lock), place, InHand))
            && (p != Queued && q != Queued ==> Contains(e.queue, place, Queued))
            && (p != Dispatched && q != Dispatched ==> Contains(e.dispatched, place, Dispatched))
            && (p != Discarded && q != Discarded ==> Contains(e.discarded, place, Discarded))
            && (forall t :: t in e.runners && p != Held(t) && q != Held(t) ==> Contains(Batch(e.runners[t]), place, Held(t)))
  {
    hide Contains;
    var place, p := e.place[op := q], if op in e.place then e.place[op] else q;
    if p != InActive && q != InActive { Unaffected(e.sched.active, e.place, op, q, InActive); }
    if p != InCancelled && q != InCancelled { Unaffected(e.sched.cancelled, e.place, op, q, InCancelled); }
    if p != InHand && q != InHand { Unaffected(Hand(e.lock), e.place, op, q, InHand); }
    if p != Queued && q != Queued { Unaffected(e.queue, e.place, op, q, Queued); }
    if p != Dispatched && q != Dispatched { Unaffected(e.dispatched, e.place, op, q, Dispatched); }
    if p != Discarded && q != Discarded { Unaffected(e.discarded, e.place, op, q, Discarded); }
    forall t | t in e.runners && p != Held(t) && q != Held(t) ensures Contains(Batch(e.runners[t]), place, Held(t)) {
      Unaffected(Batch(e.runners[t]), e.place, op, q, Held(t));
    }
  }

  // ----- calls

  lemma CallPlace(e: Engine, a: CallStep)
    requires CallEnabled(e, a) && InvPlace(e) && InvSched(e)
    ensures InvPlace(CallNext(e, a))
  {
    match a {
      case Build(op) => BuildPlace(e, op);
      case PostBuilt(op) => PostBuiltPlace(e, op);
      case ScheduleBuilt(op) => SchedulePlace(e, op);
      case CancelFd(fd) => CancelPlace(e, fd);
      case _ => OtherCallPlace(e, a);
    }
  }

  lemma BuildPlace(e: Engine, op: Op)
    requires CallEnabled(e, Build(op)) && InvPlace(e)
    ensures InvPlace(CallNext(e, Build(op)))
  {
    hide Contains;
    OthersSame(e, op, Built);
  }

  lemma PostBuiltPlace(e: Engine, op: Op)
    requires CallEnabled(e, PostBuilt(op)) && InvPlace(e)
    ensures InvPlace(CallNext(e, PostBuilt(op)))
  {
    hide Contains;
    assert At(e, op, Built);
    OthersSame(e, op, Queued);
    NotifiedBatch(e.runners);
    GainsLast(e.queue, e.place, op, Queued);
  }

  lemma SchedulePlace(e: Engine, op: Op)
    requires CallEnabled(e, ScheduleBuilt(op)) && InvPlace(e)
    ensures InvPlace(CallNext(e, ScheduleBuilt(op)))
  {
    hide Contains;
    assert At(e, op, Built);
    OthersSame(e, op, InActive);
    Gains(e.sched.active, UpperBound(e.sched.active, op.Fd()), e.place, op, InActive);
  }

  lemma OtherCallPlace(e: Engine, a: CallStep)
    requires CallEnabled(e, a) && InvPlace(e)
    requires !a.Build? && !a.PostBuilt? && !a.ScheduleBuilt? && !a.CancelFd?
    ensures InvPlace(CallNext(e, a))
  {
    hide Contains;
    NotifiedBatch(e.runners);
  }

  // ----- several operations move

  lemma UnaffectedByBlock(s: seq<Op>, place: map<Op, Place>, block: seq<Op>, q: Place, r: Place)
    requires Contains(s, place, r) && q != r
    requires forall o :: o in block ==> o in place && place[o] != r
    ensures Contains(s, Placed(place, block, q), r)
  {
  }

  lemma CancelPlace(e: Engine, fd: int)
    requires CallEnabled(e, CancelFd(fd)) && InvPlace(e) && InvSched(e)
    ensures InvPlace(CallNext(e, CancelFd(fd)))
  {
    hide Contains, Partition, Range, Placed, Cancel, MarkRange, CancelHangs;
    var block := Range(e.sched, fd);
    MarkKeepsLists(e.sched, fd);
    RangeActive(e, fd);
    CancelKeepsActive(e.sched, e.place, fd);
    CancelKeepsCancelled(e.sched, e.place, fd);
    UnaffectedByBlock(Hand(e.lock), e.place, block, InCancelled, InHand);
    UnaffectedByBlock(e.queue, e.place, block, InCancelled, Queued);
    UnaffectedByBlock(e.dispatched, e.place, block, InCancelled, Dispatched);
    UnaffectedByBlock(e.discarded, e.place, block, InCancelled, Discarded);
    forall t | t in e.runners ensures Contains(Batch(e.runners[t]), Placed(e.place, block, InCancelled), Held(t)) {
      UnaffectedByBlock(Batch(e.runners[t]), e.place, block, InCancelled, Held(t));
    }
    PlacedElsewhere(e.place, block, InCancelled);
  }

  lemma MarkKeepsLists(s: Sched, fd: int)
    ensures MarkRange(s, fd).active == s.active && MarkRange(s, fd).cancelled == s.cancelled
  {
  }

  lemma PlacedElsewhere(place: map<Op, Place>, block: seq<Op>, q: Place)
    requires forall o :: o in block ==> o in place
    ensures Placed(place, block, q).Keys == place.Keys
    ensures forall o :: o in place ==> Placed(place, block, q)[o] == if o in block then q else place[o]
  {
  }

  lemma CancelKeepsActive(s: Sched, place: map<Op, Place>, fd: int)
    requires Partition(s) && Contains(s.active, place, InActive)
    ensures Contains(Cancel(s, fd).active, Placed(place, Range(s, fd), InCancelled), InActive)
  {
    CancelMoves(s, fd);
    CancelActive(s, fd);
    hide Cancel, Range, Placed, Sorted, NoDup;
    PlacedElsewhere(place, Range(s, fd), InCancelled);
  }

  lemma CancelKeepsCancelled(s: Sched, place: map<Op, Place>, fd: int)
    requires Partition(s) && Contains(s.active, place, InActive) && Contains(s.cancelled, place, InCancelled)
    ensures Contains(Cancel(s, fd).cancelled, Placed(place, Range(s, fd), InCancelled), InCancelled)
  {
    hide Cancel, Range, Placed, Sorted, NoDup;
    CancelMoves(s, fd);
    assert NoDup(Cancel(s, fd).cancelled) by { CancelKeepsPartition(s, fd); }
    PlacedElsewhere(place, Range(s, fd), InCancelled);
    assert forall o :: o in Range(s, fd) + s.cancelled <==> o in Range(s, fd) || o in s.cancelled;
  }

  lemma MovedAll(s: seq<Op>, t: seq<Op>, place: map<Op, Place>, p: Place, q: Place)
    requires Contains(s, place, p) && Contains(t, place, q) && p != q
    ensures Contains(s + t, Rehoused(place, p, q), q) && Contains([], Rehoused(place, p, q), p)
  {
    forall o | o in s ensures o !in t {}
    NoDupConcat(s, t);
  }

  lemma MovedOther(s: seq<Op>, place: map<Op, Place>, p: Place, q: Place, r: Place)
    requires Contains(s, place, r) && r != p && r != q
    ensures Contains(s, Rehoused(place, p, q), r)
  {
  }

  lemma MovedOthers(e: Engine, t: Tid, p: Place, q: Place)
    requires InvPlace(e) && ((p == Queued && q == Held(t)) || (p == Held(t) && q == Queued))
    ensures var place := Rehoused(e.place, p, q);
            && Contains(e.sched.active, place, InActive) && Contains(e.sched.cancelled, place, InCancelled)
            && Contains(Hand(e.lock), place, InHand)
            && Contains(e.dispatched, place, Dispatched) && Contains(e.discarded, place, Discarded)
            && (forall u :: u in e.runners && u != t ==> Contains(Batch(e.runners[u]), place, Held(u)))
  {
    hide Contains;
    var place := Rehoused(e.place, p, q);
    MovedOther(e.sched.active, e.place, p, q, InActive);
    MovedOther(e.sched.cancelled, e.place, p, q, InCancelled);
    MovedOther(Hand(e.lock), e.place, p, q, InHand);
    MovedOther(e.dispatched, e.place, p, q, Dispatched);
    MovedOther(e.discarded, e.place, p, q, Discarded);
    forall u | u in e.runners && u != t ensures Contains(Batch(e.runners[u]), place, Held(u)) {
      MovedOther(Batch(e.runners[u]), e.place, p, q, Held(u));
    }
  }

  // ----- run and run_once

  lemma RunPlace(e: Engine, t: Tid, a: RunStep)
    requires RunEnabled(e, t, a) && InvPlace(e)
    ensures InvPlace(RunNext(e, t, a))
  {
    match a {
      case Take => TakePlace(e, t);
      case Requeue => RequeuePlace(e, t);
      case Dispatch => DispatchPlace(e, t);
      case _ => OtherRunPlace(e, t, a);
    }
  }

  lemma TakePlace(e: Engine, t: Tid)
    requires RunEnabled(e, t, Take) && InvPlace(e)
    ensures InvPlace(RunNext(e, t, Take))
  {
    hide Contains;
    MovedOthers(e, t, Queued, Held(t));
    MovedAll(e.queue, Batch(e.runners[t]), e.place, Queued, Held(t));
    assert e.queue + [] == e.queue;
  }

  lemma RequeuePlace(e: Engine, t: Tid)
    requires RunEnabled(e, t, Requeue) && InvPlace(e)
    ensures InvPlace(RunNext(e, t, Requeue))
  {
    hide Contains;
    MovedOthers(e, t, Held(t), Queued);
    MovedAll(Batch(e.runners[t]), e.queue, e.place, Held(t), Queued);
  }

  lemma DispatchPlace(e: Engine, t: Tid)
    requires RunEnabled(e, t, RunStep.Dispatch) && InvPlace(e)
    ensures InvPlace(RunNext(e, t, RunStep.Dispatch))
  {
    hide Contains;
    var batch := Batch(e.runners[t]);
    LosesFirst(batch, e.place, Held(t), Dispatched);
    OthersSame(e, batch[0], Dispatched);
    GainsLast(e.dispatched, e.place, batch[0], Dispatched);
  }

  /** A step that leaves every batch as it was. */
  lemma BatchesSame(e: Engine, f: Engine)
    requires InvPlace(e)
    requires e.built == f.built && e.queue == f.queue && e.place == f.place
    requires e.sched.active == f.sched.active && e.sched.cancelled == f.sched.cancelled
    requires e.dispatched == f.dispatched && e.discarded == f.discarded && Hand(e.lock) == Hand(f.lock)
    requires e.runners.Keys == f.runners.Keys
    requires forall t :: t in e.runners ==> Batch(e.runners[t]) == Batch(f.runners[t])
    ensures InvPlace(f)
  {
    hide Contains;
  }

  lemma OtherRunPlace(e: Engine, t: Tid, a: RunStep)
    requires RunEnabled(e, t, a) && InvPlace(e) && !a.Take? && !a.Requeue? && !a.Dispatch?
    ensures InvPlace(RunNext(e, t, a))
  {
    hide InvPlace;
    if a.GuardNotify? {
      hide Notified;
      NotifiedBatch(e.runners);
      NotifiedPlace(e);
      OneMoves(e.(runners := Notified(e.runners)), RunNext(e, t, a), t);
    } else {
      OneMoves(e, RunNext(e, t, a), t);
    }
  }

  lemma NotifiedPlace(e: Engine)
    requires InvPlace(e)
    ensures InvPlace(e.(runners := Notified(e.runners)))
  {
    hide InvPlace;
    NotifiedBatch(e.runners);
    BatchesSame(e, e.(runners := Notified(e.runners)));
  }

  /** One runner moves, and keeps its batch. */
  lemma OneMoves(e: Engine, f: Engine, t: Tid)
    requires InvPlace(e)
    requires e.built == f.built && e.sched == f.sched && e.queue == f.queue && e.place == f.place
    requires e.dispatched == f.dispatched && e.discarded == f.discarded && e.lock == f.lock
    requires t in e.runners && t in f.runners && f.runners == e.runners[t := f.runners[t]]
    requires Batch(e.runners[t]) == Batch(f.runners[t])
    ensures InvPlace(f)
  {
    hide InvPlace;
    BatchesSame(e, f);
  }

  // ----- poll_once

  lemma PollPlace(e: Engine, t: Tid, a: PollStep)
    requires PollEnabled(e, t, a) && InvPlace(e) && InvLock(e)
    ensures InvPlace(PollNext(e, t, a))
  {
    match a {
      case EraseCancelled => ErasePlace(e, t);
      case Attempt(outcome) => AttemptPlace(e, t, outcome);
      case PostHand => PostHandPlace(e, t);
      case _ => OtherPollPlace(e, t, a);
    }
  }

  lemma ErasePlace(e: Engine, t: Tid)
    requires PollEnabled(e, t, EraseCancelled) && InvPlace(e)
    ensures InvPlace(PollNext(e, t, EraseCancelled))
  {
    hide Contains;
    var op := e.sched.cancelled[0];
    LosesFirst(e.sched.cancelled, e.place, InCancelled, InHand);
    OthersSame(e, op, InHand);
    GainsLast([], e.place, op, InHand);
    assert [] + [op] == [op];
  }

  lemma AttemptPlace(e: Engine, t: Tid, outcome: Outcome)
    requires PollEnabled(e, t, Attempt(outcome)) && InvPlace(e)
    ensures InvPlace(PollNext(e, t, Attempt(outcome)))
  {
    hide Contains;
    var k := e.lock.event.pass.next;
    var op := e.sched.active[k];
    Loses(e.sched.active, k, e.place, InActive, InHand);
    OthersSame(e, op, InHand);
    GainsLast([], e.place, op, InHand);
    assert [] + [op] == [op];
  }

  lemma PostHandPlace(e: Engine, t: Tid)
    requires PollEnabled(e, t, PostHand) && InvPlace(e)
    ensures InvPlace(PollNext(e, t, PostHand))
  {
    hide Contains;
    var op := Hand(e.lock)[0];
    LosesFirst(Hand(e.lock), e.place, InHand, Queued);
    assert Hand(e.lock)[1..] == [];
    OthersSame(e, op, Queued);
    NotifiedBatch(e.runners);
    GainsLast(e.queue, e.place, op, Queued);
  }

  lemma OtherPollPlace(e: Engine, t: Tid, a: PollStep)
    requires PollEnabled(e, t, a) && InvPlace(e) && InvLock(e) && !a.EraseCancelled? && !a.Attempt? && !a.PostHand?
    ensures InvPlace(PollNext(e, t, a))
  {
    hide InvPlace, InvLock, PollEnabled, PollNext, Batch, Hand;
    OtherPollLists(e, t, a);
    OtherPollBatches(e, t, a);
    BatchesSame(e, PollNext(e, t, a));
  }

  lemma OtherPollLists(e: Engine, t: Tid, a: PollStep)
    requires PollEnabled(e, t, a) && !a.EraseCancelled? && !a.Attempt? && !a.PostHand?
    ensures var f := PollNext(e, t, a);
            && e.built == f.built && e.queue == f.queue && e.place == f.place
            && e.sched.active == f.sched.active && e.sched.cancelled == f.sched.cancelled
            && e.dispatched == f.dispatched && e.discarded == f.discarded && Hand(e.lock) == Hand(f.lock)
  {
  }

  lemma OtherPollBatches(e: Engine, t: Tid, a: PollStep)
    requires PollEnabled(e, t, a) && InvLock(e) && !a.EraseCancelled? && !a.Attempt? && !a.PostHand?
    ensures var f := PollNext(e, t, a);
            && e.runners.Keys == f.runners.Keys
            && forall u :: u in e.runners ==> Batch(e.runners[u]) == Batch(f.runners[u])
  {
  }

  // ----- the destructor

  lemma ClosePlace(e: Engine, a: CloseStep)
    requires CloseEnabled(e, a) && InvPlace(e)
    ensures InvPlace(CloseNext(e, a))
  {
    hide Contains;
    match a {
      case Close =>
      case DiscardQueued =>
        LosesFirst(e.queue, e.place, Queued, Discarded);
        OthersSame(e, e.queue[0], Discarded);
        GainsLast(e.discarded, e.place, e.queue[0], Discarded);
      case DiscardScheduled =>
        if e.sched.active != [] {
          LosesFirst(e.sched.active, e.place, InActive, Discarded);
          OthersSame(e, e.sched.active[0], Discarded);
          GainsLast(e.discarded, e.place, e.sched.active[0], Discarded);
        } else {
          LosesFirst(e.sched.cancelled, e.place, InCancelled, Discarded);
          OthersSame(e, e.sched.cancelled[0], Discarded);
          GainsLast(e.discarded, e.place, e.sched.cancelled[0], Discarded);
        }
    }
  }
}
