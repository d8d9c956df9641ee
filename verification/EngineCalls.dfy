/** What each call of any thread does to the engine, and what it leaves alone. */
module EngineCalls {
  import opened Operations
  import opened SchedulerSpec
  import opened SchedulerLaws
  import opened Engine
  import opened EngineInvariant
  import opened EnginePlace

  ghost predicate SameQueues(e: Engine, f: Engine)
  {
    && f.queue == e.queue && f.posted == e.posted && f.dispatched == e.dispatched && f.discarded == e.discarded
    && f.runners == e.runners
  }

  ghost predicate SameWork(e: Engine, f: Engine)
  {
    f.works == e.works && f.remaining == e.remaining
  }

  /** Building an operation latches a Work for it and does nothing else. */
  lemma BuildDoes(e: Engine, op: Op)
    requires CallEnabled(e, Build(op)) && Inv(e)
    ensures var f := CallNext(e, Build(op));
            && f.built == e.built + {op} && op !in e.built
            && f.works == e.works + {OpWork(op)} && OpWork(op) !in e.works && f.remaining == e.remaining + 1
            && SameQueues(e, f) && f.sched == e.sched && f.count == e.count && f.lock == e.lock
  {
    assert At(e, op, Built) <==> op in e.built;
  }

  /** A posted operation is the last of the queue, and every sleeper has been
      notified. */
  lemma PostDoes(e: Engine, op: Op)
    requires CallEnabled(e, PostBuilt(op)) && Inv(e)
    ensures var f := CallNext(e, PostBuilt(op));
            && f.built == e.built - {op} && f.queue == e.queue + [op] && f.posted == e.posted + [op]
            && (forall t :: t in e.runners ==> t in f.runners && f.runners[t] != Asleep(false))
            && f.dispatched == e.dispatched && SameWork(e, f) && f.sched == e.sched && f.count == e.count && f.lock == e.lock
  {
    hide Inv;
  }

  /** A scheduled operation waits, behind all of its descriptor and below and
      ahead of all above; its direction is registered; the counter knows it. */
  lemma ScheduleDoes(e: Engine, op: Op) returns (k: nat)
    requires CallEnabled(e, ScheduleBuilt(op)) && Inv(e)
    ensures k <= |e.sched.active|
    ensures forall i :: 0 <= i < k ==> e.sched.active[i].Fd() <= op.Fd()
    ensures forall i :: k <= i < |e.sched.active| ==> e.sched.active[i].Fd() > op.Fd()
    ensures var f := CallNext(e, ScheduleBuilt(op));
            && f.built == e.built - {op} && f.count == e.count + 1
            && f.sched.active == e.sched.active[..k] + [op] + e.sched.active[k..]
            && op.Fd() in f.sched.epoll && op.Direction() in f.sched.epoll[op.Fd()]
            && f.sched.cancelled == e.sched.cancelled && f.sched.results == e.sched.results && f.sched.flags == e.sched.flags
            && SameQueues(e, f) && SameWork(e, f) && f.lock == e.lock
  {
    PartitionSorted(e.sched);
    hide Inv, Partition, Sorted, SchedulerSpec.Schedule;
    k := ScheduleExact(e.sched, op);
    Registered(e.sched, op);
  }

  lemma Registered(s: Sched, op: Op)
    ensures op.Fd() in Schedule(s, op).epoll && op.Direction() in Schedule(s, op).epoll[op.Fd()]
  {
  }

  /** A cancel that returns has moved every operation of the descriptor, marked,
      in front of the cancelled ones, and no other; it does not return exactly
      when CancelHangs says so, and then they are marked where they are. */
  lemma CancelDoes(e: Engine, fd: int) returns (a: seq<Op>, b: seq<Op>, c: seq<Op>)
    requires CallEnabled(e, CancelFd(fd)) && Inv(e)
    ensures e.sched.active == a + b + c
    ensures (forall o :: o in b ==> o.Fd() == fd) && (forall o :: o in a + c ==> o.Fd() != fd)
    ensures var f := CallNext(e, CancelFd(fd));
            && (f.lock.Stuck? <==> CancelHangs(e.sched, fd))
            && (!f.lock.Stuck? ==> f.lock == e.lock && f.sched.active == a + c && f.sched.cancelled == b + e.sched.cancelled)
            && (f.lock.Stuck? ==> f.sched.active == e.sched.active && f.sched.cancelled == e.sched.cancelled)
            && (forall o :: o in b ==> o in f.sched.flags && o in f.sched.results && f.sched.results[o] == OPERATION_CANCELED)
            && f.built == e.built && f.count == e.count && SameQueues(e, f) && SameWork(e, f)
  {
    InvSorted(e);
    hide Inv, Sorted, Cancel, CancelHangs, CallEnabled, CallNext, SameQueues, SameWork, MarkRange;
    CancelNext(e, fd);
    a, b, c := CancelExact(e.sched, fd);
    MarkedAll(e.sched, fd, a, b, c);
  }

  lemma InvSorted(e: Engine)
    requires Inv(e) && e.lock.Free?
    ensures Sorted(e.sched.active)
  {
  }

  lemma CancelNext(e: Engine, fd: int)
    requires CallEnabled(e, CancelFd(fd))
    ensures e.lock.Free?
    ensures var f := CallNext(e, CancelFd(fd));
            && (if CancelHangs(e.sched, fd) then f.lock == Stuck && f.sched == MarkRange(e.sched, fd)
                else f.lock == e.lock && f.sched == Cancel(e.sched, fd))
            && f.built == e.built && f.count == e.count && SameQueues(e, f) && SameWork(e, f)
  {
    hide Cancel, CancelHangs, MarkRange, Placed;
  }

  lemma MarkedAll(s: Sched, fd: int, a: seq<Op>, b: seq<Op>, c: seq<Op>)
    requires Sorted(s.active) && s.active == a + b + c
    requires (forall o :: o in b ==> o.Fd() == fd) && (forall o :: o in a + c ==> o.Fd() != fd)
    ensures var t := MarkRange(s, fd);
            && t.active == s.active && t.cancelled == s.cancelled
            && (forall o :: o in b ==> o in t.flags && o in t.results && t.results[o] == OPERATION_CANCELED)
  {
    hide MarkRange, Range, Sorted;
    CancelRangeExact(s, fd);
    MarkFacts(s, fd);
    MarkKeepsLists(s, fd);
    assert forall o :: o in b ==> o in s.active;
  }

  /** The application's Work: latching adds one, moving keeps their number, and
      releasing takes one away if there is one. */
  lemma WorkDoes(e: Engine, a: CallStep)
    requires CallEnabled(e, a) && Inv(e) && (a.Latch? || a.Move? || a.Reset?)
    ensures var f := CallNext(e, a);
            && SameQueues(e, f) && f.built == e.built && f.sched == e.sched && f.count == e.count && f.lock == e.lock
            && match a
               case Latch(n) => UserWork(n) !in e.works && UserWork(n) in f.works && f.remaining == e.remaining + 1
               case Move(n, m) => f.remaining == e.remaining && (UserWork(n) in e.works <==> UserWork(m) in f.works)
                                  && (n != m ==> UserWork(n) !in f.works)
               case Reset(n) => UserWork(n) !in f.works
                                && f.remaining == e.remaining - if UserWork(n) in e.works then 1 else 0
               case _ => true
  {
  }
}
