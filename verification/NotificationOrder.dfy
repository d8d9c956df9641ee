/** A notification pass is a stable filter, and keeps arrival order. */
module NotificationOrder {
  import opened Sequences
  import opened Operations
  import opened SchedulerSpec
  import opened SchedulerLaws

  // ----- an independent account of one event

  /** The operations an event lets the loop attempt. */
  predicate Matches(o: Op, fd: int, readable: bool)
  {
    o.Fd() == fd && readable == (o.Direction() == In)
  }

  predicate Completes(o: Op, fd: int, readable: bool, io: Op -> Outcome)
  {
    Matches(o, fd, readable) && io(o).Done?
  }

  function Remaining(s: seq<Op>, fd: int, readable: bool, io: Op -> Outcome): seq<Op>
  {
    if s == [] then [] else
      (if Completes(s[0], fd, readable, io) then [] else [s[0]]) + Remaining(s[1..], fd, readable, io)
  }

  function Completed(s: seq<Op>, fd: int, readable: bool, io: Op -> Outcome): seq<Op>
  {
    if s == [] then [] else
      (if Completes(s[0], fd, readable, io) then [s[0]] else []) + Completed(s[1..], fd, readable, io)
  }

  lemma {:induction false} NoneComplete(s: seq<Op>, fd: int, readable: bool, io: Op -> Outcome)
    requires forall o :: o in s ==> o.Fd() != fd
    ensures Remaining(s, fd, readable, io) == s && Completed(s, fd, readable, io) == []
  {
    if s != [] {
      assert s[0] in s;
      NoneComplete(s[1..], fd, readable, io);
    }
  }

  lemma FilterCons(x: Op, s: seq<Op>, fd: int, readable: bool, io: Op -> Outcome)
    ensures Remaining([x] + s, fd, readable, io)
         == (if Completes(x, fd, readable, io) then [] else [x]) + Remaining(s, fd, readable, io)
    ensures Completed([x] + s, fd, readable, io)
         == (if Completes(x, fd, readable, io) then [x] else []) + Completed(s, fd, readable, io)
  {
    assert ([x] + s)[1..] == s;
  }

  lemma {:induction false} FilterConcat(s: seq<Op>, t: seq<Op>, fd: int, readable: bool, io: Op -> Outcome)
    ensures Remaining(s + t, fd, readable, io) == Remaining(s, fd, readable, io) + Remaining(t, fd, readable, io)
    ensures Completed(s + t, fd, readable, io) == Completed(s, fd, readable, io) + Completed(t, fd, readable, io)
  {
    if s == [] {
      assert s + t == t;
    } else {
      hide Remaining, Completed, Completes;
      var x, rest := s[0], s[1..];
      assert s == [x] + rest && s + t == [x] + (rest + t);
      FilterCons(x, rest, fd, readable, io);
      FilterCons(x, rest + t, fd, readable, io);
      FilterConcat(rest, t, fd, readable, io);
    }
  }

  lemma FilterBehind(s: seq<Op>, k: nat, fd: int, readable: bool, io: Op -> Outcome)
    requires k <= |s| && forall i :: 0 <= i < k ==> s[i].Fd() != fd
    ensures Remaining(s, fd, readable, io) == s[..k] + Remaining(s[k..], fd, readable, io)
    ensures Completed(s, fd, readable, io) == Completed(s[k..], fd, readable, io)
  {
    NoneComplete(s[..k], fd, readable, io);
    FilterConcat(s[..k], s[k..], fd, readable, io);
    assert s == s[..k] + s[k..];
  }

  lemma {:induction false} FilterMembers(s: seq<Op>, fd: int, readable: bool, io: Op -> Outcome)
    ensures forall o :: o in Completed(s, fd, readable, io) <==> o in s && Completes(o, fd, readable, io)
    ensures forall o :: o in Remaining(s, fd, readable, io) <==> o in s && !Completes(o, fd, readable, io)
    ensures multiset(Remaining(s, fd, readable, io)) + multiset(Completed(s, fd, readable, io)) == multiset(s)
  {
    if s != [] {
      assert s == [s[0]] + s[1..];
      FilterMembers(s[1..], fd, readable, io);
    }
  }

  // ----- the inner loop computes it

  /** The cursor is at the first operation of the event's descriptor that the
      loop has not seen; none of the prefix is flagged cancelled. */
  ghost predicate Positioned(s: Sched, p: Pass)
  {
    && Sorted(s.active)
    && (forall o :: o in s.active ==> o !in s.flags)
    && p.next <= |s.active|
    && (p.next < |s.active| ==> s.active[p.next].Fd() >= p.fd)
  }

  lemma StepPositioned(s: Sched, p: Pass, outcome: Outcome)
    requires Positioned(s, p) && AtItem(s, p)
    ensures Positioned(TryItem(s, p, outcome).sched, TryItem(s, p, outcome).pass)
    ensures Tried(s, p) <==> p.readable == (s.active[p.next].Direction() == In)
  {
    var k := p.next;
    assert s.active[k] in s.active;
    SortedRemove(s.active, k);
    MultisetRemove(s.active, k);
  }

  /** Where one attempt leaves the cursor and what is still ahead of it. */
  lemma StepTail(s: Sched, p: Pass, io: Op -> Outcome)
    requires Positioned(s, p) && AtItem(s, p)
    ensures var item, k := s.active[p.next], p.next;
            var t := TryItem(s, p, io(item));
            var left := if Completes(item, p.fd, p.readable, io) then [] else [item];
            && t.sched.active[..t.pass.next] == s.active[..k] + left
            && t.sched.active[t.pass.next..] == s.active[k..][1..]
            && t.posted == (if Completes(item, p.fd, p.readable, io) then [item] else [])
            && s.active[k..][0] == item
            && t.pass.fd == p.fd && t.pass.readable == p.readable
  {
    StepPositioned(s, p, io(s.active[p.next]));
  }

  /** What the loop will leave of the prefix, and what it will post. */
  ghost function Kept(s: Sched, p: Pass, io: Op -> Outcome): seq<Op>
    requires p.next <= |s.active|
  {
    s.active[..p.next] + Remaining(s.active[p.next..], p.fd, p.readable, io)
  }

  ghost function Due(s: Sched, p: Pass, io: Op -> Outcome): seq<Op>
    requires p.next <= |s.active|
  {
    Completed(s.active[p.next..], p.fd, p.readable, io)
  }

  lemma PositionedNext(t: Step)
    ensures Positioned(t.sched, t.pass) ==> t.pass.next <= |t.sched.active|
  {
  }

  lemma StepKept(s: Sched, p: Pass, io: Op -> Outcome)
    requires Positioned(s, p) && AtItem(s, p)
    ensures var t := TryItem(s, p, io(s.active[p.next]));
            && t.pass.next <= |t.sched.active|
            && Kept(s, p, io) == Kept(t.sched, t.pass, io)
            && Due(s, p, io) == t.posted + Due(t.sched, t.pass, io)
  {
    hide TryItem, Positioned, Tried, Completes;
    StepPositioned(s, p, io(s.active[p.next]));
    StepTail(s, p, io);
    PositionedNext(TryItem(s, p, io(s.active[p.next])));
    var head, tail := s.active[..p.next], s.active[p.next..];
    var left := if Completes(tail[0], p.fd, p.readable, io) then [] else [tail[0]];
    var rest := Remaining(tail[1..], p.fd, p.readable, io);
    assert Remaining(tail, p.fd, p.readable, io) == left + rest;
    assert (head + left) + rest == head + (left + rest);
  }

  lemma EndKept(s: Sched, p: Pass, io: Op -> Outcome)
    requires Positioned(s, p) && !AtItem(s, p)
    ensures Kept(s, p, io) == s.active && Due(s, p, io) == []
  {
    hide Sorted, Remaining, Completed, AtItem;
    NoneBehind(s, p);
    NoneComplete(s.active[p.next..], p.fd, p.readable, io);
  }

  lemma {:induction false} RunItemsFilters(s: Sched, p: Pass, io: Op -> Outcome)
    requires Positioned(s, p)
    ensures RunItems(s, p, io).sched.active == Kept(s, p, io)
    ensures RunItems(s, p, io).posted == Due(s, p, io)
    ensures RunItems(s, p, io).pass.fd == p.fd
    decreases |s.active| - p.next
  {
    hide Kept, Due, Remaining, Completed;
    if !AtItem(s, p) {
      EndKept(s, p, io);
    } else {
      var first := TryItem(s, p, io(s.active[p.next]));
      StepPositioned(s, p, io(s.active[p.next]));
      StepKept(s, p, io);
      RunItemsFilters(first.sched, first.pass, io);
    }
  }

  /** The rest of the state: exactly the completed operations get a result,
      their own; nothing but the prefix and the result slots is touched. */
  lemma {:induction false} RunItemsResults(s: Sched, p: Pass, io: Op -> Outcome)
    ensures var r := RunItems(s, p, io);
            && r.pass.finished == p.finished + |r.posted|
            && r.sched.cancelled == s.cancelled && r.sched.epoll == s.epoll && r.sched.flags == s.flags
            && (forall o :: o in r.sched.results <==> o in s.results || o in r.posted)
            && (forall o :: o in r.posted ==> io(o) == Done(r.sched.results[o]))
            && (forall o :: o in s.results && o !in r.posted ==> r.sched.results[o] == s.results[o])
    decreases |s.active| - p.next
  {
    if AtItem(s, p) {
      var first := TryItem(s, p, io(s.active[p.next]));
      RunItemsResults(first.sched, first.pass, io);
    }
  }

  /** One event: the list afterwards is the old list less the operations that
      completed, in the old order; those are posted in the old order; and only
      operations of the notified descriptor and direction are among them. */
  lemma EventFilters(s: Sched, e: Event, io: Op -> Outcome)
    requires Partition(s) && e.Ready?
    ensures RunEvent(s, e, io).0.active == Remaining(s.active, e.fd, e.readable, io)
    ensures RunEvent(s, e, io).1 == Completed(s.active, e.fd, e.readable, io)
  {
    var p := BeginEvent(s, e.fd, e.readable);
    BoundsOrdered(s.active, e.fd);
    RunItemsFilters(s, p, io);
    FilterBehind(s.active, p.next, e.fd, e.readable, io);
  }

  lemma {:induction false} RunItemsTries(s: Sched, p: Pass, io: Op -> Outcome, io': Op -> Outcome)
    requires p.next <= |s.active|
    requires forall o :: o in s.active[p.next..] && Matches(o, p.fd, p.readable) ==> io(o) == io'(o)
    ensures RunItems(s, p, io) == RunItems(s, p, io')
    decreases |s.active| - p.next
  {
    if AtItem(s, p) {
      var item := s.active[p.next];
      var first := TryItem(s, p, io(item));
      TailShrinks(s, p, io(item));
      RunItemsTries(first.sched, first.pass, io, io');
      assert Tried(s, p) ==> io(item) == io'(item);
    }
  }

  lemma TailShrinks(s: Sched, p: Pass, outcome: Outcome)
    requires AtItem(s, p)
    ensures s.active[p.next] in s.active[p.next..]
    ensures var t := TryItem(s, p, outcome);
            && t.pass.next <= |t.sched.active| && t.pass.fd == p.fd && t.pass.readable == p.readable
            && t.sched.active[t.pass.next..] == s.active[p.next..][1..]
            && forall o :: o in t.sched.active[t.pass.next..] ==> o in s.active[p.next..]
  {
    assert s.active[p.next..][0] == s.active[p.next];
  }

  /** Only operations of the event's descriptor and chosen direction are tried:
      what the system would answer for any other changes nothing. */
  lemma OnlyMatchingTried(s: Sched, e: Event, io: Op -> Outcome, io': Op -> Outcome)
    requires e.Ready? && forall o :: o in s.active && Matches(o, e.fd, e.readable) ==> io(o) == io'(o)
    ensures RunEvent(s, e, io) == RunEvent(s, e, io')
  {
    var p := BeginEvent(s, e.fd, e.readable);
    forall o | o in s.active[p.next..] ensures o in s.active {}
    RunItemsTries(s, p, io, io');
  }

  lemma {:induction false} RunItemsFd(s: Sched, p: Pass, io: Op -> Outcome)
    ensures RunItems(s, p, io).pass.fd == p.fd
    ensures |RunItems(s, p, io).sched.active| + |RunItems(s, p, io).posted| == |s.active|
    decreases |s.active| - p.next
  {
    if AtItem(s, p) {
      var t := TryItem(s, p, io(s.active[p.next]));
      RunItemsFd(t.sched, t.pass, io);
    }
  }

  /** One event, and everything else it leaves: the completed operations alone
      gain their results, the event's descriptor is registered for exactly what
      still waits on it, and no other registration is touched. */
  lemma EventExact(s: Sched, e: Event, io: Op -> Outcome)
    requires Partition(s) && EpollAgrees(s) && e.Ready?
    ensures var (t, posted) := RunEvent(s, e, io);
            && t.cancelled == s.cancelled && t.flags == s.flags
            && (forall o :: o in t.results <==> o in s.results || o in posted)
            && (forall o :: o in posted ==> io(o) == Done(t.results[o]))
            && (forall o :: o in s.results && o !in posted ==> t.results[o] == s.results[o])
            && SameElsewhere(s.epoll, t.epoll, e.fd)
            && (e.fd in t.epoll <==> Interest(t.active, e.fd) != {})
            && (e.fd in t.epoll ==> t.epoll[e.fd] == Interest(t.active, e.fd))
  {
    hide RunItems, LowerBound, Sorted, MidPass, EpollAgrees, Interest, EndEvent;
    var p := BeginEvent(s, e.fd, e.readable);
    BeginMidPass(s, e.fd, e.readable);
    RunItemsResults(s, p, io);
    RunItemsKeeps(s, p, io);
    RunItemsFd(s, p, io);
    EndExact(RunItems(s, p, io).sched, RunItems(s, p, io).pass);
  }

  lemma EndExact(s: Sched, p: Pass)
    requires Partition(s) && MidPass(s, p) && !AtItem(s, p)
    ensures var t := EndEvent(s, p);
            && t.active == s.active && t.cancelled == s.cancelled && t.flags == s.flags && t.results == s.results
            && SameElsewhere(s.epoll, t.epoll, p.fd)
            && (p.fd in t.epoll <==> Interest(t.active, p.fd) != {})
            && (p.fd in t.epoll ==> t.epoll[p.fd] == Interest(t.active, p.fd))
  {
    hide MidPass, Interest, Sorted, EpollAgrees;
    PassUnion(s, p);
    PassEmpty(s, p);
  }

  // ----- the whole batch of events

  function RemainingAll(s: seq<Op>, events: seq<Event>, io: (nat, Op) -> Outcome, k: nat): seq<Op>
    requires k <= |events|
    decreases |events| - k
  {
    if k == |events| then s
    else if events[k].Wake? then RemainingAll(s, events, io, k + 1)
    else RemainingAll(Remaining(s, events[k].fd, events[k].readable, o => io(k, o)), events, io, k + 1)
  }

  function CompletedAll(s: seq<Op>, events: seq<Event>, io: (nat, Op) -> Outcome, k: nat): seq<Op>
    requires k <= |events|
    decreases |events| - k
  {
    if k == |events| then []
    else if events[k].Wake? then CompletedAll(s, events, io, k + 1)
    else
      Completed(s, events[k].fd, events[k].readable, o => io(k, o))
      + CompletedAll(Remaining(s, events[k].fd, events[k].readable, o => io(k, o)), events, io, k + 1)
  }

  lemma {:induction false} RunItemsKeeps(s: Sched, p: Pass, io: Op -> Outcome)
    requires Partition(s) && MidPass(s, p)
    ensures var r := RunItems(s, p, io);
            Partition(r.sched) && MidPass(r.sched, r.pass) && !AtItem(r.sched, r.pass)
    decreases |s.active| - p.next
  {
    if AtItem(s, p) {
      var outcome := io(s.active[p.next]);
      TryItemKeepsPartition(s, p, outcome);
      TryItemKeepsMidPass(s, p, outcome);
      RunItemsKeeps(TryItem(s, p, outcome).sched, TryItem(s, p, outcome).pass, io);
    }
  }

  lemma EventKeeps(s: Sched, e: Event, io: Op -> Outcome)
    requires Partition(s) && EpollAgrees(s)
    ensures Partition(RunEvent(s, e, io).0) && EpollAgrees(RunEvent(s, e, io).0)
  {
    if e.Ready? {
      var p := BeginEvent(s, e.fd, e.readable);
      BeginMidPass(s, e.fd, e.readable);
      RunItemsKeeps(s, p, io);
      var r := RunItems(s, p, io);
      EndEventAgrees(r.sched, r.pass);
    }
  }

  /** For every batch of events and every outcome of every attempt. */
  lemma {:induction false} PassFilters(s: Sched, events: seq<Event>, io: (nat, Op) -> Outcome, k: nat)
    requires Partition(s) && EpollAgrees(s) && k <= |events|
    ensures RunEvents(s, events, io, k).0.active == RemainingAll(s.active, events, io, k)
    ensures RunEvents(s, events, io, k).1 == CompletedAll(s.active, events, io, k)
    ensures Partition(RunEvents(s, events, io, k).0) && EpollAgrees(RunEvents(s, events, io, k).0)
    decreases |events| - k
  {
    if k < |events| {
      var r := RunEvent(s, events[k], o => io(k, o));
      EventKeeps(s, events[k], o => io(k, o));
      if events[k].Ready? {
        EventFilters(s, events[k], o => io(k, o));
      }
      PassFilters(r.0, events, io, k + 1);
    }
  }

  /** Nothing is lost or invented, and only operations of a notified descriptor
      and direction whose attempt was not blocked are completed. */
  lemma {:induction false} PassConserves(s: seq<Op>, events: seq<Event>, io: (nat, Op) -> Outcome, k: nat)
    requires k <= |events|
    ensures multiset(RemainingAll(s, events, io, k)) + multiset(CompletedAll(s, events, io, k)) == multiset(s)
    ensures |RemainingAll(s, events, io, k)| + |CompletedAll(s, events, io, k)| == |s|
    ensures forall o :: o in CompletedAll(s, events, io, k) ==>
              exists i :: k <= i < |events| && events[i].Ready? && Completes(o, events[i].fd, events[i].readable, x => io(i, x))
    decreases |events| - k
  {
    if k < |events| {
      if events[k].Wake? {
        PassConserves(s, events, io, k + 1);
      } else {
        FilterMembers(s, events[k].fd, events[k].readable, o => io(k, o));
        PassConserves(Remaining(s, events[k].fd, events[k].readable, o => io(k, o)), events, io, k + 1);
      }
    }
    assert |multiset(s)| == |s|;
    assert |multiset(RemainingAll(s, events, io, k))| == |RemainingAll(s, events, io, k)|;
    assert |multiset(CompletedAll(s, events, io, k))| == |CompletedAll(s, events, io, k)|;
  }

  // ----- arrival order

  /** The operations of one descriptor and direction, in list order. */
  function Waiting(s: seq<Op>, fd: int, d: Dir): seq<Op>
  {
    if s == [] then [] else
      (if s[0].Fd() == fd && s[0].Direction() == d then [s[0]] else []) + Waiting(s[1..], fd, d)
  }

  lemma WaitingCons(x: Op, s: seq<Op>, fd: int, d: Dir)
    ensures Waiting([x] + s, fd, d) == (if x.Fd() == fd && x.Direction() == d then [x] else []) + Waiting(s, fd, d)
  {
    assert ([x] + s)[1..] == s;
  }

  lemma {:induction false} WaitingConcat(s: seq<Op>, t: seq<Op>, fd: int, d: Dir)
    ensures Waiting(s + t, fd, d) == Waiting(s, fd, d) + Waiting(t, fd, d)
  {
    if s == [] {
      assert s + t == t;
    } else {
      hide Waiting;
      var x, rest := s[0], s[1..];
      assert s == [x] + rest && s + t == [x] + (rest + t);
      WaitingCons(x, rest, fd, d);
      WaitingCons(x, rest + t, fd, d);
      WaitingConcat(rest, t, fd, d);
    }
  }

  lemma {:induction false} WaitingNone(s: seq<Op>, fd: int, d: Dir)
    requires forall o :: o in s ==> o.Fd() != fd
    ensures Waiting(s, fd, d) == []
  {
    if s != [] {
      assert s[0] in s;
      WaitingNone(s[1..], fd, d);
    }
  }

  /** Over a sorted prefix, scheduling appends to the operations of the same
      descriptor and direction, and to no others. */
  lemma ScheduleAppends(s: seq<Op>, op: Op, fd: int, d: Dir)
    requires Sorted(s)
    ensures Waiting(InsertAt(s, UpperBound(s, op.Fd()), op), fd, d)
         == Waiting(s, fd, d) + if op.Fd() == fd && op.Direction() == d then [op] else []
  {
    var u := UpperBound(s, op.Fd());
    WaitingInsert(s, u, op, fd, d);
    if op.Fd() == fd {
      BoundsOrdered(s, fd);
      forall o | o in s[u..] ensures o.Fd() != fd {
        var k :| u <= k < |s| && s[k] == o;
      }
      WaitingNone(s[u..], fd, d);
    }
  }

  lemma WaitingInsert(s: seq<Op>, u: nat, op: Op, fd: int, d: Dir)
    requires u <= |s|
    ensures Waiting(s, fd, d) == Waiting(s[..u], fd, d) + Waiting(s[u..], fd, d)
    ensures Waiting(InsertAt(s, u, op), fd, d)
         == Waiting(s[..u], fd, d) + (if op.Fd() == fd && op.Direction() == d then [op] else []) + Waiting(s[u..], fd, d)
  {
    assert s == s[..u] + s[u..] && InsertAt(s, u, op) == s[..u] + ([op] + s[u..]);
    WaitingAround(s[..u], op, s[u..], fd, d);
  }

  lemma WaitingAround(a: seq<Op>, op: Op, b: seq<Op>, fd: int, d: Dir)
    ensures Waiting(a + b, fd, d) == Waiting(a, fd, d) + Waiting(b, fd, d)
    ensures Waiting(a + ([op] + b), fd, d)
         == Waiting(a, fd, d) + (if op.Fd() == fd && op.Direction() == d then [op] else []) + Waiting(b, fd, d)
  {
    WaitingConcat(a, b, fd, d);
    WaitingConcat(a, [op] + b, fd, d);
    WaitingCons(op, b, fd, d);
  }

  /** A would-block lasts: once an attempt on a descriptor and direction has
      blocked, so do the later ones of the same event. */
  ghost predicate BlockingLasts(s: seq<Op>, io: Op -> Outcome)
  {
    forall i, j ::
      (0 <= i < j < |s| && s[i].Fd() == s[j].Fd() && s[i].Direction() == s[j].Direction() && io(s[i]).WouldBlock?)
      ==> io(s[j]).WouldBlock?
  }

  lemma {:induction false} AllBlocked(s: seq<Op>, fd: int, readable: bool, io: Op -> Outcome, d: Dir)
    requires readable == (d == In)
    requires forall o :: o in s && o.Fd() == fd && o.Direction() == d ==> io(o).WouldBlock?
    ensures Completed(s, fd, readable, io) == []
    ensures Remaining(s, fd, readable, io) == s
  {
    if s != [] {
      assert s[0] in s;
      AllBlocked(s[1..], fd, readable, io, d);
    }
  }

  /** Operations of one descriptor and direction complete from the front. */
  lemma {:induction false} CompletesFromFront(s: seq<Op>, fd: int, readable: bool, io: Op -> Outcome, d: Dir)
    requires BlockingLasts(s, io) && readable == (d == In)
    ensures Waiting(s, fd, d)
         == Completed(s, fd, readable, io) + Waiting(Remaining(s, fd, readable, io), fd, d)
  {
    if s != [] {
      var x, rest := s[0], s[1..];
      assert s == [x] + rest && BlockingLasts(rest, io);
      if x.Fd() == fd && x.Direction() == d && io(x).WouldBlock? {
        forall o | o in s && o.Fd() == fd && o.Direction() == d ensures io(o).WouldBlock? {
          var k :| 0 <= k < |s| && s[k] == o;
        }
        AllBlocked(s, fd, readable, io, d);
      } else {
        CompletesFromFront(rest, fd, readable, io, d);
        FrontStep(x, rest, fd, readable, io, d);
      }
    }
  }

  lemma FrontStep(x: Op, rest: seq<Op>, fd: int, readable: bool, io: Op -> Outcome, d: Dir)
    requires readable == (d == In) && !(x.Fd() == fd && x.Direction() == d && io(x).WouldBlock?)
    requires Waiting(rest, fd, d)
          == Completed(rest, fd, readable, io) + Waiting(Remaining(rest, fd, readable, io), fd, d)
    ensures Waiting([x] + rest, fd, d)
         == Completed([x] + rest, fd, readable, io) + Waiting(Remaining([x] + rest, fd, readable, io), fd, d)
  {
    hide Waiting, Remaining, Completed;
    FilterCons(x, rest, fd, readable, io);
    WaitingCons(x, rest, fd, d);
    var left := Remaining(rest, fd, readable, io);
    WaitingCons(x, left, fd, d);
    assert [] + left == left && [] + Waiting(left, fd, d) == Waiting(left, fd, d);
  }
}
