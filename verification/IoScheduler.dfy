/** The scheduler over the linked ring: every method computes what
    SchedulerSpec says, through the iterators the list gives it. */
module IoSchedulers {
  import opened Sequences
  import opened SpliceLoop
  import opened IntrusiveLists
  import opened Operations
  import opened SchedulerSpec
  import opened SchedulerLaws
  import opened NotificationOrder
  import opened PollLaws

  /** The operations of a sequence of list nodes. */
  ghost function Values(s: seq<ListItem<Op>>): (r: seq<Op>)
    ensures |r| == |s|
  {
    seq(|s|, i requires 0 <= i < |s| => s[i].value)
  }

  /** The nodes have left the list whose nodes were `before` and are `after`,
      each once. */
  ghost predicate Detached(nodes: seq<ListItem<Op>>, before: set<ListItem<Op>>, after: set<ListItem<Op>>)
  {
    && NoDup(nodes)
    && after <= before
    && forall n :: n in nodes ==> n in before && n !in after
  }

  lemma DetachedNone(before: set<ListItem<Op>>)
    ensures Detached([], before, before)
  {
  }

  lemma DetachedOne(n: ListItem<Op>, before: set<ListItem<Op>>)
    requires n in before
    ensures Detached([n], before, before - {n})
  {
  }

  lemma DetachedMore(s: seq<ListItem<Op>>, t: seq<ListItem<Op>>,
                     before: set<ListItem<Op>>, mid: set<ListItem<Op>>, after: set<ListItem<Op>>)
    requires Detached(s, before, mid) && Detached(t, mid, after)
    ensures Detached(s + t, before, after)
  {
    forall i, j | 0 <= i < j < |s + t| ensures (s + t)[i] != (s + t)[j] {
      if i < |s| <= j {
        assert s[i] in s && t[j - |s|] in t;
      }
    }
  }

  lemma ValuesInsert(s: seq<ListItem<Op>>, k: nat, n: ListItem<Op>)
    requires k <= |s|
    ensures Values(InsertAt(s, k, n)) == InsertAt(Values(s), k, n.value)
  {
  }

  lemma ValuesRemove(s: seq<ListItem<Op>>, k: nat)
    requires k < |s|
    ensures Values(RemoveAt(s, k)) == RemoveAt(Values(s), k)
  {
  }

  lemma ValuesConcat(s: seq<ListItem<Op>>, t: seq<ListItem<Op>>)
    ensures Values(s + t) == Values(s) + Values(t)
  {
  }

  lemma ValuesMoved(s: seq<ListItem<Op>>, c: Cursor)
    requires c.it <= c.last <= |s| && c.before <= |s| && (c.before <= c.it || c.last <= c.before)
    ensures Values(Moved(s, c)) == Moved(Values(s), c)
  {
    if c.before <= c.it {
      ValuesOfBlocks(s[..c.before], s[c.it..c.last], s[c.before..c.it], s[c.last..]);
      ValuesOfSlices(s, c.before, c.it, c.last);
    } else {
      ValuesOfBlocks(s[..c.it], s[c.last..c.before], s[c.it..c.last], s[c.before..]);
      ValuesOfSlices(s, c.it, c.last, c.before);
    }
    hide Values;
  }

  lemma ValuesOfBlocks(p: seq<ListItem<Op>>, q: seq<ListItem<Op>>, r: seq<ListItem<Op>>, u: seq<ListItem<Op>>)
    ensures Values(p + q + r + u) == Values(p) + Values(q) + Values(r) + Values(u)
  {
    hide Values;
    ValuesConcat(p, q);
    ValuesConcat(p + q, r);
    ValuesConcat(p + q + r, u);
  }

  lemma ValuesOfSlices(s: seq<ListItem<Op>>, i: nat, j: nat, k: nat)
    requires i <= j <= k <= |s|
    ensures Values(s[..i]) == Values(s)[..i] && Values(s[i..j]) == Values(s)[i..j]
    ensures Values(s[j..k]) == Values(s)[j..k] && Values(s[k..]) == Values(s)[k..]
  {
  }

  /** What the operations at positions i..k wait for, on fd. */
  ghost function Collected(s: seq<Op>, i: nat, k: nat, fd: int): set<Dir>
    requires i <= k <= |s|
  {
    set j | i <= j < k && s[j].Fd() == fd :: s[j].Direction()
  }

  lemma CollectedNone(s: seq<Op>, i: nat, fd: int)
    requires i <= |s|
    ensures Collected(s, i, i, fd) == {}
  {
  }

  lemma CollectedGrows(s: seq<Op>, i: nat, k: nat, fd: int)
    requires i <= k < |s| && s[k].Fd() == fd
    ensures Collected(s, i, k + 1, fd) == Collected(s, i, k, fd) + {s[k].Direction()}
  {
  }

  lemma CollectedRun(s: seq<Op>, fd: int)
    requires Sorted(s)
    ensures LowerBound(s, fd) <= UpperBound(s, fd)
    ensures Collected(s, LowerBound(s, fd), UpperBound(s, fd), fd) == Interest(s, fd)
  {
    BoundsOrdered(s, fd);
    var lo, hi := LowerBound(s, fd), UpperBound(s, fd);
    forall o | o in s && o.Fd() == fd ensures o.Direction() in Collected(s, lo, hi, fd) {
      var k :| 0 <= k < |s| && s[k] == o;
    }
  }

  lemma LowerCompare(s: seq<Op>, fd: int, k: nat)
    requires Sorted(s) && k < |s|
    ensures s[k].Fd() < fd <==> k < LowerBound(s, fd)
  {
    BoundsOrdered(s, fd);
  }

  lemma StartsBelowUpper(s: seq<Op>, fd: int)
    requires Sorted(s)
    ensures LowerBound(s, fd) <= UpperBound(s, fd) && (TailBranch(s, fd) ==> UpperBound(s, fd) == |s|)
  {
    BoundsOrdered(s, fd);
  }

  lemma StaysBelowUpper(s: seq<Op>, fd: int, k: nat)
    requires Sorted(s) && k < |s| && s[k].Fd() == fd
    ensures k + 1 <= UpperBound(s, fd)
  {
    BoundsOrdered(s, fd);
  }

  /** Where the skip loop stops, and what it has collected. */
  lemma SkippedToUpper(s: seq<Op>, op: Op, from: nat, k: nat)
    requires Sorted(s) && from <= k <= UpperBound(s, op.Fd())
    requires from == if TailBranch(s, op.Fd()) then |s| else LowerBound(s, op.Fd())
    requires k < |s| ==> s[k].Fd() != op.Fd()
    ensures k == UpperBound(s, op.Fd())
    ensures {op.Direction()} + Collected(s, from, k, op.Fd()) == ScheduleMask(s, op)
  {
    BoundsOrdered(s, op.Fd());
    if !TailBranch(s, op.Fd()) {
      CollectedRun(s, op.Fd());
    }
  }

  lemma {:induction false} UpperUnique(s: seq<Op>, fd: int, j: nat, i: nat)
    requires j <= i <= |s|
    requires forall k :: j <= k < i ==> s[k].Fd() <= fd
    requires i < |s| ==> s[i].Fd() > fd
    ensures UpperFrom(s, fd, j) == i
    decreases i - j
  {
    if j < i {
      UpperUnique(s, fd, j + 1, i);
    }
  }

  lemma RunEnds(s: seq<Op>, fd: int, lo: nat, hi: nat)
    requires Sorted(s) && lo <= hi <= |s| && lo == LowerBound(s, fd)
    requires forall i :: lo <= i < hi ==> s[i].Fd() == fd
    requires hi < |s| ==> s[hi].Fd() != fd
    ensures UpperFrom(s, fd, lo) == hi
  {
    BoundsOrdered(s, fd);
    UpperUnique(s, fd, lo, hi);
  }

  lemma MaskIs(s: seq<Op>, op: Op)
    ensures ScheduleMask(s, op)
         == if s == [] || op.Fd() <= s[0].Fd() || op.Fd() < s[|s| - 1].Fd() then Interest(s, op.Fd()) + {op.Direction()}
            else {op.Direction()}
  {
  }

  /** The slots and flags once the operations at positions i..k are cancelled. */
  ghost function SlotsAfter(results: map<Op, IoResult>, s: seq<Op>, i: nat, k: nat): map<Op, IoResult>
    requires i <= k <= |s|
  {
    Mark(results, s[i..k])
  }

  ghost function FlagsAfter(flags: set<Op>, s: seq<Op>, i: nat, k: nat): set<Op>
    requires i <= k <= |s|
  {
    flags + (set o | o in s[i..k])
  }

  lemma MarkNone(results: map<Op, IoResult>, flags: set<Op>, s: seq<Op>, i: nat)
    requires i <= |s|
    ensures SlotsAfter(results, s, i, i) == results && FlagsAfter(flags, s, i, i) == flags
  {
  }

  lemma MarkOne(results: map<Op, IoResult>, flags: set<Op>, s: seq<Op>, i: nat, k: nat)
    requires i <= k < |s|
    ensures SlotsAfter(results, s, i, k + 1) == SlotsAfter(results, s, i, k)[s[k] := OPERATION_CANCELED]
    ensures FlagsAfter(flags, s, i, k + 1) == FlagsAfter(flags, s, i, k) + {s[k]}
  {
    assert s[i..k + 1] == s[i..k] + [s[k]];
    hide Mark;
    MarkMore(results, flags, s[i..k], s[k]);
  }

  lemma MarkMore(results: map<Op, IoResult>, flags: set<Op>, ops: seq<Op>, x: Op)
    ensures Mark(results, ops + [x]) == Mark(results, ops)[x := OPERATION_CANCELED]
    ensures flags + (set o | o in ops + [x]) == flags + (set o | o in ops) + {x}
  {
  }

  /** After a splice of [it, last) to `before`, ahead of it begins the block. */
  lemma MovedBoundary(s: seq<ListItem<Op>>, c: Cursor)
    requires c.it < c.last <= c.before <= |s|
    ensures |Moved(s, c)| == |s| && Moved(s, c)[c.before - (c.last - c.it)] == s[c.it]
  {
  }

  /** The boundary cuts the moved list where the specification does. */
  lemma CancelSplit(s: Sched, a: seq<Op>, b: seq<Op>, fd: int)
    requires var (lo, hi) := CancelRange(s, fd);
             && lo < hi && |a| == |s.active| - (hi - lo)
             && a + b == Moved(s.active + s.cancelled, Cursor(lo, hi, |s.active|))
    ensures a == SchedulerSpec.Cancel(s, fd).active && b == SchedulerSpec.Cancel(s, fd).cancelled
  {
    CancelIsMoved(s, fd);
    var t := SchedulerSpec.Cancel(s, fd);
    assert a == (a + b)[..|a|] && t.active == (t.active + t.cancelled)[..|a|];
    assert b == (a + b)[|a|..] && t.cancelled == (t.active + t.cancelled)[|a|..];
  }

  lemma RemoveBefore(s: seq<Op>, split: nat, k: nat)
    requires k < split <= |s|
    ensures RemoveAt(s, k)[..split - 1] == RemoveAt(s[..split], k)
    ensures RemoveAt(s, k)[split - 1..] == s[split..]
  {
    var r := RemoveAt(s, k);
    assert forall i :: k <= i < |r| ==> r[i] == s[i + 1];
    assert |r[split - 1..]| == |s[split..]|;
    assert forall i :: 0 <= i < |s| - split ==> r[split - 1..][i] == s[split..][i];
  }

  /** What has been posted and what the rest of the loop will do, together. */
  ghost predicate Leads(goal: Step, posted: seq<Op>, rest: Step)
  {
    goal == Step(rest.sched, rest.pass, posted + rest.posted)
  }

  lemma TryItemEffects(s: Sched, p: Pass, outcome: Outcome)
    requires AtItem(s, p)
    ensures var t := TryItem(s, p, outcome);
            && t.pass.fd == p.fd && t.pass.readable == p.readable && t.pass.seen == p.seen + 1
            && (t.posted == [] ==> t.pass.finished == p.finished && t.pass.rereg == p.rereg + {s.active[p.next].Direction()})
            && (t.posted != [] ==> t.pass.finished == p.finished + 1 && t.pass.rereg == p.rereg)
  {
  }

  lemma RunItemsStep(s: Sched, p: Pass, io: Op -> Outcome, goal: Step, posted: seq<Op>)
    requires AtItem(s, p) && Leads(goal, posted, RunItems(s, p, io))
    ensures var t := TryItem(s, p, io(s.active[p.next]));
            && Leads(goal, posted + t.posted, RunItems(t.sched, t.pass, io))
            && t.pass.fd == p.fd && t.pass.readable == p.readable && t.pass.seen == p.seen + 1
            && (t.posted == [] ==> t.pass.finished == p.finished && t.pass.rereg == p.rereg + {s.active[p.next].Direction()})
            && (t.posted != [] ==> t.pass.finished == p.finished + 1 && t.pass.rereg == p.rereg)
  {
    hide TryItem;
    var t := TryItem(s, p, io(s.active[p.next]));
    TryItemEffects(s, p, io(s.active[p.next]));
    var rest := RunItems(t.sched, t.pass, io);
    assert posted + (t.posted + rest.posted) == (posted + t.posted) + rest.posted;
  }

  lemma RunItemsBegins(s: Sched, p: Pass, io: Op -> Outcome)
    ensures Leads(RunItems(s, p, io), [], RunItems(s, p, io))
  {
    assert [] + RunItems(s, p, io).posted == RunItems(s, p, io).posted;
  }

  lemma RunItemsEnds(s: Sched, p: Pass, io: Op -> Outcome, goal: Step, posted: seq<Op>)
    requires !AtItem(s, p) && Leads(goal, posted, RunItems(s, p, io))
    ensures goal == Step(s, p, posted)
  {
    assert posted + [] == posted;
  }

  ghost predicate LeadsOn(goal: (Sched, seq<Op>), posted: seq<Op>, rest: (Sched, seq<Op>))
  {
    goal == (rest.0, posted + rest.1)
  }

  lemma RunEventsStep(s: Sched, events: seq<Event>, io: (nat, Op) -> Outcome, i: nat, goal: (Sched, seq<Op>), posted: seq<Op>)
    requires i < |events| && LeadsOn(goal, posted, RunEvents(s, events, io, i))
    ensures var (s1, more) := RunEvent(s, events[i], o => io(i, o));
            LeadsOn(goal, posted + more, RunEvents(s1, events, io, i + 1))
  {
    var (s1, more) := RunEvent(s, events[i], o => io(i, o));
    var rest := RunEvents(s1, events, io, i + 1).1;
    assert (posted + more) + rest == posted + (more + rest);
  }

  ghost function AfterPosting(posted: seq<Op>, rest: Polled): Polled
  {
    Polled(rest.sched, posted + rest.posted, rest.thrown)
  }

  lemma RunRoundsStep(s: Sched, rounds: seq<Round>, block: bool, i: nat, posted: seq<Op>)
    requires Enough(rounds, block, i) && rounds[i].Events?
    ensures var (s1, more) := RunEvents(s, rounds[i].events, rounds[i].io, 0);
            var all := AfterPosting(posted, RunRounds(s, rounds, block, i));
            if Again(rounds[i], block) then all == AfterPosting(posted + more, RunRounds(s1, rounds, block, i + 1))
            else all == Polled(s1, posted + more, false)
  {
    var (s1, more) := RunEvents(s, rounds[i].events, rounds[i].io, 0);
    if Again(rounds[i], block) {
      var rest := RunRounds(s1, rounds, block, i + 1).posted;
      assert (posted + more) + rest == posted + (more + rest);
    }
  }

  lemma RunRoundsFails(s: Sched, rounds: seq<Round>, block: bool, i: nat, posted: seq<Op>)
    requires Enough(rounds, block, i) && rounds[i].Failure?
    ensures AfterPosting(posted, RunRounds(s, rounds, block, i)) == Polled(s, posted, true)
  {
    assert posted + [] == posted;
  }

  /** What an event's pass comes to, ahead of the re-registration. */
  lemma PassOutcome(s: Sched, e: Event, io: Op -> Outcome)
    requires Partition(s) && EpollAgrees(s) && e.Ready?
    ensures var r := RunItems(s, BeginEvent(s, e.fd, e.readable), io);
            && r.pass.fd == e.fd && r.pass.finished == |r.posted|
            && |r.sched.active| + |r.posted| == |s.active| && r.sched.cancelled == s.cancelled
            && r.sched.epoll == s.epoll
            && (r.pass.seen != r.pass.finished ==> e.fd in s.epoll)
            && Sorted(s.active)
    ensures Partition(RunEvent(s, e, io).0) && EpollAgrees(RunEvent(s, e, io).0)
  {
    var p := BeginEvent(s, e.fd, e.readable);
    BeginMidPass(s, e.fd, e.readable);
    RunItemsKeeps(s, p, io);
    RunItemsResults(s, p, io);
    RunItemsFd(s, p, io);
    var r := RunItems(s, p, io);
    EndEventAgrees(r.sched, r.pass);
    EventKeeps(s, e, io);
  }

  /** The first operation behind the boundary goes from the list to `posted`. */
  lemma DropOne(s: seq<ListItem<Op>>, k: nat, posted: seq<ListItem<Op>>)
    requires k < |s|
    ensures Values(RemoveAt(s, k))[..k] == Values(s)[..k]
    ensures Values(posted + [s[k]]) + Values(RemoveAt(s, k))[k..] == Values(posted) + Values(s)[k..]
  {
  }

  /** The two regions after an insertion into the first. */
  lemma InsertBefore(s: seq<Op>, split: nat, k: nat, x: Op)
    requires k <= split <= |s|
    ensures InsertAt(s, k, x)[..split + 1] == InsertAt(s[..split], k, x)
    ensures InsertAt(s, k, x)[split + 1..] == s[split..]
  {
  }

  class IoScheduler {
    const operations: IntrusiveList<Op>
    var beginCancelled: ListItem<Op>
    ghost var split: nat
    var pollQueueLength: nat
    var epoll: map<int, set<Dir>>
    var results: map<Op, IoResult>
    var flags: set<Op>

    /** What holds at every point of every method: the ring is sound, and
        begin_cancelled_ designates the boundary. */
    ghost predicate Linked()
      reads this, operations, operations.Nodes()
    {
      && operations.Valid()
      && split <= |operations.items|
      && beginCancelled == operations.At(operations.items, split)
    }

    /** What holds whenever the lock is free. */
    ghost predicate Valid()
      reads this, operations, operations.Nodes()
    {
      Linked() && pollQueueLength == |operations.items|
    }

    /** The invariant of the scheduler between calls. */
    ghost predicate Sound()
      reads this, operations, operations.Nodes()
    {
      Valid() && Partition(View()) && EpollAgrees(View())
    }

    lemma SoundView()
      requires Sound()
      ensures split <= |operations.items| && (pollQueueLength == 0 <==> operations.items == [])
    {
    }

    twostate lemma Framed()
      requires old(Sound()) && unchanged(this) && operations.items == old(operations.items)
      requires forall n :: n in old(operations.Nodes()) ==> n.prev == old(n.prev) && n.next == old(n.next)
      ensures Sound() && View() == old(View()) && operations.Nodes() == old(operations.Nodes())
    {
      operations.Framed();
    }

    /** The state as a value. */
    ghost function View(): Sched
      reads this, operations
      requires split <= |operations.items|
    {
      var all := Values(operations.items);
      Sched(all[..split], all[split..], epoll, results, flags)
    }

    lemma ViewParts()
      requires split <= |operations.items|
      ensures View().active + View().cancelled == Values(operations.items)
      ensures |View().active| == split
    {
    }

    constructor ()
      ensures Valid() && fresh(operations) && fresh(operations.Nodes())
      ensures View() == EMPTY
    {
      var list := new IntrusiveList<Op>();
      operations, beginCancelled := list, list.sentinel;
      split, pollQueueLength, epoll, results, flags := 0, 0, map[], map[], {};
    }

    method Empty() returns (r: bool)
      requires Valid()
      ensures r <==> View().active == [] && View().cancelled == []
    {
      r := pollQueueLength == 0;
    }

    /** std::distance from the first operation to begin_cancelled_. */
    method ActiveLength() returns (n: nat)
      requires Linked()
      ensures n == split
    {
      n := 0;
      var it := operations.Begin();
      while it != beginCancelled
        invariant n <= split && it == operations.At(operations.items, n)
        decreases split - n
      {
        it := operations.Next(it, n);
        n := n + 1;
      }
    }

    /** std::advance. */
    method StepForward(from: ListItem<Op>, steps: nat, ghost k: nat) returns (r: ListItem<Op>)
      requires Linked() && k + steps <= |operations.items|
      requires from == operations.At(operations.items, k)
      ensures r == operations.At(operations.items, k + steps)
    {
      r := from;
      var n := 0;
      while n < steps
        invariant n <= steps && r == operations.At(operations.items, k + n)
      {
        r := operations.Next(r, k + n);
        n := n + 1;
      }
    }

    /** std::lower_bound over the active prefix. */
    method FindLower(fd: int) returns (r: ListItem<Op>, ghost k: nat)
      requires Linked() && Sorted(View().active)
      ensures k == LowerBound(View().active, fd)
      ensures r == operations.At(operations.items, LowerBound(View().active, fd))
    {
      ghost var active := View().active;
      ghost var bound := LowerBound(active, fd);
      var count := ActiveLength();
      r := operations.Begin();
      k := 0;
      while count > 0
        invariant k + count <= split && r == operations.At(operations.items, k)
        invariant k <= bound <= k + count
        decreases count
      {
        var step := count / 2;
        var it := StepForward(r, step, k);
        assert it.value == active[k + step];
        assert it.value.Fd() < fd <==> k + step < bound by { LowerCompare(active, fd, k + step); }
        if it.value.Fd() < fd {
          r := operations.Next(it, k + step);
          k := k + step + 1;
          count := count - (step + 1);
        } else {
          count := step;
        }
      }
    }

    /** The branch of `schedule` that picks a starting position. */
    method StartingPosition(fd: int) returns (r: ListItem<Op>, ghost k: nat)
      requires Valid() && Sorted(View().active)
      ensures var s := View().active;
              var tail := s != [] && s[0].Fd() < fd && s[|s| - 1].Fd() <= fd;
              && k == (if tail then |s| else LowerBound(s, fd))
              && r == (if tail then beginCancelled else operations.At(operations.items, LowerBound(s, fd)))
              && (tail <==> TailBranch(s, fd))
    {
      ghost var active := View().active;
      var first := operations.Begin();
      var last := beginCancelled;
      var back := operations.Prev(last, split);
      r, k := last, split;
      if first != last && fd <= first.value.Fd() {
        r, k := first, 0;
        LowerUnique(active, fd, 0, 0);
      } else if first != last && fd >= back.value.Fd() {
        r := last;
      } else {
        r, k := FindLower(fd);
      }
    }

    /** The loop of `schedule` that skips operations of the same descriptor and
        collects what they wait for. */
    method FindInsertPos(op: Op) returns (r: ListItem<Op>, events: set<Dir>, ghost k: nat)
      requires Valid() && Sorted(View().active)
      ensures k == UpperBound(View().active, op.Fd())
      ensures r == operations.At(operations.items, UpperBound(View().active, op.Fd()))
      ensures events == ScheduleMask(View().active, op)
      ensures var s, fd := View().active, op.Fd();
              events == if s == [] || fd <= s[0].Fd() || fd < s[|s| - 1].Fd() then Interest(s, fd) + {op.Direction()}
                        else {op.Direction()}
    {
      hide Collected, ScheduleMask, Interest, TailBranch, Sorted;
      ghost var active := View().active;
      var fd := op.Fd();
      r, k := StartingPosition(fd);
      events := {op.Direction()};
      ghost var from := k;
      StartsBelowUpper(active, fd);
      CollectedNone(active, from, fd);
      while r != beginCancelled && r.value.Fd() == fd
        invariant from <= k <= split && r == operations.At(operations.items, k)
        invariant k <= UpperBound(active, fd)
        invariant events == {op.Direction()} + Collected(active, from, k, fd)
        decreases split - k
      {
        assert r.value == active[k];
        CollectedGrows(active, from, k, fd);
        StaysBelowUpper(active, fd, k);
        events := events + {r.value.Direction()};
        r := operations.Next(r, k);
        k := k + 1;
      }
      assert k < split ==> r.value == active[k];
      SkippedToUpper(active, op, from, k);
      MaskIs(active, op);
    }

    method Schedule(op: ListItem<Op>)
      requires Valid() && Sorted(View().active)
      requires op !in operations.Nodes()
      modifies this, operations, operations.Nodes(), op
      ensures Valid()
      ensures View() == SchedulerSpec.Schedule(old(View()), op.value)
      ensures |operations.items| == old(|operations.items|) + 1
      ensures operations.Nodes() == old(operations.Nodes()) + {op}
    {
      hide IntrusiveList.Valid, ScheduleMask, Sorted;
      var pos, events, k := FindInsertPos(op.value);
      epoll := epoll[op.value.Fd() := events];
      Link(op, pos, k);
    }

    /** The insertion, and the counter. */
    method Link(op: ListItem<Op>, pos: ListItem<Op>, ghost k: nat)
      requires Valid() && k <= split && pos == operations.At(operations.items, k)
      requires op !in operations.Nodes()
      modifies this`split, this`pollQueueLength, operations, operations.Nodes(), op
      ensures Valid() && View() == old(View()).(active := InsertAt(old(View()).active, k, op.value))
      ensures |operations.items| == old(|operations.items|) + 1
      ensures operations.Nodes() == old(operations.Nodes()) + {op}
    {
      hide IntrusiveList.Valid;
      ghost var s, items := View(), operations.items;
      var _ := operations.Insert(op, pos, k);
      split, pollQueueLength := split + 1, pollQueueLength + 1;
      assert beginCancelled == operations.At(operations.items, split);
      assert View().active == InsertAt(s.active, k, op.value) && View().cancelled == s.cancelled by {
        ValuesInsert(items, k, op);
        InsertBefore(Values(items), split - 1, k, op.value);
      }
    }

    /** std::find_if from `first` for the first operation on another fd. */
    method FindOther(from: ListItem<Op>, fd: int, ghost lo: nat) returns (r: ListItem<Op>, ghost hi: nat)
      requires Valid() && Sorted(View().active)
      requires lo == LowerBound(View().active, fd) && from == operations.At(operations.items, lo)
      ensures CancelRange(View(), fd) == (lo, hi)
      ensures r == operations.At(operations.items, CancelRange(View(), fd).1)
    {
      ghost var active := View().active;
      r, hi := from, lo;
      while r != beginCancelled && r.value.Fd() == fd
        invariant lo <= hi <= split && r == operations.At(operations.items, hi)
        invariant forall i :: lo <= i < hi ==> active[i].Fd() == fd
        decreases split - hi
      {
        assert r.value == active[hi];
        r := operations.Next(r, hi);
        hi := hi + 1;
      }
      assert hi < split ==> r.value == active[hi];
      RunEnds(active, fd, lo, hi);
    }

    /** std::for_each over [first, last): cancel each operation, that is, fill
        its slot with operation_canceled and raise its flag. */
    method MarkCancelled(first: ListItem<Op>, last: ListItem<Op>, ghost lo: nat, ghost hi: nat)
      requires Valid() && lo <= hi <= split
      requires first == operations.At(operations.items, lo) && last == operations.At(operations.items, hi)
      modifies this`results, this`flags
      ensures Valid()
      ensures results == SlotsAfter(old(results), View().active, lo, hi)
      ensures flags == FlagsAfter(old(flags), View().active, lo, hi)
    {
      hide SlotsAfter, FlagsAfter;
      ghost var active := View().active;
      var it := first;
      ghost var k := lo;
      MarkNone(results, flags, active, lo);
      while it != last
        invariant Valid() && lo <= k <= hi && it == operations.At(operations.items, k)
        invariant results == SlotsAfter(old(results), active, lo, k) && flags == FlagsAfter(old(flags), active, lo, k)
        decreases hi - k
      {
        operations.SamePosition(k, hi);
        MarkOne(old(results), old(flags), active, lo, k);
        assert it.value == active[k];
        results := results[it.value := OPERATION_CANCELED];
        flags := flags + {it.value};
        it := operations.Next(it, k);
        k := k + 1;
      }
      operations.SamePosition(k, hi);
    }

    /** `cancel`, on every call it returns from: see SchedulerLaws.CancelHangsIff. */
    method Cancel(fd: int)
      requires Valid() && Sorted(View().active)
      requires !CancelHangs(View(), fd)
      modifies this, operations, operations.Nodes()
      ensures Valid()
      ensures View() == SchedulerSpec.Cancel(old(View()), fd)
      ensures |operations.items| == old(|operations.items|)
      ensures operations.Nodes() == old(operations.Nodes())
    {
      var firstPos, lo := FindLower(fd);
      var lastPos, hi := FindOther(firstPos, fd, lo);
      operations.SamePosition(lo, hi);
      if firstPos != lastPos {
        CancelFound(fd, firstPos, lastPos, lo, hi);
      }
    }

    method CancelFound(fd: int, firstPos: ListItem<Op>, lastPos: ListItem<Op>, ghost lo: nat, ghost hi: nat)
      requires Valid() && lo < hi <= split && CancelRange(View(), fd) == (lo, hi)
      requires firstPos == operations.At(operations.items, lo) && lastPos == operations.At(operations.items, hi)
      requires !CancelHangs(View(), fd)
      modifies this, operations, operations.Nodes()
      ensures Valid()
      ensures View() == SchedulerSpec.Cancel(old(View()), fd)
      ensures |operations.items| == old(|operations.items|)
      ensures operations.Nodes() == old(operations.Nodes())
    {
      hide IntrusiveList.Valid, LowerFrom, UpperFrom, Moved;
      ghost var s := View();
      ViewParts();
      MarkCancelled(firstPos, lastPos, lo, hi);
      SpliceRange(firstPos, lastPos, lo, hi);
      epoll := epoll - {fd};
      ViewParts();
      CancelSplit(s, View().active, View().cancelled, fd);
    }

    /** The splice of `cancel`, and where it leaves the boundary. */
    method SpliceRange(firstPos: ListItem<Op>, lastPos: ListItem<Op>, ghost lo: nat, ghost hi: nat)
      requires Valid() && lo < hi <= split
      requires firstPos == operations.At(operations.items, lo) && lastPos == operations.At(operations.items, hi)
      requires (lo == 0 && hi == |operations.items|) || !(split == hi && lo + 2 <= hi)
      modifies this`beginCancelled, this`split, operations, operations.Nodes()
      ensures Valid()
      ensures split == old(split) - (hi - lo)
      ensures Values(operations.items) == Moved(Values(old(operations.items)), Cursor(lo, hi, old(split)))
      ensures operations.Nodes() == old(operations.Nodes())
    {
      hide IntrusiveList.Valid, Moved;
      ghost var items := operations.items;
      ghost var c := Cursor(lo, hi, split);
      beginCancelled := operations.SpliceWithin(beginCancelled, firstPos, lastPos, c);
      MovedBoundary(items, c);
      ValuesMoved(items, c);
      split := split - (hi - lo);
      assert operations.items[split] == firstPos;
    }

    /** `process_cancellations` from begin_cancelled_ to the end of the list;
        the operations taken are posted in the order returned. */
    method ProcessCancellations() returns (posted: seq<ListItem<Op>>)
      requires Linked()
      modifies this`beginCancelled, operations, operations.Nodes()
      ensures Linked() && split == |operations.items|
      ensures View() == DropCancelled(old(View()))
      ensures Values(posted) == old(View()).cancelled
      ensures Detached(posted, old(operations.Nodes()), operations.Nodes())
      ensures operations.Nodes() <= old(operations.Nodes())
      ensures |operations.items| == old(|operations.items|) - |posted|
    {
      ghost var s := View();
      posted := [];
      DetachedNone(operations.Nodes());
      hide Detached;
      var next := beginCancelled;
      assert s.cancelled == Values(posted) + s.cancelled;
      while next != operations.sentinel
        invariant operations.Valid() && split <= |operations.items| && next == operations.At(operations.items, split)
        invariant View().active == s.active && s.cancelled == Values(posted) + View().cancelled
        invariant Detached(posted, old(operations.Nodes()), operations.Nodes())
        invariant operations.Nodes() <= old(operations.Nodes())
        invariant |operations.items| == old(|operations.items|) - |posted|
        decreases |operations.items|
      {
        var item := next;
        ghost var items := operations.items;
        ghost var nodes := operations.Nodes();
        next := operations.Erase(next, split);
        DropOne(items, split, posted);
        DetachedOne(item, nodes);
        DetachedMore(posted, [item], old(operations.Nodes()), nodes, operations.Nodes());
        posted := posted + [item];
      }
      operations.SamePosition(split, |operations.items|);
      beginCancelled := next;
    }

    /** One turn of the loop over the operations of an event. */
    method TryOne(item: ListItem<Op>, readable: bool, outcome: Outcome, ghost p: Pass)
      returns (next: ListItem<Op>, done: bool)
      requires Linked() && p.next < split && item == operations.At(operations.items, p.next)
      requires AtItem(View(), p) && p.readable == readable
      modifies this`results, this`split, operations, operations.Nodes()
      ensures Linked() && operations.Nodes() == old(operations.Nodes()) - (if done then {item} else {})
      ensures item in old(operations.Nodes())
      ensures var t := TryItem(old(View()), p, outcome);
              && View() == t.sched && t.posted == (if done then [item.value] else [])
              && t.pass.next <= split && next == operations.At(operations.items, t.pass.next)
              && split - t.pass.next < old(split) - p.next
    {
      hide IntrusiveList.Valid;
      ghost var s, items := View(), operations.items;
      assert item.value == s.active[p.next];
      next := operations.Next(item, p.next);
      done := false;
      if item.value in flags || readable != (item.value.Direction() == In) || outcome.WouldBlock? {
        return;
      }
      results := results[item.value := outcome.result];
      next := operations.Erase(item, p.next);
      done := true;
      ValuesRemove(items, p.next);
      RemoveBefore(Values(items), split, p.next);
      split := split - 1;
    }

    /** The loop over the operations of one event. */
    method RunPass(fd: int, readable: bool, io: Op -> Outcome)
      returns (seen: nat, finished: nat, rereg: set<Dir>, posted: seq<ListItem<Op>>)
      requires Linked() && Sorted(View().active)
      modifies this`results, this`split, operations, operations.Nodes()
      ensures Linked() && Detached(posted, old(operations.Nodes()), operations.Nodes())
      ensures operations.Nodes() <= old(operations.Nodes())
      ensures var r := RunItems(old(View()), BeginEvent(old(View()), fd, readable), io);
              && View() == r.sched && Values(posted) == r.posted
              && seen == r.pass.seen && finished == r.pass.finished && rereg == r.pass.rereg
    {
      hide IntrusiveList.Valid, TryItem, Detached, RunItems, Leads;
      ghost var goal := RunItems(View(), BeginEvent(View(), fd, readable), io);
      ghost var k;
      var next;
      next, k := FindLower(fd);
      seen, finished, rereg, posted := 0, 0, {}, [];
      DetachedNone(operations.Nodes());
      ghost var p := Pass(fd, readable, k, 0, 0, {});
      RunItemsBegins(View(), p, io);
      while next != beginCancelled && next.value.Fd() == fd
        invariant Linked() && Detached(posted, old(operations.Nodes()), operations.Nodes())
        invariant operations.Nodes() <= old(operations.Nodes())
        invariant p.next <= split && next == operations.At(operations.items, p.next)
        invariant p == Pass(fd, readable, p.next, seen, finished, rereg)
        invariant Leads(goal, Values(posted), RunItems(View(), p, io))
        decreases split - p.next
      {
        var item := next;
        operations.SamePosition(p.next, split);
        ghost var t := TryItem(View(), p, io(item.value));
        ghost var was := Values(posted);
        RunItemsStep(View(), p, io, goal, was);
        ghost var nodes := operations.Nodes();
        var done;
        next, done := TryOne(item, readable, io(item.value), p);
        seen := seen + 1;
        if done {
          assert operations.Nodes() == nodes - {item};
          DetachedOne(item, nodes);
          DetachedMore(posted, [item], old(operations.Nodes()), nodes, operations.Nodes());
          finished, posted := finished + 1, posted + [item];
        } else {
          assert operations.Nodes() == nodes;
          rereg := rereg + {item.value.Direction()};
        }
        assert Values(posted) == was + t.posted;
        p := t.pass;
      }
      operations.SamePosition(p.next, split);
      RunItemsEnds(View(), p, io, goal, Values(posted));
    }

    /** One event: the wake event is only reset; for a descriptor, the loop
        over its operations and then the re-registration, which the source
        expects never to fail. */
    method ProcessEvent(e: Event, io: Op -> Outcome) returns (finished: nat, posted: seq<ListItem<Op>>)
      requires Linked() && Partition(View()) && EpollAgrees(View())
      modifies this`results, this`split, this`epoll, operations, operations.Nodes()
      ensures Linked() && Detached(posted, old(operations.Nodes()), operations.Nodes())
      ensures operations.Nodes() <= old(operations.Nodes())
      ensures Partition(View()) && EpollAgrees(View())
      ensures (View(), Values(posted)) == RunEvent(old(View()), e, io)
      ensures finished == |posted| == old(|operations.items|) - |operations.items|
    {
      hide IntrusiveList.Valid, Partition, EpollAgrees, RunItems, MidPass, AtItem, Detached;
      DetachedNone(operations.Nodes());
      if e.Wake? { return 0, []; }
      ghost var s := View();
      ghost var p := BeginEvent(s, e.fd, e.readable);
      ghost var r := RunItems(s, p, io);
      PassOutcome(s, e, io);
      var seen, rereg;
      seen, finished, rereg, posted := RunPass(e.fd, e.readable, io);
      if seen == finished {
        epoll := epoll - {e.fd};
      } else {
        assert e.fd in epoll;
        epoll := epoll[e.fd := rereg];
      }
    }

    /** `process_notifications`. */
    method ProcessNotifications(events: seq<Event>, io: (nat, Op) -> Outcome)
      returns (total: nat, posted: seq<ListItem<Op>>)
      requires Linked() && Partition(View()) && EpollAgrees(View())
      modifies this`results, this`split, this`epoll, operations, operations.Nodes()
      ensures Linked() && Detached(posted, old(operations.Nodes()), operations.Nodes())
      ensures operations.Nodes() <= old(operations.Nodes())
      ensures Partition(View()) && EpollAgrees(View())
      ensures (View(), Values(posted)) == RunEvents(old(View()), events, io, 0)
      ensures total == |posted| == old(|operations.items|) - |operations.items|
    {
      hide IntrusiveList.Valid, Partition, EpollAgrees, RunEvent, Detached;
      DetachedNone(operations.Nodes());
      ghost var goal := RunEvents(View(), events, io, 0);
      total, posted := 0, [];
      assert [] + goal.1 == goal.1;
      var i := 0;
      while i < |events|
        invariant i <= |events| && Linked() && Detached(posted, old(operations.Nodes()), operations.Nodes())
        invariant operations.Nodes() <= old(operations.Nodes())
        invariant Partition(View()) && EpollAgrees(View())
        invariant LeadsOn(goal, Values(posted), RunEvents(View(), events, io, i))
        invariant total == |posted| == old(|operations.items|) - |operations.items|
      {
        ghost var was := Values(posted);
        RunEventsStep(View(), events, io, i, goal, was);
        ghost var nodes := operations.Nodes();
        var finished, more := ProcessEvent(events[i], o => io(i, o));
        DetachedMore(posted, more, old(operations.Nodes()), nodes, operations.Nodes());
        ValuesConcat(posted, more);
        total, posted := total + finished, posted + more;
        i := i + 1;
      }
      assert Values(posted) + [] == Values(posted);
    }

    /** `poll_once`.  Returns the number of notified operations, whether the
        system's poll failed (and the call threw), how the poll was entered,
        and the operations posted, in order. */
    method PollOnce(block: bool, rounds: seq<Round>)
      returns (num: nat, thrown: bool, entry: Entry, posted: seq<ListItem<Op>>)
      requires Sound()
      requires View().active != [] ==> Enough(rounds, block, 0)
      modifies this, operations, operations.Nodes()
      ensures Sound()
      ensures Polled(View(), Values(posted), thrown) == Poll(old(View()), block, rounds)
      ensures PollTold(old(View()), block, rounds, Values(posted), View(), thrown)
      ensures entry == NotEntered <==> old(View()).active == []
      ensures entry == Blocking <==> block && old(View()).cancelled == [] && old(View()).active != []
      ensures num == |posted| - |old(View()).cancelled|
      ensures |operations.items| == old(|operations.items|) - |posted|
      ensures Detached(posted, old(operations.Nodes()), operations.Nodes())
      ensures operations.Nodes() <= old(operations.Nodes())
    {
      hide IntrusiveList.Valid, Partition, EpollAgrees, RunRounds, Detached, PollTold;
      ghost var s := View();
      PollIsTold(s, block, rounds);
      posted := ProcessCancellations();
      CancellationsKeep(s);
      assert pollQueueLength >= |posted|;
      pollQueueLength := pollQueueLength - |posted|;
      num, thrown, entry := 0, false, NotEntered;
      var first := operations.Begin();
      operations.SamePosition(0, split);
      if first == beginCancelled {
        assert pollQueueLength == 0;
        return;
      }
      entry := if block && |posted| == 0 then Blocking else Immediate;
      ghost var nodes := operations.Nodes();
      var more;
      num, thrown, more := PollRounds(block, rounds);
      ValuesConcat(posted, more);
      DetachedMore(posted, more, old(operations.Nodes()), nodes, operations.Nodes());
      posted := posted + more;
    }

    /** One turn of the loop below: the notifications, then decrement_count. */
    method NotifyAndCount(events: seq<Event>, io: (nat, Op) -> Outcome)
      returns (total: nat, posted: seq<ListItem<Op>>)
      requires Sound()
      modifies this, operations, operations.Nodes()
      ensures Sound() && split <= |operations.items|
      ensures Detached(posted, old(operations.Nodes()), operations.Nodes())
      ensures operations.Nodes() <= old(operations.Nodes())
      ensures (View(), Values(posted)) == RunEvents(old(View()), events, io, 0)
      ensures total == |posted| == old(|operations.items|) - |operations.items|
    {
      hide IntrusiveList.Valid, Partition, EpollAgrees, Detached, RunEvents;
      total, posted := ProcessNotifications(events, io);
      assert pollQueueLength >= total;
      pollQueueLength := pollQueueLength - total;
    }

    /** The do-while loop of `poll_once`. */
    method PollRounds(block: bool, rounds: seq<Round>)
      returns (num: nat, thrown: bool, posted: seq<ListItem<Op>>)
      requires Sound() && Enough(rounds, block, 0)
      modifies this, operations, operations.Nodes()
      ensures Sound() && split <= |operations.items|
      ensures Polled(View(), Values(posted), thrown) == RunRounds(old(View()), rounds, block, 0)
      ensures num == |posted| == old(|operations.items|) - |operations.items|
      ensures Detached(posted, old(operations.Nodes()), operations.Nodes())
      ensures operations.Nodes() <= old(operations.Nodes())
    {
      hide IntrusiveList.Valid, Valid, Sound, Detached, RunEvents, RunRounds;
      SoundView();
      DetachedNone(operations.Nodes());
      ghost var goal := RunRounds(View(), rounds, block, 0);
      num, thrown, posted := 0, false, [];
      assert [] + goal.posted == goal.posted;
      var i, again := 0, true;
      while again
        invariant Sound() && split <= |operations.items|
        invariant Detached(posted, old(operations.Nodes()), operations.Nodes())
        invariant operations.Nodes() <= old(operations.Nodes())
        invariant num == |posted| == old(|operations.items|) - |operations.items|
        invariant again ==> Enough(rounds, block, i) && !thrown
                            && goal == AfterPosting(Values(posted), RunRounds(View(), rounds, block, i))
        invariant !again ==> goal == Polled(View(), Values(posted), thrown)
        decreases again, |rounds| - i
      {
        match rounds[i]
        case Failure =>
          RunRoundsFails(View(), rounds, block, i, Values(posted));
          thrown, again := true, false;
        case Events(events, io) =>
          ghost var was := Values(posted);
          RunRoundsStep(View(), rounds, block, i, was);
          ghost var nodes := operations.Nodes();
          var total, more := NotifyAndCount(events, io);
          DetachedMore(posted, more, old(operations.Nodes()), nodes, operations.Nodes());
          ValuesConcat(posted, more);
          num, posted := num + total, posted + more;
          again := |events| == MAX_EVENTS_PER_POLL && !block;
          i := i + 1;
      }
    }

    /** The destructor: every operation left is discarded, once, front first. */
    method Destroy() returns (discarded: seq<ListItem<Op>>)
      requires Linked()
      modifies operations, operations.Nodes()
      ensures operations.Valid() && operations.items == [] && discarded == old(operations.items)
    {
      hide IntrusiveList.Valid;
      discarded := [];
      var empty := operations.Empty();
      while !empty
        invariant operations.Valid() && operations.Nodes() <= old(operations.Nodes())
        invariant empty == (operations.items == [])
        invariant discarded + operations.items == old(operations.items)
        decreases |operations.items|, !empty
      {
        var item := operations.Front();
        operations.PopFront();
        discarded := discarded + [item];
        empty := operations.Empty();
      }
    }
  }
}
