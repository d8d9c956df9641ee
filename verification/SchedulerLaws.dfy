/** What every scheduler operation keeps, and what the fast paths, the
    notification loop and cancel come to. */
module SchedulerLaws {
  import opened Sequences
  import opened Operations
  import opened SchedulerSpec
  import opened SpliceLoop

  lemma MembersInsert(s: seq<Op>, k: nat, x: Op)
    requires k <= |s|
    ensures forall y :: y in InsertAt(s, k, x) <==> y in s || y == x
  {
    MultisetInsert(s, k, x);
  }

  lemma MembersRemove(s: seq<Op>, k: nat)
    requires k < |s| && NoDup(s)
    ensures forall y :: y in RemoveAt(s, k) <==> y in s && y != s[k]
  {
    MultisetRemove(s, k);
    NoDupRemove(s, k);
  }

  lemma MembersCut(s: seq<Op>, i: nat, j: nat)
    requires i <= j <= |s| && NoDup(s)
    ensures forall y :: y in CutBlock(s, i, j) <==> y in s && y !in s[i..j]
    ensures NoDup(CutBlock(s, i, j)) && NoDup(s[i..j])
  {
    assert s == s[..i] + s[i..j] + s[j..];
  }

  lemma PartitionSorted(s: Sched)
    requires Partition(s)
    ensures Sorted(s.active)
  {
  }

  // ----- schedule

  /** Scheduling puts the operation at the upper bound of its descriptor, so
      the prefix stays sorted and operations of one descriptor stay in arrival
      order. */
  lemma ScheduleKeepsPartition(s: Sched, op: Op)
    requires Partition(s) && op.Io?
    requires op !in s.active && op !in s.cancelled && op !in s.flags && op !in s.results
    ensures Partition(Schedule(s, op))
  {
    BoundsOrdered(s.active, op.Fd());
    var u := UpperBound(s.active, op.Fd());
    NoDupInsert(s.active, u, op);
    MembersInsert(s.active, u, op);
    SortedInsert(s.active, op);
  }

  lemma SortedInsert(s: seq<Op>, op: Op)
    requires Sorted(s)
    ensures Sorted(InsertAt(s, UpperBound(s, op.Fd()), op))
  {
    BoundsOrdered(s, op.Fd());
  }

  lemma InterestInsert(s: seq<Op>, k: nat, op: Op, fd: int)
    requires k <= |s|
    ensures Interest(InsertAt(s, k, op), fd) == Interest(s, fd) + if op.Fd() == fd then {op.Direction()} else {}
  {
    MembersInsert(s, k, op);
    forall d ensures d in Interest(InsertAt(s, k, op), fd) <==> d in Interest(s, fd) || (op.Fd() == fd && d == op.Direction()) {
    }
  }

  lemma ScheduleKeepsEpoll(s: Sched, op: Op)
    requires EpollAgrees(s)
    ensures EpollAgrees(Schedule(s, op))
  {
    var t := Schedule(s, op);
    forall fd ensures AgreesAt(t, fd) {
      InterestInsert(s.active, UpperBound(s.active, op.Fd()), op, fd);
      assert AgreesAt(s, fd);
    }
  }

  /** The registered interest is the full union unless the tail branch is taken
      while an operation of the same descriptor waits for the other direction;
      then that direction is dropped. */
  lemma ScheduleMaskExact(s: Sched, op: Op)
    ensures var t := Schedule(s, op);
            t.epoll[op.Fd()] == Interest(t.active, op.Fd())
            <==> !(TailBranch(s.active, op.Fd())
                   && exists o :: o in s.active && o.Fd() == op.Fd() && o.Direction() != op.Direction())
  {
    InterestInsert(s.active, UpperBound(s.active, op.Fd()), op, op.Fd());
    var fd, d := op.Fd(), op.Direction();
    assert forall o :: o in s.active && o.Fd() == fd ==> o.Direction() in Interest(s.active, fd);
  }

  /** What schedule registers, by where the descriptor stands among those
      waiting: everything waited for on it, unless it is above the first and not
      below the last; then the new direction alone. */
  lemma ScheduleRegisters(s: Sched, op: Op)
    requires Sorted(s.active)
    ensures var t, n := Schedule(s, op), |s.active|;
            if n == 0 || op.Fd() <= s.active[0].Fd() || op.Fd() < s.active[n - 1].Fd()
            then t.epoll[op.Fd()] == Interest(t.active, op.Fd())
            else t.epoll[op.Fd()] == {op.Direction()}
  {
    InterestInsert(s.active, UpperBound(s.active, op.Fd()), op, op.Fd());
  }

  ghost predicate SameElsewhere(m: map<int, set<Dir>>, m': map<int, set<Dir>>, fd: int)
  {
    forall k :: k != fd ==> (k in m <==> k in m') && (k in m ==> m'[k] == m[k])
  }

  /** Schedule puts the operation behind all of its own descriptor and below,
      ahead of all above, and touches nothing else but its registration. */
  lemma ScheduleExact(s: Sched, op: Op) returns (k: nat)
    requires Sorted(s.active)
    ensures k <= |s.active|
    ensures forall i :: 0 <= i < k ==> s.active[i].Fd() <= op.Fd()
    ensures forall i :: k <= i < |s.active| ==> s.active[i].Fd() > op.Fd()
    ensures var t := Schedule(s, op);
            && t.active == s.active[..k] + [op] + s.active[k..] && t.cancelled == s.cancelled
            && t.results == s.results && t.flags == s.flags && SameElsewhere(s.epoll, t.epoll, op.Fd())
  {
    k := UpperBound(s.active, op.Fd());
    BoundsOrdered(s.active, op.Fd());
  }

  // ----- cancel

  lemma MarkFacts(s: Sched, fd: int)
    ensures var t := MarkRange(s, fd);
            && (forall o :: o in t.results <==> o in s.results || o in Range(s, fd))
            && (forall o :: o in Range(s, fd) ==> t.results[o] == OPERATION_CANCELED)
            && (forall o :: o in s.results && o !in Range(s, fd) ==> t.results[o] == s.results[o])
            && (forall o :: o in t.flags <==> o in s.flags || o in Range(s, fd))
  {
  }

  lemma CancelKeepsPartition(s: Sched, fd: int)
    requires Partition(s)
    ensures Partition(Cancel(s, fd))
  {
    hide Cancel, Range, MarkRange, Sorted;
    CancelActive(s, fd);
    CancelMoves(s, fd);
    MarkFacts(s, fd);
    NoDupConcat(Range(s, fd), s.cancelled);
  }

  lemma CancelActive(s: Sched, fd: int)
    requires Sorted(s.active) && NoDup(s.active)
    ensures Sorted(Cancel(s, fd).active) && NoDup(Cancel(s, fd).active) && NoDup(Range(s, fd))
  {
    var (lo, hi) := CancelRange(s, fd);
    MembersCut(s.active, lo, hi);
    SortedCut(s.active, lo, hi);
    hide Sorted, NoDup;
  }

  lemma SortedCut(s: seq<Op>, i: nat, j: nat)
    requires i <= j <= |s| && Sorted(s)
    ensures Sorted(CutBlock(s, i, j))
  {
  }

  lemma NoDupConcat(s: seq<Op>, t: seq<Op>)
    requires NoDup(s) && NoDup(t)
    requires forall o :: o in s ==> o !in t
    ensures NoDup(s + t)
  {
    forall i, j | 0 <= i < j < |s + t| ensures (s + t)[i] != (s + t)[j] {
      if i < |s| <= j {
        assert s[i] in s && t[j - |s|] in t;
      }
    }
  }

  lemma CancelRangeExact(s: Sched, fd: int)
    requires Sorted(s.active)
    ensures CancelRange(s, fd) == (LowerBound(s.active, fd), UpperBound(s.active, fd))
    ensures forall o :: o in Range(s, fd) <==> o in s.active && o.Fd() == fd
  {
    BoundsOrdered(s.active, fd);
    var (lo, hi) := CancelRange(s, fd);
    assert hi == UpperBound(s.active, fd);
    forall o | o in s.active && o.Fd() == fd ensures o in Range(s, fd) {
      var k :| 0 <= k < |s.active| && s.active[k] == o;
      assert s.active[lo..hi][k - lo] == o;
    }
  }

  lemma CancelKeepsEpoll(s: Sched, fd: int)
    requires Partition(s) && EpollAgrees(s)
    ensures EpollAgrees(Cancel(s, fd))
  {
    var t := Cancel(s, fd);
    CancelMoves(s, fd);
    forall k ensures AgreesAt(t, k) {
      assert AgreesAt(s, k);
      if k == fd {
        assert Interest(t.active, k) == {};
        if Range(s, fd) == [] { assert Interest(s.active, k) == {}; }
      } else {
        assert Interest(t.active, k) == Interest(s.active, k);
      }
    }
  }

  /** Cancel removes exactly the operations of fd from the active prefix and
      puts them, in order, at the front of the cancelled suffix. */
  lemma CancelMoves(s: Sched, fd: int)
    requires Sorted(s.active) && NoDup(s.active)
    ensures var t := Cancel(s, fd);
            && (forall o :: o in t.active <==> o in s.active && o.Fd() != fd)
            && t.cancelled == Range(s, fd) + s.cancelled
            && (forall o :: o in Range(s, fd) <==> o in s.active && o.Fd() == fd)
            && |t.active| + |t.cancelled| == |s.active| + |s.cancelled|
            && t.results == MarkRange(s, fd).results && t.flags == MarkRange(s, fd).flags
  {
    CancelRangeExact(s, fd);
    var (lo, hi) := CancelRange(s, fd);
    MembersCut(s.active, lo, hi);
    if Range(s, fd) == [] {
      assert Range(s, fd) + s.cancelled == s.cancelled;
      assert MarkRange(s, fd).results == s.results && MarkRange(s, fd).flags == s.flags by { MarkFacts(s, fd); }
    }
  }

  /** Cancel cuts the prefix in three, the middle one the operations of the
      descriptor: those move in front of the suffix, marked, and the others, the
      other slots, flags and registrations stay as they are. */
  lemma CancelExact(s: Sched, fd: int) returns (a: seq<Op>, b: seq<Op>, c: seq<Op>)
    requires Sorted(s.active)
    ensures s.active == a + b + c
    ensures (forall o :: o in b ==> o.Fd() == fd) && (forall o :: o in a + c ==> o.Fd() != fd)
    ensures var t := Cancel(s, fd);
            && t.active == a + c && t.cancelled == b + s.cancelled
            && t.flags == s.flags + (set o | o in b)
            && (forall o :: o in t.results <==> o in s.results || o in b)
            && (forall o :: o in t.results ==> t.results[o] == if o in b then OPERATION_CANCELED else s.results[o])
            && SameElsewhere(s.epoll, t.epoll, fd) && (b != [] ==> fd !in t.epoll) && (b == [] ==> t == s)
  {
    hide Cancel, CancelRange, Range, Sorted;
    var (lo, hi) := CancelRange(s, fd);
    CutInThree(s, fd);
    CancelLists(s, fd);
    CancelTables(s, fd);
    a, b, c := s.active[..lo], Range(s, fd), s.active[hi..];
  }

  lemma CutInThree(s: Sched, fd: int)
    requires Sorted(s.active)
    ensures var (lo, hi) := CancelRange(s, fd);
            && lo <= hi <= |s.active| && s.active == s.active[..lo] + Range(s, fd) + s.active[hi..]
            && (forall o :: o in Range(s, fd) ==> o.Fd() == fd)
            && (forall o :: o in s.active[..lo] + s.active[hi..] ==> o.Fd() != fd)
  {
    hide Sorted, LowerBound, UpperBound;
    CancelRangeExact(s, fd);
    BoundsOrdered(s.active, fd);
    ThreeParts(s.active, LowerBound(s.active, fd), UpperBound(s.active, fd), fd);
  }

  lemma ThreeParts(s: seq<Op>, lo: nat, hi: nat, fd: int)
    requires lo <= hi <= |s| && forall k :: 0 <= k < |s| ==> (s[k].Fd() == fd <==> lo <= k < hi)
    ensures s == s[..lo] + s[lo..hi] + s[hi..]
    ensures forall o :: o in s[..lo] + s[hi..] ==> o.Fd() != fd
  {
  }

  lemma CancelLists(s: Sched, fd: int)
    requires Sorted(s.active)
    ensures var (lo, hi) := CancelRange(s, fd);
            && lo <= hi <= |s.active|
            && Cancel(s, fd).active == s.active[..lo] + s.active[hi..]
            && Cancel(s, fd).cancelled == Range(s, fd) + s.cancelled
    ensures SameElsewhere(s.epoll, Cancel(s, fd).epoll, fd)
    ensures if Range(s, fd) == [] then Cancel(s, fd) == s else fd !in Cancel(s, fd).epoll
  {
    hide Sorted, MarkRange, LowerBound;
    var (lo, hi) := CancelRange(s, fd);
    CutInThree(s, fd);
    if Range(s, fd) == [] {
      assert s.active[..lo] + s.active[hi..] == s.active;
      assert Range(s, fd) + s.cancelled == s.cancelled;
    }
  }

  lemma CancelTables(s: Sched, fd: int)
    ensures var t, b := Cancel(s, fd), Range(s, fd);
            && t.flags == s.flags + (set o | o in b)
            && (forall o :: o in t.results <==> o in s.results || o in b)
            && (forall o :: o in t.results ==> t.results[o] == if o in b then OPERATION_CANCELED else s.results[o])
  {
    hide Range, CancelRange;
    MarkFacts(s, fd);
    if Range(s, fd) == [] { assert s.flags + (set o | o in Range(s, fd)) == s.flags; }
  }

  /** Over the whole list, cancel is the splice of its range to the boundary. */
  lemma CancelIsMoved(s: Sched, fd: int)
    requires CancelRange(s, fd).0 != CancelRange(s, fd).1
    ensures var (lo, hi) := CancelRange(s, fd);
            && Cancel(s, fd).active + Cancel(s, fd).cancelled
               == Moved(s.active + s.cancelled, Cursor(lo, hi, |s.active|))
            && |Cancel(s, fd).active| == |s.active| - (hi - lo)
  {
    hide Moved, CutBlock, MarkRange;
    var (lo, hi) := CancelRange(s, fd);
    CutRejoined(s.active, s.cancelled, lo, hi);
  }

  lemma CutRejoined(a: seq<Op>, b: seq<Op>, i: nat, j: nat)
    requires i < j <= |a|
    ensures CutBlock(a, i, j) + (a[i..j] + b) == Moved(a + b, Cursor(i, j, |a|))
    ensures |CutBlock(a, i, j)| == |a| - (j - i)
  {
    var all := a + b;
    assert all[..i] == a[..i] && all[i..j] == a[i..j];
    assert all[j..|a|] == a[j..] && all[|a|..] == b;
  }

  /** That splice ends exactly when the call does not hang. */
  lemma CancelHangsIff(s: Sched, fd: int)
    requires CancelRange(s, fd).0 != CancelRange(s, fd).1
    ensures var (lo, hi) := CancelRange(s, fd);
            CancelHangs(s, fd)
            <==> !(lo == 0 && hi == |s.active + s.cancelled|) && !Ends(Cursor(lo, hi, |s.active|))
  {
    var (lo, hi) := CancelRange(s, fd);
    if !(lo == 0 && hi == |s.active + s.cancelled|) {
      EndsIff(s.active + s.cancelled, Cursor(lo, hi, |s.active|));
    }
  }

  /** Three schedules on an empty scheduler, two of them for the higher
      descriptor and in opposite directions: its reading side is no longer
      registered, and a cancel of it does not return. */
  lemma ThreeSchedules()
    ensures var s := Schedule(Schedule(Schedule(EMPTY, Io(1, 3, true)), Io(2, 5, true)), Io(3, 5, false));
            && s.active == [Io(1, 3, true), Io(2, 5, true), Io(3, 5, false)]
            && s.epoll[5] == {Out} && Interest(s.active, 5) == {In, Out}
            && CancelHangs(s, 5)
  {
    var one, two := Schedule(EMPTY, Io(1, 3, true)), Schedule(Schedule(EMPTY, Io(1, 3, true)), Io(2, 5, true));
    var s := Schedule(two, Io(3, 5, false));
    ScheduleLast(EMPTY, Io(1, 3, true));
    ScheduleLast(one, Io(2, 5, true));
    ScheduleLast(two, Io(3, 5, false));
    assert s.epoll[5] == {Out};
    hide Schedule;
    assert one.active == [Io(1, 3, true)];
    assert two.active == [Io(1, 3, true), Io(2, 5, true)];
    TwoOnTheLast(s);
  }

  lemma ScheduleLast(s: Sched, op: Op)
    requires forall k :: 0 <= k < |s.active| ==> s.active[k].Fd() <= op.Fd()
    ensures Schedule(s, op).active == s.active + [op]
  {
    assert UpperBound(s.active, op.Fd()) == |s.active|;
  }

  lemma TwoOnTheLast(s: Sched)
    requires s.active == [Io(1, 3, true), Io(2, 5, true), Io(3, 5, false)]
    ensures Interest(s.active, 5) == {In, Out} && CancelHangs(s, 5)
  {
    assert s.active[0].Fd() == 3 && s.active[1].Fd() == 5 && s.active[2].Fd() == 5;
    assert {s.active[1].Direction(), s.active[2].Direction()} <= Interest(s.active, 5);
    BoundsOrdered(s.active, 5);
    CancelRangeExact(s, 5);
  }

  lemma CancellationsKeep(s: Sched)
    requires Partition(s) && EpollAgrees(s)
    ensures Partition(DropCancelled(s)) && EpollAgrees(DropCancelled(s))
  {
    forall fd ensures AgreesAt(DropCancelled(s), fd) {
      assert AgreesAt(s, fd);
    }
  }

  // ----- process_notifications, one attempt at a time

  /** The loop over one event's operations, in mid-run: everything but the
      descriptor at hand agrees with epoll, and the cursor has left behind
      exactly the operations whose directions it has collected. */
  ghost predicate MidPass(s: Sched, p: Pass)
  {
    var lo := LowerBound(s.active, p.fd);
    && lo <= p.next <= |s.active|
    && (forall k :: lo <= k < p.next ==> s.active[k].Fd() == p.fd)
    && p.seen == p.finished + (p.next - lo)
    && p.rereg == Interest(s.active[..p.next], p.fd)
    && (Interest(s.active, p.fd) != {} ==> p.fd in s.epoll)
    && (forall fd :: fd != p.fd ==> AgreesAt(s, fd))
  }

  lemma BeginMidPass(s: Sched, fd: int, readable: bool)
    requires Sorted(s.active) && EpollAgrees(s)
    ensures MidPass(s, BeginEvent(s, fd, readable))
  {
    BoundsOrdered(s.active, fd);
    assert AgreesAt(s, fd);
    var lo := LowerBound(s.active, fd);
    assert forall o :: o in s.active[..lo] ==> o.Fd() != fd;
  }

  lemma TryItemKeepsPartition(s: Sched, p: Pass, outcome: Outcome)
    requires Partition(s) && AtItem(s, p)
    ensures Partition(TryItem(s, p, outcome).sched)
  {
    var k := p.next;
    NoDupRemove(s.active, k);
    MembersRemove(s.active, k);
    SortedRemove(s.active, k);
    assert s.active[k] in s.active;
  }

  lemma SortedRemove(s: seq<Op>, k: nat)
    requires k < |s| && Sorted(s)
    ensures Sorted(RemoveAt(s, k))
  {
  }

  lemma InterestRemove(s: seq<Op>, k: nat, fd: int)
    requires k < |s|
    ensures Interest(s, fd) == Interest(RemoveAt(s, k), fd) + if s[k].Fd() == fd then {s[k].Direction()} else {}
  {
    MultisetRemove(s, k);
    forall d ensures d in Interest(s, fd) <==> d in Interest(RemoveAt(s, k), fd) || (s[k].Fd() == fd && d == s[k].Direction()) {
    }
  }

  lemma LowerBoundRemove(s: seq<Op>, k: nat)
    requires Sorted(s) && k < |s|
    ensures LowerBound(RemoveAt(s, k), s[k].Fd()) == LowerBound(s, s[k].Fd())
  {
    var fd, r := s[k].Fd(), RemoveAt(s, k);
    var lo := LowerBound(s, fd);
    BoundsOrdered(s, fd);
    assert lo < |r| ==> r[lo] == if lo < k then s[lo] else s[lo + 1];
    LowerUnique(r, fd, 0, lo);
  }

  lemma {:induction false} LowerUnique(s: seq<Op>, fd: int, j: nat, i: nat)
    requires j <= i <= |s|
    requires forall k :: j <= k < i ==> s[k].Fd() < fd
    requires i < |s| ==> s[i].Fd() >= fd
    ensures LowerFrom(s, fd, j) == i
    decreases i - j
  {
    if j < i {
      LowerUnique(s, fd, j + 1, i);
    }
  }

  lemma TryItemKeepsMidPass(s: Sched, p: Pass, outcome: Outcome)
    requires Sorted(s.active) && MidPass(s, p) && AtItem(s, p)
    ensures MidPass(TryItem(s, p, outcome).sched, TryItem(s, p, outcome).pass)
  {
    hide MidPass, Sorted, RemoveAt;
    if !Tried(s, p) || outcome.WouldBlock? {
      SkipKeepsMidPass(s, p);
    } else {
      EraseKeepsMidPass(s, p, TryItem(s, p, outcome).sched);
    }
  }

  lemma SkipKeepsMidPass(s: Sched, p: Pass)
    requires MidPass(s, p) && AtItem(s, p)
    ensures MidPass(s, p.(next := p.next + 1, seen := p.seen + 1, rereg := p.rereg + {s.active[p.next].Direction()}))
  {
    var k, item := p.next, s.active[p.next];
    assert s.active[..k + 1] == InsertAt(s.active[..k], k, item);
    InterestInsert(s.active[..k], k, item, p.fd);
    hide Interest, LowerBound, InsertAt, AgreesAt;
  }

  lemma EraseKeepsMidPass(s: Sched, p: Pass, t: Sched)
    requires Sorted(s.active) && MidPass(s, p) && AtItem(s, p)
    requires t.active == RemoveAt(s.active, p.next) && t.epoll == s.epoll
    ensures MidPass(t, p.(seen := p.seen + 1, finished := p.finished + 1))
  {
    var k := p.next;
    LowerBoundRemove(s.active, k);
    InterestRemove(s.active, k, p.fd);
    assert t.active[..k] == s.active[..k];
    forall fd | fd != p.fd ensures AgreesAt(t, fd) {
      assert AgreesAt(s, fd);
      InterestRemove(s.active, k, fd);
    }
    hide Interest, LowerBound, AgreesAt, Sorted;
  }

  lemma NoneBehind(s: Sched, p: Pass)
    requires Sorted(s.active) && p.next <= |s.active| && !AtItem(s, p)
    requires p.next < |s.active| ==> s.active[p.next].Fd() >= p.fd
    ensures forall o :: o in s.active[p.next..] ==> o.Fd() != p.fd
  {
    forall o | o in s.active[p.next..] ensures o.Fd() != p.fd {
      var k :| p.next <= k < |s.active| && s.active[k] == o;
      assert s.active[p.next].Fd() <= s.active[k].Fd();
    }
  }

  lemma PassUnion(s: Sched, p: Pass)
    requires Sorted(s.active) && MidPass(s, p) && !AtItem(s, p)
    ensures Interest(s.active, p.fd) == p.rereg
  {
    BoundsOrdered(s.active, p.fd);
    NoneBehind(s, p);
    assert s.active == s.active[..p.next] + s.active[p.next..];
    assert forall o :: o in s.active <==> o in s.active[..p.next] || o in s.active[p.next..];
  }

  lemma PassEmpty(s: Sched, p: Pass)
    requires Sorted(s.active) && MidPass(s, p)
    ensures p.seen == p.finished <==> p.rereg == {}
  {
    var lo := LowerBound(s.active, p.fd);
    BoundsOrdered(s.active, p.fd);
    if lo < p.next {
      assert s.active[lo] in s.active[..p.next];
      assert s.active[lo].Direction() in p.rereg;
    } else {
      assert forall o :: o in s.active[..p.next] ==> o.Fd() != p.fd;
    }
  }

  /** When the loop has run out of operations for the event, the re-registered
      interest is the full union, so every descriptor agrees again; and the
      modification is only asked for a descriptor that is registered. */
  lemma EndEventAgrees(s: Sched, p: Pass)
    requires Sorted(s.active) && MidPass(s, p) && !AtItem(s, p)
    ensures EpollAgrees(EndEvent(s, p))
    ensures p.seen != p.finished ==> p.fd in s.epoll && EndEvent(s, p).epoll[p.fd] == Interest(s.active, p.fd)
    ensures p.seen == p.finished ==> p.fd !in EndEvent(s, p).epoll && Interest(s.active, p.fd) == {}
  {
    PassUnion(s, p);
    PassEmpty(s, p);
    var t := EndEvent(s, p);
    forall fd ensures AgreesAt(t, fd) {
      if fd != p.fd { assert AgreesAt(s, fd); }
    }
  }
}
