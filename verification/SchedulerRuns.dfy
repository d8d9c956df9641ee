/** Whole runs of scheduler calls: same-descriptor, same-direction operations
    complete in the order they were scheduled. */
module SchedulerRuns {
  import opened Sequences
  import opened Operations
  import opened SchedulerSpec
  import opened SchedulerLaws
  import opened NotificationOrder

  /** One call, with the answers its I/O attempts get. */
  datatype Call =
    | DoSchedule(op: Op)
    | DoCancel(fd: int)
    | DoCancellations  // process_cancellations, as poll_once begins
    | DoEvent(event: Event, io: Op -> Outcome)

  function Do(s: Sched, c: Call): (Sched, seq<Op>)
  {
    match c
    case DoSchedule(op) => (Schedule(s, op), [])
    case DoEvent(e, io) => RunEvent(s, e, io)
    case DoCancel(fd) => (Cancel(s, fd), [])
    case DoCancellations => (DropCancelled(s), [])
  }

  /** The final state and the operations completed by notifications. */
  function Run(s: Sched, calls: seq<Call>): (Sched, seq<Op>)
    decreases |calls|
  {
    if calls == [] then (s, []) else
      var (s1, done) := Do(s, calls[0]);
      var (s2, more) := Run(s1, calls[1..]);
      (s2, done + more)
  }

  function Scheduled(calls: seq<Call>): seq<Op>
  {
    if calls == [] then [] else
      (if calls[0].DoSchedule? then [calls[0].op] else []) + Scheduled(calls[1..])
  }

  /** Only new I/O operations are scheduled, no cancel is one that hangs. */
  ghost predicate Legal(s: Sched, c: Call)
  {
    match c
    case DoSchedule(op) => op.Io? && Unknown(s, op)
    case DoEvent(_, _) => true
    case DoCancellations => true
    case DoCancel(fd) => !CancelHangs(s, fd)
  }

  ghost predicate LegalRun(s: Sched, calls: seq<Call>)
    decreases |calls|
  {
    calls != [] ==> Legal(s, calls[0]) && LegalRun(Do(s, calls[0]).0, calls[1..])
  }

  /** fd is never cancelled, and a would-block lasts to the end of its event. */
  ghost predicate Orderly(s: Sched, calls: seq<Call>, fd: int)
    decreases |calls|
  {
    calls != [] ==>
      && (calls[0].DoCancel? ==> calls[0].fd != fd)
      && (calls[0].DoEvent? ==> BlockingLasts(s.active, calls[0].io))
      && Orderly(Do(s, calls[0]).0, calls[1..], fd)
  }

  lemma DoKeeps(s: Sched, c: Call)
    requires Partition(s) && EpollAgrees(s) && Legal(s, c)
    ensures Partition(Do(s, c).0) && EpollAgrees(Do(s, c).0)
  {
    match c
    case DoSchedule(op) => ScheduleKeepsPartition(s, op); ScheduleKeepsEpoll(s, op);
    case DoEvent(e, io) => EventKeeps(s, e, io);
    case DoCancel(fd) => CancelKeepsPartition(s, fd); CancelKeepsEpoll(s, fd);
    case DoCancellations => CancellationsKeep(s);
  }

  /** From the empty scheduler on, every run keeps the two regions of the list
      and the epoll registrations in agreement. */
  lemma {:induction false} RunKeeps(s: Sched, calls: seq<Call>)
    requires Partition(s) && EpollAgrees(s) && LegalRun(s, calls)
    ensures Partition(Run(s, calls).0) && EpollAgrees(Run(s, calls).0)
    decreases |calls|
  {
    if calls != [] {
      var t := Do(s, calls[0]).0;
      assert Partition(t) && EpollAgrees(t) by { DoKeeps(s, calls[0]); }
      RunKeeps(t, calls[1..]);
      assert Run(s, calls).0 == Run(t, calls[1..]).0;
    }
  }

  lemma {:induction false} OthersWait(s: seq<Op>, k: int, readable: bool, io: Op -> Outcome, fd: int, d: Dir)
    requires k != fd || readable != (d == In)
    ensures Waiting(Remaining(s, k, readable, io), fd, d) == Waiting(s, fd, d)
    ensures Waiting(Completed(s, k, readable, io), fd, d) == []
  {
    if s != [] {
      OthersWait(s[1..], k, readable, io, fd, d);
      if Completes(s[0], k, readable, io) {
        assert Remaining(s, k, readable, io) == Remaining(s[1..], k, readable, io);
        assert Completed(s, k, readable, io) == [s[0]] + Completed(s[1..], k, readable, io);
        WaitingCons(s[0], Completed(s[1..], k, readable, io), fd, d);
      } else {
        assert Remaining(s, k, readable, io) == [s[0]] + Remaining(s[1..], k, readable, io);
        assert Completed(s, k, readable, io) == Completed(s[1..], k, readable, io);
        WaitingCons(s[0], Remaining(s[1..], k, readable, io), fd, d);
      }
    }
  }

  lemma {:induction false} CompletedAllWaiting(s: seq<Op>, fd: int, readable: bool, io: Op -> Outcome, d: Dir)
    requires readable == (d == In)
    ensures Waiting(Completed(s, fd, readable, io), fd, d) == Completed(s, fd, readable, io)
  {
    if s != [] {
      CompletedAllWaiting(s[1..], fd, readable, io, d);
      if Completes(s[0], fd, readable, io) {
        assert Completed(s, fd, readable, io) == [s[0]] + Completed(s[1..], fd, readable, io);
        WaitingCons(s[0], Completed(s[1..], fd, readable, io), fd, d);
      } else {
        assert Completed(s, fd, readable, io) == Completed(s[1..], fd, readable, io);
      }
    }
  }

  lemma CutWaits(s: seq<Op>, i: nat, j: nat, fd: int, d: Dir)
    requires i <= j <= |s| && forall o :: o in s[i..j] ==> o.Fd() != fd
    ensures Waiting(CutBlock(s, i, j), fd, d) == Waiting(s, fd, d)
  {
    assert s == s[..i] + (s[i..j] + s[j..]);
    WaitingConcat(s[..i], s[i..j] + s[j..], fd, d);
    WaitingConcat(s[i..j], s[j..], fd, d);
    WaitingNone(s[i..j], fd, d);
    WaitingConcat(s[..i], s[j..], fd, d);
  }

  /** One call: what was waiting, with what arrives, is what completes followed
      by what waits afterwards. */
  lemma DoInOrder(s: Sched, c: Call, fd: int, d: Dir)
    requires Partition(s) && EpollAgrees(s) && Legal(s, c) && Orderly(s, [c], fd)
    ensures Waiting(s.active, fd, d) + Waiting(Scheduled([c]), fd, d)
         == Waiting(Do(s, c).1, fd, d) + Waiting(Do(s, c).0.active, fd, d)
  {
    assert [c][1..] == [];
    match c {
      case DoSchedule(op) =>
        ScheduleAppends(s.active, op, fd, d);
        WaitingCons(op, [], fd, d);
        assert Scheduled([c]) == [op] + [];
      case DoEvent(e, io) =>
        if e.Ready? {
          EventFilters(s, e, io);
          if e.fd == fd && e.readable == (d == In) {
            CompletesFromFront(s.active, fd, e.readable, io, d);
            CompletedAllWaiting(s.active, fd, e.readable, io, d);
          } else {
            OthersWait(s.active, e.fd, e.readable, io, fd, d);
          }
        }
      case DoCancel(k) =>
        CancelRangeExact(s, k);
        var (lo, hi) := CancelRange(s, k);
        forall o | o in s.active[lo..hi] ensures o.Fd() != fd { assert o in Range(s, k); }
        CutWaits(s.active, lo, hi, fd, d);
      case DoCancellations =>
    }
  }

  /** Over a whole run, the operations scheduled on fd in direction d are, in
      that order, those completed so far followed by those still waiting. */
  lemma {:induction false} CompletionOrder(s: Sched, calls: seq<Call>, fd: int, d: Dir)
    requires Partition(s) && EpollAgrees(s) && LegalRun(s, calls) && Orderly(s, calls, fd)
    ensures Waiting(s.active, fd, d) + Waiting(Scheduled(calls), fd, d)
         == Waiting(Run(s, calls).1, fd, d) + Waiting(Run(s, calls).0.active, fd, d)
    decreases |calls|
  {
    if calls != [] {
      var c, rest := calls[0], calls[1..];
      var (s1, done) := Do(s, c);
      assert Orderly(s, [c], fd) by { assert [c][1..] == []; }
      assert Partition(s1) && EpollAgrees(s1) by { DoKeeps(s, c); }
      CompletionOrder(s1, rest, fd, d);
      var more := Run(s1, rest).1;
      assert Run(s, calls) == (Run(s1, rest).0, done + more);
      ScheduledFirst(calls, fd, d);
      DoInOrder(s, c, fd, d);
      WaitingConcat(done, more, fd, d);
      Assemble(Waiting(s.active, fd, d), Waiting(Scheduled([c]), fd, d), Waiting(Scheduled(rest), fd, d),
               Waiting(done, fd, d), Waiting(s1.active, fd, d),
               Waiting(more, fd, d), Waiting(Run(s1, rest).0.active, fd, d));
    }
  }

  lemma Assemble(was: seq<Op>, first: seq<Op>, rest: seq<Op>, done: seq<Op>, mid: seq<Op>, more: seq<Op>, left: seq<Op>)
    requires was + first == done + mid && mid + rest == more + left
    ensures was + (first + rest) == (done + more) + left
  {
    calc {
      was + (first + rest);
      (was + first) + rest;
      (done + mid) + rest;
      done + (mid + rest);
      done + (more + left);
      (done + more) + left;
    }
  }

  lemma ScheduledFirst(calls: seq<Call>, fd: int, d: Dir)
    requires calls != []
    ensures Waiting(Scheduled(calls), fd, d)
         == Waiting(Scheduled([calls[0]]), fd, d) + Waiting(Scheduled(calls[1..]), fd, d)
  {
    assert [calls[0]][1..] == [];
    assert Scheduled(calls) == Scheduled([calls[0]]) + Scheduled(calls[1..]);
    WaitingConcat(Scheduled([calls[0]]), Scheduled(calls[1..]), fd, d);
  }
}
