/** The scheduler's operations as functions on values. */
module SchedulerSpec {
  import opened Sequences
  import opened Operations

  /** `active` is the list up to begin_cancelled_, `cancelled` the rest.
      `epoll` is the kernel's interest table without the wake event; `results`
      and `flags` are the result slots and cancelled flags of operations. */
  datatype Sched = Sched(
    active: seq<Op>,
    cancelled: seq<Op>,
    epoll: map<int, set<Dir>>,
    results: map<Op, IoResult>,
    flags: set<Op>)

  const EMPTY: Sched := Sched([], [], map[], map[], {})

  predicate Sorted(s: seq<Op>) {
    forall i, j :: 0 <= i < j < |s| ==> s[i].Fd() <= s[j].Fd()
  }

  /** The first position from i on whose descriptor is not below fd. */
  function LowerFrom(s: seq<Op>, fd: int, i: nat): (r: nat)
    requires i <= |s|
    ensures i <= r <= |s|
    ensures forall k :: i <= k < r ==> s[k].Fd() < fd
    ensures r < |s| ==> s[r].Fd() >= fd
    decreases |s| - i
  {
    if i == |s| || s[i].Fd() >= fd then i else LowerFrom(s, fd, i + 1)
  }

  /** The first position from i on whose descriptor is above fd. */
  function UpperFrom(s: seq<Op>, fd: int, i: nat): (r: nat)
    requires i <= |s|
    ensures i <= r <= |s|
    ensures forall k :: i <= k < r ==> s[k].Fd() <= fd
    ensures r < |s| ==> s[r].Fd() > fd
    decreases |s| - i
  {
    if i == |s| || s[i].Fd() > fd then i else UpperFrom(s, fd, i + 1)
  }

  function LowerBound(s: seq<Op>, fd: int): nat { LowerFrom(s, fd, 0) }

  function UpperBound(s: seq<Op>, fd: int): nat { UpperFrom(s, fd, 0) }

  lemma BoundsOrdered(s: seq<Op>, fd: int)
    requires Sorted(s)
    ensures LowerBound(s, fd) <= UpperBound(s, fd) <= |s|
    ensures forall k :: 0 <= k < |s| ==>
              && (s[k].Fd() < fd <==> k < LowerBound(s, fd))
              && (s[k].Fd() > fd <==> UpperBound(s, fd) <= k)
              && (s[k].Fd() == fd <==> LowerBound(s, fd) <= k < UpperBound(s, fd))
  {
    var lo, hi := LowerBound(s, fd), UpperBound(s, fd);
    forall k | 0 <= k < |s|
      ensures s[k].Fd() < fd <==> k < lo
      ensures s[k].Fd() > fd <==> hi <= k
    {
      if lo < |s| && k >= lo { assert s[lo].Fd() <= s[k].Fd(); }
      if hi < |s| && k >= hi { assert s[hi].Fd() <= s[k].Fd(); }
    }
  }

  /** The directions active operations of fd wait for. */
  function Interest(s: seq<Op>, fd: int): set<Dir>
  {
    set o | o in s && o.Fd() == fd :: o.Direction()
  }

  // ----- schedule

  /** The branch that takes the end of the active prefix without looking at
      the operations already there. */
  predicate TailBranch(s: seq<Op>, fd: int)
  {
    s != [] && s[0].Fd() < fd && s[|s| - 1].Fd() <= fd
  }

  /** The interest a schedule registers. */
  function ScheduleMask(s: seq<Op>, op: Op): set<Dir>
  {
    if TailBranch(s, op.Fd()) then {op.Direction()} else Interest(s, op.Fd()) + {op.Direction()}
  }

  function Schedule(s: Sched, op: Op): Sched
  {
    s.(active := InsertAt(s.active, UpperBound(s.active, op.Fd()), op),
       epoll := s.epoll[op.Fd() := ScheduleMask(s.active, op)])
  }

  // ----- cancel

  function CancelRange(s: Sched, fd: int): (r: (nat, nat))
  {
    var lo := LowerBound(s.active, fd);
    (lo, UpperFrom(s.active, fd, lo))
  }

  function Mark(results: map<Op, IoResult>, ops: seq<Op>): map<Op, IoResult>
  {
    results + (map o | o in ops :: OPERATION_CANCELED)
  }

  /** The operations a cancel of fd finds. */
  function Range(s: Sched, fd: int): seq<Op>
  {
    s.active[CancelRange(s, fd).0..CancelRange(s, fd).1]
  }

  /** They are marked before they are moved. */
  function MarkRange(s: Sched, fd: int): Sched
  {
    s.(results := Mark(s.results, Range(s, fd)), flags := s.flags + (set o | o in Range(s, fd)))
  }

  function Cancel(s: Sched, fd: int): Sched
  {
    if Range(s, fd) == [] then s else
      MarkRange(s, fd).(
        active := CutBlock(s.active, CancelRange(s, fd).0, CancelRange(s, fd).1),
        cancelled := Range(s, fd) + s.cancelled,
        epoll := s.epoll - {fd})
  }

  /** The calls on which the splice inside cancel never ends: two or more
      operations, at the very end of the active prefix, and not the whole
      list. */
  predicate CancelHangs(s: Sched, fd: int)
  {
    var (lo, hi) := CancelRange(s, fd);
    hi - lo >= 2 && hi == |s.active| && !(lo == 0 && s.cancelled == [])
  }

  // ----- process_notifications

  /** The local variables of the loop over one event's operations. */
  datatype Pass = Pass(fd: int, readable: bool, next: nat, seen: nat, finished: nat, rereg: set<Dir>)

  datatype Step = Step(sched: Sched, pass: Pass, posted: seq<Op>)

  function BeginEvent(s: Sched, fd: int, readable: bool): Pass
  {
    Pass(fd, readable, LowerBound(s.active, fd), 0, 0, {})
  }

  predicate AtItem(s: Sched, p: Pass)
  {
    p.next < |s.active| && s.active[p.next].Fd() == p.fd
  }

  /** Whether the operation under the cursor is one the event lets run. */
  predicate Tried(s: Sched, p: Pass)
    requires AtItem(s, p)
  {
    var item := s.active[p.next];
    item !in s.flags && p.readable == (item.Direction() == In)
  }

  function TryItem(s: Sched, p: Pass, outcome: Outcome): Step
    requires AtItem(s, p)
  {
    var item := s.active[p.next];
    if !Tried(s, p) || outcome.WouldBlock? then
      Step(s, p.(next := p.next + 1, seen := p.seen + 1, rereg := p.rereg + {item.Direction()}), [])
    else
      Step(s.(active := RemoveAt(s.active, p.next), results := s.results[item := outcome.result]),
           p.(seen := p.seen + 1, finished := p.finished + 1),
           [item])
  }

  function EndEvent(s: Sched, p: Pass): Sched
  {
    if p.seen == p.finished then s.(epoll := s.epoll - {p.fd}) else s.(epoll := s.epoll[p.fd := p.rereg])
  }

  /** The inner loop, run to its end. */
  function RunItems(s: Sched, p: Pass, io: Op -> Outcome): Step
    decreases |s.active| - p.next
  {
    if !AtItem(s, p) then Step(s, p, []) else
      var first := TryItem(s, p, io(s.active[p.next]));
      var rest := RunItems(first.sched, first.pass, io);
      Step(rest.sched, rest.pass, first.posted + rest.posted)
  }

  function RunEvent(s: Sched, e: Event, io: Op -> Outcome): (Sched, seq<Op>)
  {
    if e.Wake? then (s, []) else
      var r := RunItems(s, BeginEvent(s, e.fd, e.readable), io);
      (EndEvent(r.sched, r.pass), r.posted)
  }

  /** process_notifications: the events from the k-th on.  The k-th event's
      attempts are answered by io(k, _). */
  function RunEvents(s: Sched, events: seq<Event>, io: (nat, Op) -> Outcome, k: nat): (Sched, seq<Op>)
    requires k <= |events|
    decreases |events| - k
  {
    if k == |events| then (s, []) else
      var (s1, posted) := RunEvent(s, events[k], o => io(k, o));
      var (s2, more) := RunEvents(s1, events, io, k + 1);
      (s2, posted + more)
  }

  // ----- process_cancellations

  function DropCancelled(s: Sched): Sched
  {
    s.(cancelled := [])
  }

  // ----- poll_once

  const MAX_EVENTS_PER_POLL: nat := 1024

  /** One return of the system's poll: its events and the answers the attempts
      on them get, or an error, which poll_once throws. */
  datatype Round = Events(events: seq<Event>, io: (nat, Op) -> Outcome) | Failure

  /** poll_once asks again when the buffer came back full and it may not block. */
  predicate Again(r: Round, block: bool)
  {
    r.Events? && |r.events| == MAX_EVENTS_PER_POLL && !block
  }

  /** The rounds are as many as the loop asks for. */
  predicate Enough(rounds: seq<Round>, block: bool, i: nat)
    decreases |rounds| - i
  {
    i < |rounds| && (Again(rounds[i], block) ==> Enough(rounds, block, i + 1))
  }

  datatype Polled = Polled(sched: Sched, posted: seq<Op>, thrown: bool)

  function RunRounds(s: Sched, rounds: seq<Round>, block: bool, i: nat): Polled
    requires Enough(rounds, block, i)
    decreases |rounds| - i
  {
    match rounds[i]
    case Failure => Polled(s, [], true)
    case Events(events, io) =>
      var (s1, posted) := RunEvents(s, events, io, 0);
      if Again(rounds[i], block) then
        var rest := RunRounds(s1, rounds, block, i + 1);
        Polled(rest.sched, posted + rest.posted, rest.thrown)
      else Polled(s1, posted, false)
  }

  /** How the system's poll is first entered, if it is. */
  datatype Entry = NotEntered | Immediate | Blocking

  function PollEntry(s: Sched, block: bool): Entry
  {
    if s.active == [] then NotEntered
    else if block && s.cancelled == [] then Blocking else Immediate
  }

  function Poll(s: Sched, block: bool, rounds: seq<Round>): Polled
    requires s.active != [] ==> Enough(rounds, block, 0)
  {
    if s.active == [] then Polled(DropCancelled(s), s.cancelled, false)
    else
      var r := RunRounds(DropCancelled(s), rounds, block, 0);
      Polled(r.sched, s.cancelled + r.posted, r.thrown)
  }

  // ----- what every call keeps

  /** The scheduler has never seen the operation. */
  predicate Unknown(s: Sched, op: Op)
  {
    op !in s.active && op !in s.cancelled && op !in s.flags && op !in s.results
  }

  /** fd-sorted, uncancelled operations without a result, then cancelled
      operations that hold operation_canceled. */
  ghost predicate Partition(s: Sched)
  {
    && Sorted(s.active)
    && NoDup(s.active) && NoDup(s.cancelled)
    && (forall o :: o in s.active ==> o.Io? && o !in s.flags && o !in s.results)
    && (forall o :: o in s.cancelled ==> o.Io? && o in s.flags && o in s.results && s.results[o] == OPERATION_CANCELED)
  }

  ghost predicate AgreesAt(s: Sched, fd: int)
  {
    && (fd in s.epoll <==> Interest(s.active, fd) != {})
    && (fd in s.epoll ==> s.epoll[fd] != {} && s.epoll[fd] <= Interest(s.active, fd))
  }

  ghost predicate EpollAgrees(s: Sched)
  {
    forall fd :: AgreesAt(s, fd)
  }
}
