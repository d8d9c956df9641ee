/** Timer waits replace each other, so a timer's cancel always returns. */
module Timers {
  import opened Sequences
  import opened IntrusiveLists
  import opened Operations
  import opened SchedulerSpec
  import opened SchedulerLaws
  import opened SchedulerRuns
  import opened NotificationOrder
  import opened IoSchedulers
  import opened ContextThreads

  /** How a wait ends: a zero duration posts the completion at once, otherwise
      the timer is armed (which can fail, and throws) and an operation scheduled. */
  datatype Request = Zero | Armed(op: Op) | NotArmed

  /** The second half of a wait; the first is a cancel. */
  function EndWait(s: Sched, r: Request): Sched
  {
    if r.Armed? then Schedule(s, r.op) else s
  }

  function WaitFor(s: Sched, fd: int, r: Request): Sched
  {
    EndWait(Cancel(s, fd), r)
  }

  ghost predicate AtMostOne(s: Sched, fd: int)
  {
    forall o, o' :: o in s.active && o' in s.active && o.Fd() == fd && o'.Fd() == fd ==> o == o'
  }

  ghost predicate ForTimer(s: Sched, fd: int, r: Request)
  {
    r.Armed? ==> r.op.Io? && r.op.Fd() == fd && Unknown(s, r.op)
  }

  lemma OneInRange(s: Sched, fd: int)
    requires Partition(s) && AtMostOne(s, fd)
    ensures |Range(s, fd)| <= 1 && !CancelHangs(s, fd)
    ensures forall o :: o in s.active && o.Fd() == fd ==> Range(s, fd) == [o]
  {
    CancelRangeExact(s, fd);
    CancelActive(s, fd);
    FirstTwo(Range(s, fd));
  }

  lemma FirstTwo<T>(r: seq<T>)
    requires NoDup(r)
    ensures r == [] || (r == [r[0]] && r[0] in r) || (|r| >= 2 && r[0] in r && r[1] in r && r[0] != r[1])
  {
  }

  lemma CancelKeepsUnknown(s: Sched, fd: int, op: Op)
    requires Partition(s) && Unknown(s, op)
    ensures Unknown(Cancel(s, fd), op)
  {
    CancelMoves(s, fd);
    MarkFacts(s, fd);
    hide Cancel, MarkRange, Range;
  }

  lemma ScheduleMembers(s: Sched, op: Op)
    ensures forall o :: o in Schedule(s, op).active <==> o in s.active || o == op
    ensures Schedule(s, op).cancelled == s.cancelled && Schedule(s, op).flags == s.flags
    ensures Schedule(s, op).results == s.results
  {
    MembersInsert(s.active, UpperBound(s.active, op.Fd()), op);
  }

  /** A wait cancels what was waiting on the timer, and leaves its own operation
      as the only one. */
  lemma WaitReplaces(s: Sched, fd: int, r: Request)
    requires Partition(s) && EpollAgrees(s) && ForTimer(s, fd, r)
    ensures var t := WaitFor(s, fd, r);
            && Partition(t) && EpollAgrees(t) && AtMostOne(t, fd)
            && t.cancelled == Range(s, fd) + s.cancelled
            && (forall o :: o in t.active && o.Fd() == fd <==> r.Armed? && o == r.op)
            && (forall o: Op :: o.Fd() != fd ==> (o in t.active <==> o in s.active))
  {
    CancelKeepsPartition(s, fd);
    CancelKeepsEpoll(s, fd);
    CancelMoves(s, fd);
    if r.Armed? {
      var c := Cancel(s, fd);
      CancelKeepsUnknown(s, fd, r.op);
      hide Cancel, Range;
      ScheduleKeepsPartition(c, r.op);
      ScheduleKeepsEpoll(c, r.op);
      ScheduleMembers(c, r.op);
      hide Schedule, Partition, EpollAgrees;
    }
  }

  lemma WaitKeepsUnknown(s: Sched, fd: int, r: Request, op: Op)
    requires Partition(s) && Unknown(s, op) && (r.Armed? ==> r.op != op)
    ensures Unknown(WaitFor(s, fd, r), op)
  {
    CancelKeepsUnknown(s, fd, op);
    if r.Armed? {
      ScheduleMembers(Cancel(s, fd), r.op);
      hide Schedule, Cancel;
    }
  }

  // ----- n waits in a row

  function WaitAll(s: Sched, fd: int, ops: seq<Op>): Sched
  {
    if ops == [] then s else WaitFor(WaitAll(s, fd, ops[..|ops| - 1]), fd, Armed(ops[|ops| - 1]))
  }

  /** What n waits of one timer have done to a scheduler that began as `s` and is
      now `t`: the last of them remains, the others are cancelled, the last one first. */
  ghost predicate Replaced(s: Sched, t: Sched, fd: int, ops: seq<Op>)
  {
    && Partition(t) && EpollAgrees(t)
    && (forall o :: o in t.active && o.Fd() == fd <==> ops != [] && o == ops[|ops| - 1])
    && t.cancelled == (if ops == [] then [] else Reversed(ops[..|ops| - 1])) + s.cancelled
    && (forall o :: Unknown(s, o) && o !in ops ==> Unknown(t, o))
  }

  lemma {:induction false} WaitsReplaceEachOther(s: Sched, fd: int, ops: seq<Op>)
    requires Partition(s) && EpollAgrees(s) && NoDup(ops)
    requires forall o :: o in s.active ==> o.Fd() != fd
    requires forall o :: o in ops ==> o.Io? && o.Fd() == fd && Unknown(s, o)
    ensures Replaced(s, WaitAll(s, fd, ops), fd, ops)
    decreases |ops|
  {
    if ops == [] {
      assert [] + s.cancelled == s.cancelled;
    } else {
      var init, last := ops[..|ops| - 1], ops[|ops| - 1];
      assert ops == init + [last] && last in ops && last !in init;
      WaitsReplaceEachOther(s, fd, init);
      hide Replaced, Partition, EpollAgrees;
      OneMoreWait(s, WaitAll(s, fd, init), fd, init, last);
    }
  }

  lemma OneMoreWait(s: Sched, mid: Sched, fd: int, init: seq<Op>, last: Op)
    requires Replaced(s, mid, fd, init)
    requires last.Io? && last.Fd() == fd && Unknown(s, last) && last !in init
    ensures Replaced(s, WaitFor(mid, fd, Armed(last)), fd, init + [last])
  {
    hide Partition, EpollAgrees, AtMostOne, Range, Reversed, WaitFor, Unknown;
    var t, ops := WaitFor(mid, fd, Armed(last)), init + [last];
    assert ops[..|ops| - 1] == init && ops[|ops| - 1] == last;
    Displaced(s, mid, fd, init);
    forall o | Unknown(s, o) && o !in ops ensures Unknown(t, o) {
      WaitKeepsUnknown(mid, fd, Armed(last), o);
    }
    WaitReplaces(mid, fd, Armed(last));
  }

  /** The next wait moves what the last one left to the front of the cancelled. */
  lemma Displaced(s: Sched, mid: Sched, fd: int, init: seq<Op>)
    requires Replaced(s, mid, fd, init)
    ensures Range(mid, fd) + mid.cancelled == Reversed(init) + s.cancelled
  {
    hide Range, EpollAgrees, Unknown, Reversed;
    if init == [] {
      NothingInRange(mid, fd);
      NoneReversed(s.cancelled);
    } else {
      var n := |init| - 1;
      assert init[n] in mid.active;
      OneInRange(mid, fd);
      LastReversed(init, s.cancelled);
    }
  }

  lemma NoneReversed(rest: seq<Op>)
    ensures [] + ([] + rest) == Reversed([]) + rest
  {
  }

  lemma LastReversed(init: seq<Op>, rest: seq<Op>)
    requires init != []
    ensures [init[|init| - 1]] + (Reversed(init[..|init| - 1]) + rest) == Reversed(init) + rest
  {
  }

  lemma NothingInRange(s: Sched, fd: int)
    requires Sorted(s.active) && forall o :: o in s.active ==> o.Fd() != fd
    ensures Range(s, fd) == []
  {
    CancelRangeExact(s, fd);
    FirstTwo(Range(s, fd));
  }

  // ----- any run in which the descriptor is scheduled only by its timer

  /** A wait is two critical sections, and anything may come between them. */
  datatype TimerCall = BeginWait | FinishWait(request: Request) | Other(call: Call)

  /** The scheduler, and whether a wait is between its two halves. */
  datatype TimerState = TimerState(sched: Sched, open: bool)

  function DoTimer(t: TimerState, fd: int, c: TimerCall): TimerState
  {
    match c
    case BeginWait => TimerState(Cancel(t.sched, fd), true)
    case FinishWait(r) => TimerState(EndWait(t.sched, r), false)
    case Other(call) => t.(sched := Do(t.sched, call).0)
  }

  /** Waits do not overlap, and nobody else schedules on the descriptor; every
      other call of any thread may come at any point. */
  ghost predicate LegalForTimer(t: TimerState, fd: int, c: TimerCall)
  {
    match c
    case BeginWait => !t.open
    case FinishWait(r) => t.open && ForTimer(t.sched, fd, r)
    case Other(call) => Legal(t.sched, call) && (call.DoSchedule? ==> call.op.Fd() != fd)
  }

  ghost predicate LegalTimerRun(t: TimerState, fd: int, calls: seq<TimerCall>)
    decreases |calls|
  {
    calls != [] ==> LegalForTimer(t, fd, calls[0]) && LegalTimerRun(DoTimer(t, fd, calls[0]), fd, calls[1..])
  }

  ghost predicate NeverHangs(t: TimerState, fd: int, calls: seq<TimerCall>)
    decreases |calls|
  {
    && AtMostOne(t.sched, fd) && !CancelHangs(t.sched, fd)
    && (calls != [] ==> NeverHangs(DoTimer(t, fd, calls[0]), fd, calls[1..]))
  }

  ghost predicate NoneOn(s: Sched, fd: int)
  {
    forall o :: o in s.active ==> o.Fd() != fd
  }

  /** At most one operation of the timer, and none while a wait is open. */
  ghost predicate TimerInv(t: TimerState, fd: int)
  {
    Fine(t.sched) && AtMostOne(t.sched, fd) && (t.open ==> NoneOn(t.sched, fd))
  }

  lemma OtherOnlyRemoves(s: Sched, fd: int, c: Call)
    requires Fine(s) && Legal(s, c) && (c.DoSchedule? ==> c.op.Fd() != fd)
    ensures forall o :: o in Do(s, c).0.active && o.Fd() == fd ==> o in s.active
  {
    match c {
      case DoSchedule(op) => ScheduleMembers(s, op);
      case DoEvent(e, io) =>
        if e.Ready? {
          EventFilters(s, e, io);
          FilterMembers(s.active, e.fd, e.readable, io);
        }
      case DoCancel(k) => CancelMoves(s, k);
      case DoCancellations =>
    }
  }

  lemma StepKeepsTimerInv(t: TimerState, fd: int, c: TimerCall)
    requires TimerInv(t, fd) && LegalForTimer(t, fd, c)
    ensures TimerInv(DoTimer(t, fd, c), fd)
  {
    match c {
      case BeginWait => WaitReplaces(t.sched, fd, Zero);
      case FinishWait(r) =>
        if r.Armed? {
          ScheduleKeepsPartition(t.sched, r.op);
          ScheduleKeepsEpoll(t.sched, r.op);
          ScheduleMembers(t.sched, r.op);
        }
      case Other(call) =>
        DoKeeps(t.sched, call);
        OtherOnlyRemoves(t.sched, fd, call);
    }
    hide Do, Schedule, Cancel, Fine;
  }

  /** In every state of every such run the timer has at most one operation in
      the prefix, and no cancel of the timer hangs. */
  lemma {:induction false} TimerNeverHangs(t: TimerState, fd: int, calls: seq<TimerCall>)
    requires TimerInv(t, fd) && LegalTimerRun(t, fd, calls)
    ensures NeverHangs(t, fd, calls)
    decreases |calls|
  {
    OneInRange(t.sched, fd);
    if calls != [] {
      hide DoTimer, LegalForTimer, TimerInv;
      StepKeepsTimerInv(t, fd, calls[0]);
      TimerNeverHangs(DoTimer(t, fd, calls[0]), fd, calls[1..]);
    }
  }

  /** In particular from the empty scheduler on. */
  lemma TimerFromEmpty(fd: int, calls: seq<TimerCall>)
    requires LegalTimerRun(TimerState(EMPTY, false), fd, calls)
    ensures NeverHangs(TimerState(EMPTY, false), fd, calls)
  {
    hide LegalTimerRun, NeverHangs;
    assert forall k :: AgreesAt(EMPTY, k);
    TimerNeverHangs(TimerState(EMPTY, false), fd, calls);
  }

  // ----- the timer over the linked context

  class Timer {
    const fd: int
    const ctx: ContextThread

    constructor (ctx: ContextThread, fd: int)
      ensures this.ctx == ctx && this.fd == fd
    {
      this.ctx, this.fd := ctx, fd;
    }

    /** `wait_for_expiry_after`: cancel, then post the completion at once, or
        throw because the timer could not be armed, or schedule. */
    method WaitForExpiryAfter(op: Op, completion: Op, zero: bool, armed: bool) returns (thrown: bool)
      requires ctx.Sane() && AtMostOne(ctx.Now().sched, fd)
      requires !zero && armed ==> ForTimer(ctx.Now().sched, fd, Armed(op))
      modifies ctx`remaining, ctx`posted, ctx.queue, ctx.queue.Nodes()
      modifies ctx.io, ctx.io.operations, ctx.io.operations.Nodes()
      ensures ctx.Sane() && AtMostOne(ctx.Now().sched, fd)
      ensures var r := if zero then Zero else if armed then Armed(op) else NotArmed;
              ctx.Now() == World(WaitFor(old(ctx.Now().sched), fd, r),
                                 old(ctx.Now().queue) + (if zero then [completion] else []),
                                 old(ctx.Now().held))
      ensures ctx.posted == old(ctx.posted) + (if zero then [completion] else [])
      ensures ctx.remaining - ctx.Pending() == old(ctx.remaining - ctx.Pending())
      ensures thrown == (!zero && !armed)
    {
      hide AtMostOne, CancelHangs, IntrusiveList.Valid, IoScheduler.Valid, IoScheduler.View, Partition, EpollAgrees;
      ghost var s := ctx.Now().sched;
      OneInRange(s, fd);
      WaitReplaces(s, fd, Zero);
      assert ctx.Now().queue + [] == ctx.Now().queue && ctx.posted + [] == ctx.posted;
      if !zero && armed {
        WaitReplaces(s, fd, Armed(op));
        CancelKeepsUnknown(s, fd, op);
      }
      ctx.CancelIo(fd);
      thrown := false;
      if zero {
        ctx.Post(completion);
      } else if !armed {
        thrown := true;
      } else {
        ctx.ScheduleIo(op);
      }
    }
  }
}
