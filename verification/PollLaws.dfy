/** What one call of poll_once does, told without its loop: the rounds it uses,
    what it posts and in which order, what it leaves, and how it first waits. */
module PollLaws {
  import opened Operations
  import opened Sequences
  import opened SchedulerSpec
  import opened SchedulerLaws
  import opened NotificationOrder

  // ----- the rounds used

  /** The loop goes round again after this one: it brought events, as many as
      the buffer holds, and the call may not block. */
  predicate GoesOn(r: Round, block: bool)
  {
    r.Events? && |r.events| == 1024 && !block
  }

  /** The first n rounds are used, from the i-th on: each but the last goes on,
      and the last one does not. */
  ghost predicate Uses(rounds: seq<Round>, block: bool, i: nat, n: nat)
  {
    && i < n <= |rounds|
    && (forall k :: i <= k < n - 1 ==> GoesOn(rounds[k], block))
    && !GoesOn(rounds[n - 1], block)
  }

  /** There are enough rounds if and only if some round ends the loop, and that
      one is where it ends. */
  lemma {:induction false} EnoughIff(rounds: seq<Round>, block: bool, i: nat)
    ensures Enough(rounds, block, i) <==> exists n :: Uses(rounds, block, i, n)
    decreases |rounds| - i
  {
    if i < |rounds| {
      if GoesOn(rounds[i], block) {
        var j := i + 1;
        EnoughIff(rounds, block, j);
        if n :| Uses(rounds, block, j, n) { assert Uses(rounds, block, i, n); }
        if n :| Uses(rounds, block, i, n) { assert Uses(rounds, block, j, n); }
      } else {
        assert Uses(rounds, block, i, i + 1);
      }
    }
  }

  lemma UsesOnce(rounds: seq<Round>, block: bool, i: nat, n: nat, m: nat)
    requires Uses(rounds, block, i, n) && Uses(rounds, block, i, m)
    ensures n == m
  {
  }

  // ----- what they complete and leave

  /** The prefix after the first n rounds: the operations no event of theirs
      completed. */
  function LeftAfter(s: seq<Op>, rounds: seq<Round>, n: nat): seq<Op>
    requires n <= |rounds|
  {
    if n == 0 then s
    else
      var left := LeftAfter(s, rounds, n - 1);
      if rounds[n - 1].Failure? then left else RemainingAll(left, rounds[n - 1].events, rounds[n - 1].io, 0)
  }

  /** The completions of the first n rounds, round after round. */
  function DoneIn(s: seq<Op>, rounds: seq<Round>, n: nat): seq<Op>
    requires n <= |rounds|
  {
    if n == 0 then []
    else if rounds[n - 1].Failure? then DoneIn(s, rounds, n - 1)
    else
      DoneIn(s, rounds, n - 1)
      + CompletedAll(LeftAfter(s, rounds, n - 1), rounds[n - 1].events, rounds[n - 1].io, 0)
  }

  /** Exactly the given operations have gained a result, nothing has been
      cancelled, and no result has changed. */
  ghost predicate OnlyCompletes(s: Sched, t: Sched, done: seq<Op>)
  {
    && t.cancelled == s.cancelled && t.flags == s.flags
    && (forall o :: o in t.results <==> o in s.results || o in done)
    && (forall o :: o in s.results ==> t.results[o] == s.results[o])
  }

  lemma CompletesInTurn(s: Sched, t: Sched, u: Sched, a: seq<Op>, b: seq<Op>)
    requires OnlyCompletes(s, t, a) && OnlyCompletes(t, u, b)
    ensures OnlyCompletes(s, u, a + b)
  {
  }

  lemma CompletesNothing(s: Sched)
    ensures OnlyCompletes(s, s, [])
  {
  }

  /** From the i-th round on, with the earlier ones behind it. */
  lemma {:induction false} RoundsExact(s0: seq<Op>, s: Sched, rounds: seq<Round>, block: bool, i: nat, n: nat)
    requires Partition(s) && EpollAgrees(s) && Enough(rounds, block, i) && Uses(rounds, block, i, n)
    requires s.active == LeftAfter(s0, rounds, i)
    ensures var p := RunRounds(s, rounds, block, i);
            && DoneIn(s0, rounds, i) + p.posted == DoneIn(s0, rounds, n)
            && p.sched.active == LeftAfter(s0, rounds, n)
            && (p.thrown <==> rounds[n - 1].Failure?)
            && OnlyCompletes(s, p.sched, p.posted)
            && Partition(p.sched) && EpollAgrees(p.sched)
    decreases |rounds| - i
  {
    hide Partition, EpollAgrees, RunEvents, CompletedAll, RemainingAll, OnlyCompletes;
    if GoesOn(rounds[i], block) {
      RoundExact(s0, s, rounds, i);
      assert Uses(rounds, block, i + 1, n);
      hide Uses, LeftAfter, DoneIn;
      var (s1, posted) := RunEvents(s, rounds[i].events, rounds[i].io, 0);
      RoundsExact(s0, s1, rounds, block, i + 1, n);
      var rest := RunRounds(s1, rounds, block, i + 1);
      assert (DoneIn(s0, rounds, i) + posted) + rest.posted == DoneIn(s0, rounds, i) + (posted + rest.posted);
      CompletesInTurn(s, s1, rest.sched, posted, rest.posted);
    } else {
      assert n == i + 1;
      if rounds[i].Events? { RoundExact(s0, s, rounds, i); } else { CompletesNothing(s); }
      assert DoneIn(s0, rounds, i) + [] == DoneIn(s0, rounds, i);
    }
  }

  lemma RoundExact(s0: seq<Op>, s: Sched, rounds: seq<Round>, i: nat)
    requires Partition(s) && EpollAgrees(s) && i < |rounds| && rounds[i].Events?
    requires s.active == LeftAfter(s0, rounds, i)
    ensures var (s1, posted) := RunEvents(s, rounds[i].events, rounds[i].io, 0);
            && DoneIn(s0, rounds, i) + posted == DoneIn(s0, rounds, i + 1)
            && s1.active == LeftAfter(s0, rounds, i + 1)
            && OnlyCompletes(s, s1, posted) && Partition(s1) && EpollAgrees(s1)
  {
    hide Partition, EpollAgrees, RunEvents, CompletedAll, RemainingAll, OnlyCompletes;
    PassFilters(s, rounds[i].events, rounds[i].io, 0);
    PassOnlyCompletes(s, rounds[i].events, rounds[i].io, 0);
  }

  lemma {:induction false} PassOnlyCompletes(s: Sched, events: seq<Event>, io: (nat, Op) -> Outcome, k: nat)
    requires Partition(s) && EpollAgrees(s) && k <= |events|
    ensures OnlyCompletes(s, RunEvents(s, events, io, k).0, RunEvents(s, events, io, k).1)
    decreases |events| - k
  {
    hide Partition, EpollAgrees, OnlyCompletes, RunEvent;
    if k == |events| {
      CompletesNothing(s);
    } else {
      var r := RunEvent(s, events[k], o => io(k, o));
      EventOnlyCompletes(s, events[k], o => io(k, o));
      EventKeeps(s, events[k], o => io(k, o));
      PassOnlyCompletes(r.0, events, io, k + 1);
      var rest := RunEvents(r.0, events, io, k + 1);
      CompletesInTurn(s, r.0, rest.0, r.1, rest.1);
    }
  }

  lemma EventOnlyCompletes(s: Sched, e: Event, io: Op -> Outcome)
    requires Partition(s) && EpollAgrees(s)
    ensures OnlyCompletes(s, RunEvent(s, e, io).0, RunEvent(s, e, io).1)
  {
    if e.Wake? {
      CompletesNothing(s);
    } else {
      hide EpollAgrees, RunEvent, Sorted, NoDup, Interest, SameElsewhere, Completed, Remaining;
      EventExact(s, e, io);
      EventFilters(s, e, io);
      FilterMembers(s.active, e.fd, e.readable, io);
    }
  }

  // ----- poll_once

  /** With nothing waiting, only the cancelled operations are posted. */
  lemma PollOfNone(s: Sched, block: bool, rounds: seq<Round>)
    requires s.active == []
    ensures Poll(s, block, rounds) == Polled(s.(cancelled := []), s.cancelled, false)
  {
  }

  /** Otherwise the cancelled operations are posted first, then what each round
      used completes, in order; the prefix keeps the others; and the call throws
      if and only if the last round used failed. */
  lemma PollExact(s: Sched, block: bool, rounds: seq<Round>, n: nat)
    requires Partition(s) && EpollAgrees(s) && s.active != []
    requires n > 0 && n <= |rounds|
    requires forall k :: 0 <= k < n - 1 ==> rounds[k].Events? && |rounds[k].events| == 1024 && !block
    requires rounds[n - 1].Failure? || |rounds[n - 1].events| != 1024 || block
    ensures Enough(rounds, block, 0)
    ensures var p := Poll(s, block, rounds);
            && p.posted == s.cancelled + DoneIn(s.active, rounds, n)
            && p.sched.active == LeftAfter(s.active, rounds, n)
            && p.sched.cancelled == [] && p.sched.flags == s.flags
            && (forall o :: o in p.sched.results <==> o in s.results || o in DoneIn(s.active, rounds, n))
            && (forall o :: o in s.results ==> p.sched.results[o] == s.results[o])
            && (p.thrown <==> rounds[n - 1].Failure?)
  {
    assert Uses(rounds, block, 0, n);
    EnoughIff(rounds, block, 0);
    CancellationsKeep(s);
    RoundsExact(s.active, DropCancelled(s), rounds, block, 0, n);
    assert forall q: seq<Op> :: [] + q == q;
  }

  /** The first wait: not at all with nothing waiting; without end only when the
      caller allows it and nothing has been cancelled; else not longer than to
      look. */
  lemma EntryExact(s: Sched, block: bool)
    ensures PollEntry(s, block) == NotEntered <==> s.active == []
    ensures PollEntry(s, block) == Blocking <==> block && s.cancelled == [] && s.active != []
  {
  }

  /** The whole call, told so: what was cancelled goes first, and with anything
      waiting the rounds used, and no others, say the rest. */
  ghost predicate PollTold(s: Sched, block: bool, rounds: seq<Round>, posted: seq<Op>, after: Sched, thrown: bool)
  {
    && after.cancelled == [] && after.flags == s.flags
    && (forall o :: o in s.results ==> o in after.results && after.results[o] == s.results[o])
    && if s.active == [] then posted == s.cancelled && after.active == [] && !thrown
       else exists n ::
              && Uses(rounds, block, 0, n)
              && posted == s.cancelled + DoneIn(s.active, rounds, n)
              && after.active == LeftAfter(s.active, rounds, n)
              && (thrown <==> rounds[n - 1].Failure?)
  }

  lemma PollIsTold(s: Sched, block: bool, rounds: seq<Round>)
    requires Partition(s) && EpollAgrees(s) && (s.active != [] ==> Enough(rounds, block, 0))
    ensures var p := Poll(s, block, rounds);
            PollTold(s, block, rounds, p.posted, p.sched, p.thrown)
  {
    if s.active == [] {
      PollOfNone(s, block, rounds);
    } else {
      EnoughIff(rounds, block, 0);
      var n :| Uses(rounds, block, 0, n);
      hide Partition, EpollAgrees, DoneIn, LeftAfter, Poll, Enough;
      PollExact(s, block, rounds, n);
    }
  }

  ghost predicate Parts(a: seq<Op>, b: seq<Op>, whole: seq<Op>)
  {
    multiset(a) + multiset(b) == multiset(whole)
  }

  /** Nothing is lost: what is posted and what is left are what there was. */
  lemma {:induction false} PollConserves(s: seq<Op>, rounds: seq<Round>, n: nat)
    requires n <= |rounds|
    ensures Parts(DoneIn(s, rounds, n), LeftAfter(s, rounds, n), s)
  {
    hide *;
    if n == 0 {
      NoRounds(s, rounds);
    } else {
      PollConserves(s, rounds, n - 1);
      RoundUnfolds(s, rounds, n);
      if rounds[n - 1].Events? {
        var left := LeftAfter(s, rounds, n - 1);
        PassKeepsAll(left, rounds[n - 1].events, rounds[n - 1].io);
        OneMoreRound(s, DoneIn(s, rounds, n - 1), left, LeftAfter(s, rounds, n),
                     CompletedAll(left, rounds[n - 1].events, rounds[n - 1].io, 0));
      }
    }
  }

  lemma NoRounds(s: seq<Op>, rounds: seq<Round>)
    ensures Parts(DoneIn(s, rounds, 0), LeftAfter(s, rounds, 0), s)
  {
  }

  lemma PassKeepsAll(s: seq<Op>, events: seq<Event>, io: (nat, Op) -> Outcome)
    ensures Parts(RemainingAll(s, events, io, 0), CompletedAll(s, events, io, 0), s)
  {
    PassConserves(s, events, io, 0);
  }

  lemma RoundUnfolds(s: seq<Op>, rounds: seq<Round>, n: nat)
    requires 0 < n <= |rounds|
    ensures var r, done, left := rounds[n - 1], DoneIn(s, rounds, n - 1), LeftAfter(s, rounds, n - 1);
            if r.Failure? then DoneIn(s, rounds, n) == done && LeftAfter(s, rounds, n) == left
            else
              && DoneIn(s, rounds, n) == done + CompletedAll(left, r.events, r.io, 0)
              && LeftAfter(s, rounds, n) == RemainingAll(left, r.events, r.io, 0)
  {
  }

  lemma OneMoreRound(s: seq<Op>, done: seq<Op>, left: seq<Op>, left': seq<Op>, more: seq<Op>)
    requires Parts(done, left, s) && Parts(left', more, left)
    ensures Parts(done + more, left', s)
  {
    assert multiset(done + more) == multiset(done) + multiset(more);
  }
}
