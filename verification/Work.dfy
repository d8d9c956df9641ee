/** Work objects, and the life of one operation that carries one. */
module Works {
  import opened Operations

  datatype Option<T> = None | Some(value: T)

  /** The part of the context that counts: `holders` are the Work objects that
      are active, as each of them says in its own Valid. */
  class Counter {
    var remaining: nat
    ghost var holders: set<Work>

    ghost predicate Valid()
      reads this
    {
      remaining == |holders|
    }

    constructor ()
      ensures Valid() && holders == {}
    {
      remaining, holders := 0, {};
    }
  }

  class Work {
    const counter: Counter
    var active: bool

    ghost predicate Valid()
      reads this, counter
    {
      counter.Valid() && (active <==> this in counter.holders)
    }

    constructor (counter: Counter)
      requires counter.Valid()
      modifies counter
      ensures Valid() && active && this.counter == counter
      ensures counter.holders == old(counter.holders) + {this}
    {
      this.counter, active := counter, true;
      new;
      counter.remaining, counter.holders := counter.remaining + 1, counter.holders + {this};
    }

    /** Moving hands the latch on; the count does not change. */
    constructor MovedFrom(other: Work)
      requires other.Valid()
      modifies other`active, other.counter`holders
      ensures Valid() && other.Valid() && counter == other.counter
      ensures active == old(other.active) && !other.active
      ensures counter.holders == old(other.counter.holders) - {other} + (if active then {this} else {})
    {
      counter, active := other.counter, other.active;
      new;
      other.active := false;
      if active {
        Counted(counter.holders, other, this);
        counter.holders := counter.holders - {other} + {this};
      }
    }

    static lemma Counted(holders: set<Work>, source: Work, target: Work)
      requires source in holders && target !in holders
      ensures |holders - {source} + {target}| == |holders|
    {
      assert |holders - {source}| == |holders| - 1;
    }

    /** `reset`, and the destructor: only the first one releases. */
    method Reset()
      requires Valid()
      modifies this`active, counter
      ensures Valid() && !active && counter.holders == old(counter.holders) - {this}
      ensures counter.remaining == old(counter.remaining) - if old(active) then 1 else 0
    {
      if active {
        assert |counter.holders - {this}| == |counter.holders| - 1;
        counter.remaining, counter.holders := counter.remaining - 1, counter.holders - {this};
      }
      active := false;
    }
  }

  lemma MovedOn(holders: set<Work>, source: Work)
    ensures forall target :: target !in holders ==>
              && holders - {source} + {target} - {source} - {target} == holders - {source}
              && holders - {source} + {} - {source} - {target} == holders - {source}
  {
  }

  /** What the end of an operation does, in order. */
  datatype Deed = Freed | Invoked(result: IoResult, count: nat)

  /** An I/O operation with its callback, into which a Work is wrapped. */
  class Operation {
    var work: Work
    var result: Option<IoResult>
    var cancelled: bool
    ghost var deeds: seq<Deed>

    ghost predicate Valid()
      reads this, work, work.counter
    {
      work.Valid() && (cancelled ==> result == Some(OPERATION_CANCELED))
    }

    ghost predicate Alive()
      reads this
    {
      Freed !in deeds
    }

    constructor (counter: Counter)
      requires counter.Valid()
      modifies counter
      ensures Valid() && Alive() && fresh(work) && work.active && work.counter == counter && result == None && !cancelled
      ensures counter.holders == old(counter.holders) + {work}
    {
      result, cancelled, deeds := None, false, [];
      work := new Work(counter);
    }

    /** `perform_io`: the slot must be empty when a result is written to it. */
    method PerformIo(outcome: Outcome) returns (done: bool)
      requires Valid() && Alive() && (outcome.Done? ==> result == None)
      modifies this`result
      ensures Valid() && done == outcome.Done?
      ensures result == if outcome.Done? then Some(outcome.result) else old(result)
    {
      done := outcome.Done?;
      if done {
        result := Some(outcome.result);
      }
    }

    /** `cancel` overwrites whatever the slot holds. */
    method Cancel()
      requires Valid() && Alive()
      modifies this`result, this`cancelled
      ensures Valid() && cancelled && result == Some(OPERATION_CANCELED)
    {
      result, cancelled := Some(OPERATION_CANCELED), true;
    }

    /** `discard`: the callback goes with the object, and its Work is released. */
    method Discard()
      requires Valid() && Alive()
      modifies this`deeds, work`active, work.counter
      ensures !work.active && work.Valid() && deeds == old(deeds) + [Freed]
      ensures work.counter.holders == old(work.counter.holders) - {work}
      ensures work.counter.remaining == old(work.counter.remaining) - if old(work.active) then 1 else 0
    {
      deeds := deeds + [Freed];
      work.Reset();
    }

    /** `dispatch`: the callback and the result move out, the object is freed,
        and only then is the callback invoked.  The count still includes its
        Work while the handler runs, and no longer when it has returned or
        thrown. */
    method Dispatch(throws: bool) returns (thrown: bool)
      requires Valid() && Alive() && result != None
      modifies this`deeds, work`active, work.counter
      ensures work.Valid() && !work.active && thrown == throws
      ensures deeds == old(deeds) + [Freed, Invoked(old(result).value, old(work.counter.remaining))]
      ensures work.counter.holders == old(work.counter.holders) - {work}
    {
      hide Counter.Valid;
      MovedOn(work.counter.holders, work);
      ghost var log := deeds;
      var moved := new Work.MovedFrom(work);
      var value := result.value;
      Discard();
      deeds := deeds + [Invoked(value, moved.counter.remaining)];
      assert deeds == log + [Freed, Invoked(value, moved.counter.remaining)];
      if throws {
        // unwinding destroys the callback, as returning does
        moved.Reset();
        return true;
      }
      moved.Reset();
      thrown := false;
    }
  }
}
