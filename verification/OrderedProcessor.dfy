/**
 `OrderedProcessor` in its own form: counters and maps changed in place, a skip loop that closes channels.
 Every method is proved against the function of `TicketQueue` for its critical section.
 */
module OrderedProcessors {
  import opened TicketQueue

  /** A Go `chan struct{}` used only to be closed. Closing it twice panics, so `Close` must not be called then. */
  class Signal {
    var closed: bool

    constructor ()
      ensures !closed
    {
      closed := false;
    }

    method Close()
      requires !closed
      modifies this
      ensures closed
    {
      closed := true;
    }
  }

  /** Which case of the `select` in `WaitForSequence` was taken. */
  datatype Branch = WaiterClosed | Stopped | TimedOut

  class OrderedProcessor {
    var sequenceCounter: nat
    var nextSequence: nat
    var activeSequences: map<nat, bool>
    var waiters: map<nat, Signal>
    const stopChan: Signal

    /** A missing key reads as `false`, as in Go. */
    ghost function State(): Queue<Signal>
      reads this
    {
      Queue(sequenceCounter, nextSequence, (set k | k in activeSequences && activeSequences[k]), waiters)
    }

    /** The channels in the map are open and belong to one ticket each, so each can be closed once. */
    ghost predicate OpenWaiters()
      reads this, waiters.Values
    {
      && stopChan !in waiters.Values
      && (forall k <- waiters :: !waiters[k].closed)
      && (forall j <- waiters, k <- waiters :: j != k ==> waiters[j] != waiters[k])
    }

    ghost predicate Valid()
      reads this, waiters.Values
    {
      OpenWaiters() && Settled(State())
    }

    constructor ()
      ensures Valid() && State() == Empty() && fresh(stopChan) && !stopChan.closed
    {
      sequenceCounter, nextSequence := 0, 1;
      activeSequences, waiters := map[], map[];
      stopChan := new Signal();
    }

    method Stop()
      requires Valid() && !stopChan.closed
      modifies stopChan
      ensures Valid() && stopChan.closed
    {
      stopChan.Close();
    }

    method GetNextSequence() returns (ticket: nat)
      requires Valid()
      modifies this
      ensures Valid() && State() == Take(old(State()))
      ensures ticket == sequenceCounter && ticket !in old(State()).active
    {
      sequenceCounter := sequenceCounter + 1;
      ticket := sequenceCounter;
      activeSequences := activeSequences[ticket := true];
      assert State().active == old(State()).active + {ticket};
      SectionsKeepSettled(old(State()), ticket, stopChan);
    }

    /** `WaitForSequence` up to the `select`: either the call returns true, or it waits on `waiter`. */
    method EnterWait(sequence: nat) returns (granted: bool, waiter: Signal?)
      requires Valid() && sequence in State().active
      requires sequence !in waiters
      modifies this, waiters.Values
      ensures Valid()
      ensures granted <==> waiter == null
      ensures waiter != null ==> fresh(waiter) && Enter(old(State()), sequence, waiter) == MustWait(State())
      ensures granted ==> Enter(old(State()), sequence, stopChan) == Granted(State())
      ensures forall s <- old(waiters.Values) :: !s.closed
    {
      ghost var before := State();
      SettledMeansNothingToSkip(before);
      SkipCompletedSequences();
      assert State() == before;
      if sequence <= nextSequence {
        return true, null;
      }
      waiter := new Signal();
      SectionsKeepSettled(before, sequence, waiter);
      waiters := waiters[sequence := waiter];
      granted := false;
    }

    /** What `WaitForSequence` does after the `select`, given the case taken. */
    method LeaveWait(sequence: nat, branch: Branch) returns (reached: bool)
      requires Valid()
      modifies this
      ensures Valid()
      ensures reached <==> branch != Stopped
      ensures State() == if branch == TimedOut then Expire(old(State()), sequence) else old(State())
    {
      match branch
      case WaiterClosed => return true;
      case Stopped => return false;
      case TimedOut =>
        SectionsKeepSettled(State(), sequence, stopChan);
        waiters := waiters - {sequence};
        return true;
    }

    method CompleteSequence(sequence: nat)
      requires Valid()
      modifies this, waiters.Values
      ensures Valid() && State() == Complete(old(State()), sequence)
      ensures forall k <- old(waiters) ::
                old(waiters)[k].closed <==> k in Woken(Finish(old(State()), sequence))
    {
      ghost var before := State();
      SectionsKeepSettled(before, sequence, stopChan);
      activeSequences := activeSequences - {sequence};
      assert State() == Finish(before, sequence);
      SkipCompletedSequences();
    }

    /** Runs with the mutex held, so `Settled` may not hold yet. */
    method SkipCompletedSequences()
      requires OpenWaiters()
      modifies this, waiters.Values
      ensures OpenWaiters() && State() == Skip(old(State()))
      ensures forall k <- old(waiters) :: old(waiters)[k].closed <==> k in Woken(old(State()))
    {
      ghost var q := State();
      while nextSequence <= sequenceCounter
            && !(nextSequence in activeSequences && activeSequences[nextSequence])
        invariant sequenceCounter == q.counter && activeSequences == old(activeSequences)
        invariant Frontier(nextSequence, q.counter, q.active) == Frontier(q.next, q.counter, q.active)
        invariant Skipping(q)
        decreases sequenceCounter + 1 - nextSequence
      {
        nextSequence := nextSequence + 1;
        WakeWaiter(q);
      }
      assert State() == SkipTo(q, nextSequence);
    }

    /** The loop that started from `q` has come to the cursor; the waiters it passed are closed and gone. */
    ghost predicate Skipping(q: Queue<Signal>)
      reads this, waiters.Values, q.waiters.Values
    {
      && q.next <= nextSequence && OpenWaiters() && waiters == SkipTo(q, nextSequence).waiters
      && (forall j <- q.waiters, k <- q.waiters :: j != k ==> q.waiters[j] != q.waiters[k])
      && (forall k <- q.waiters :: q.waiters[k].closed <==> k !in waiters)
    }

    /** Wakes up the waiter at the cursor, if there is one. */
    method WakeWaiter(ghost q: Queue<Signal>)
      requires q.next < nextSequence && OpenWaiters() && waiters == SkipTo(q, nextSequence - 1).waiters
      requires forall j <- q.waiters, k <- q.waiters :: j != k ==> q.waiters[j] != q.waiters[k]
      requires forall k <- q.waiters :: q.waiters[k].closed <==> k !in waiters
      modifies this`waiters, waiters.Values
      ensures Skipping(q) && waiters == old(waiters) - {nextSequence}
      ensures waiters.Values <= old(waiters.Values)
      ensures forall k <- old(waiters) :: old(waiters)[k].closed <==> k == nextSequence
    {
      SkipOneMore(q, nextSequence - 1);
      if nextSequence in waiters {
        waiters[nextSequence].Close();
        waiters := waiters - {nextSequence};
      }
    }
  }
}
