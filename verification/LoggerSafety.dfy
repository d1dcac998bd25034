/** The invariant of the logger system is kept by every step; what it says about exclusion and wakeups. */
module LoggerSafety {
  import opened TicketQueue
  import opened LoggerSystem

  /** The steps of one logger, as opposed to a spawn or the stop. */
  predicate MovesOne<D>(step: Step<D>) {
    !step.NewCall? && !step.SpawnResponse? && !step.SpawnEvent? && !step.Stop?
  }

  predicate TouchesQueue<D>(step: Step<D>) {
    step.TakeTicket? || step.EnterWait? || step.Relock? || step.CompleteTicket?
  }

  lemma OtherStepsFrame<D>(s: State<D>, step: Step<D>)
    requires Enabled(s, step) && !TouchesQueue(step)
    ensures var t := Apply(s, step);
            && t.queue == s.queue && t.skips == s.skips && t.closed == s.closed
            && t.nextChan == s.nextChan && t.panicked == s.panicked
  {
  }

  lemma QueueKept<D>(s: State<D>, step: Step<D>)
    requires Enabled(s, step) && Settled(s.queue) && s.skips == s.queue.next - 1
    requires step.EnterWait? ==> s.loggers[step.i].ticket in s.queue.active
    ensures var t := Apply(s, step); Settled(t.queue) && t.skips == t.queue.next - 1
  {
    if TouchesQueue(step) {
      SettledMeansNothingToSkip(s.queue);
      SectionsKeepSettled(s.queue, s.loggers[step.i].ticket, s.nextChan);
    } else {
      OtherStepsFrame(s, step);
    }
  }

  /** Steps that neither take nor complete a ticket. */
  lemma TicketsFrame<D>(s: State<D>, t: State<D>, i: nat)
    requires TicketsOk(s) && 0 !in s.queue.active && i < |s.loggers| == |t.loggers|
    requires t.owners == s.owners && t.queue.counter == s.queue.counter && t.queue.active == s.queue.active
    requires forall j :: 0 <= j < |s.loggers| && j != i ==> t.loggers[j] == s.loggers[j]
    requires t.loggers[i].ticket == s.loggers[i].ticket
    requires Holds(t.loggers[i]) == Holds(s.loggers[i]) && Unticketed(t.loggers[i]) == Unticketed(s.loggers[i])
    ensures TicketsOk(t)
  {
    forall j: nat | j < |t.loggers| ensures OwnsTicket(t, j) {
      assert j < |s.loggers| ==> OwnsTicket(s, j);
    }
  }

  lemma TakeKeepsTickets<D>(s: State<D>, i: nat)
    requires Enabled(s, TakeTicket(i)) && Settled(s.queue) && TicketsOk(s)
    ensures TicketsOk(Apply(s, TakeTicket(i)))
  {
    var t := Apply(s, TakeTicket(i));
    assert OwnsTicket(s, i);
    forall j: nat | j < |t.loggers| ensures OwnsTicket(t, j) {
      assert OwnsTicket(s, j);
    }
  }

  lemma CompleteKeepsTickets<D>(s: State<D>, i: nat)
    requires Enabled(s, CompleteTicket(i)) && Settled(s.queue) && TicketsOk(s)
    ensures TicketsOk(Apply(s, CompleteTicket(i)))
  {
    var t := Apply(s, CompleteTicket(i));
    assert OwnsTicket(s, i);
    forall j: nat | j < |t.loggers| ensures OwnsTicket(t, j) {
      assert OwnsTicket(s, j);
    }
  }

  lemma SpawnKeepsTickets<D>(s: State<D>, l: Logger)
    requires TicketsOk(s) && 0 !in s.queue.active && l.ticket == 0 && Unticketed(l)
    ensures TicketsOk(s.(loggers := s.loggers + [l]))
  {
    var t := s.(loggers := s.loggers + [l]);
    forall j: nat | j < |t.loggers| ensures OwnsTicket(t, j) {
      assert j < |s.loggers| ==> OwnsTicket(s, j);
    }
  }

  lemma OneLoggerKeepsTickets<D>(s: State<D>, step: Step<D>)
    requires Enabled(s, step) && Settled(s.queue) && TicketsOk(s)
    requires MovesOne(step) && !step.TakeTicket? && !step.CompleteTicket?
    ensures TicketsOk(Apply(s, step))
  {
    if step.EnterWait? {
      EnterKeepsTickets(s, step.i);
    } else {
      TicketsFrame(s, Apply(s, step), step.i);
    }
  }

  lemma EnterKeepsTickets<D>(s: State<D>, i: nat)
    requires Enabled(s, EnterWait(i)) && Settled(s.queue) && TicketsOk(s)
    ensures TicketsOk(Apply(s, EnterWait(i)))
  {
    SettledMeansNothingToSkip(s.queue);
    TicketsFrame(s, Apply(s, EnterWait(i)), i);
  }

  lemma TicketsKept<D>(s: State<D>, step: Step<D>)
    requires Enabled(s, step) && Settled(s.queue) && TicketsOk(s)
    ensures TicketsOk(Apply(s, step))
  {
    match step
    case NewCall => SpawnKeepsTickets(s, NewLogger(Request, |s.loggers|));
    case SpawnResponse(call) => SpawnKeepsTickets(s, NewLogger(Response, call));
    case SpawnEvent(call) => SpawnKeepsTickets(s, NewLogger(Event, call));
    case TakeTicket(i) => TakeKeepsTickets(s, i);
    case CompleteTicket(i) => CompleteKeepsTickets(s, i);
    case Stop =>
      assert forall j: nat :: j < |s.loggers| ==> OwnsTicket(s, j) == OwnsTicket(Apply(s, Stop), j);
    case _ => OneLoggerKeepsTickets(s, step);
  }

  /** Steps of one logger that keep its kind, call and ticket, and neither close nor take part in reqSentChan. */
  lemma CallsFrame<D>(s: State<D>, t: State<D>, i: nat)
    requires CallsOk(s) && i < |s.loggers| == |t.loggers| && t.reqSent == s.reqSent
    requires forall j :: 0 <= j < |s.loggers| && j != i ==> t.loggers[j] == s.loggers[j]
    requires var l, k := s.loggers[i], t.loggers[i];
             && k.kind == l.kind && k.call == l.call && k.ticket == l.ticket
             && (l.kind == Request ==> k.phase.Done? == l.phase.Done?)
             && (k.phase.AwaitSent? ==> l.phase.AwaitSent?)
             && (k.phase.Released? ==> l.kind == Request)
             && (l.phase.AwaitSent? && !k.phase.AwaitSent? ==> l.call in s.reqSent)
    ensures CallsOk(t)
  {
    forall j: nat | j < |t.loggers| ensures CallOk(t, j) {
      assert CallOk(s, j) && CallOk(s, s.loggers[j].call);
    }
  }

  lemma TakeKeepsCalls<D>(s: State<D>, i: nat)
    requires Enabled(s, TakeTicket(i)) && TicketsOk(s) && CallsOk(s)
    ensures CallsOk(Apply(s, TakeTicket(i)))
  {
    var t := Apply(s, TakeTicket(i));
    forall j: nat | j < |t.loggers| ensures CallOk(t, j) {
      var c := s.loggers[j].call;
      assert CallOk(s, j) && CallOk(s, c);
      assert OwnsTicket(s, j) && OwnsTicket(s, c);
    }
  }

  lemma CloseKeepsCalls<D>(s: State<D>, i: nat)
    requires Enabled(s, CloseSent(i)) && CallsOk(s)
    ensures CallsOk(Apply(s, CloseSent(i)))
  {
    var t := Apply(s, CloseSent(i));
    assert CallOk(s, i);
    forall j: nat | j < |t.loggers| ensures CallOk(t, j) {
      assert CallOk(s, j) && CallOk(s, s.loggers[j].call);
    }
  }

  lemma SpawnKeepsCalls<D>(s: State<D>, l: Logger)
    requires CallsOk(s) && l == NewLogger(l.kind, l.call)
    requires if l.kind == Request then l.call == |s.loggers| else IsCall(s, l.call)
    ensures CallsOk(s.(loggers := s.loggers + [l]))
  {
    var t := s.(loggers := s.loggers + [l]);
    forall j: nat | j < |t.loggers| ensures CallOk(t, j) {
      assert j < |s.loggers| ==> CallOk(s, j) && CallOk(s, s.loggers[j].call);
    }
  }

  lemma OneLoggerKeepsCalls<D>(s: State<D>, step: Step<D>)
    requires Enabled(s, step) && CallsOk(s)
    requires MovesOne(step) && !step.TakeTicket? && !step.CloseSent?
    ensures CallsOk(Apply(s, step))
  {
    assert CallOk(s, step.i);
    CallsFrame(s, Apply(s, step), step.i);
  }

  lemma CallsKept<D>(s: State<D>, step: Step<D>)
    requires Enabled(s, step) && TicketsOk(s) && CallsOk(s)
    ensures CallsOk(Apply(s, step))
  {
    match step
    case NewCall => SpawnKeepsCalls(s, NewLogger(Request, |s.loggers|));
    case SpawnResponse(call) => SpawnKeepsCalls(s, NewLogger(Response, call));
    case SpawnEvent(call) => SpawnKeepsCalls(s, NewLogger(Event, call));
    case TakeTicket(i) => TakeKeepsCalls(s, i);
    case CloseSent(i) => CloseKeepsCalls(s, i);
    case Stop =>
      assert forall j: nat :: j < |s.loggers| ==> CallOk(s, j) == CallOk(Apply(s, Stop), j);
    case _ => OneLoggerKeepsCalls(s, step);
  }

  lemma ChannelsKept<D>(s: State<D>, step: Step<D>)
    requires Enabled(s, step) && Settled(s.queue) && ChannelsOk(s)
    ensures ChannelsOk(Apply(s, step))
  {
    if TouchesQueue(step) {
      SettledMeansNothingToSkip(s.queue);
    } else {
      OtherStepsFrame(s, step);
    }
  }

  /** Steps that leave the queue, the channels and all but one logger alone. */
  lemma WaitersFrame<D>(s: State<D>, t: State<D>, i: nat)
    requires WaitersOk(s) && i < |s.loggers| == |t.loggers|
    requires t.queue == s.queue && t.closed == s.closed && t.nextChan == s.nextChan && t.stopped == s.stopped
    requires forall j :: 0 <= j < |s.loggers| && j != i ==> t.loggers[j] == s.loggers[j]
    requires WaiterOk(t, i)
    ensures WaitersOk(t)
  {
    forall j: nat | j < |t.loggers| ensures WaiterOk(t, j) {
      assert WaiterOk(s, j);
    }
  }

  /** `WaitForSequence` either lets the logger in without touching the queue, or adds its waiter. */
  lemma EnterEffect<D>(s: State<D>, i: nat)
    requires Inv(s) && Enabled(s, EnterWait(i))
    ensures var t, l := Apply(s, EnterWait(i)), s.loggers[i];
            && t.closed == s.closed && t.stopped == s.stopped
            && l.ticket in s.queue.active && l.ticket !in s.queue.waiters
            && if l.ticket == s.queue.next then
                 t.queue == s.queue && t.nextChan == s.nextChan && t.loggers == s.loggers[i := l.(phase := Inside(true))]
               else
                 && t.queue == s.queue.(waiters := s.queue.waiters[l.ticket := s.nextChan])
                 && t.nextChan == s.nextChan + 1
                 && t.loggers == s.loggers[i := l.(phase := Blocked(s.nextChan))]
  {
    assert OwnsTicket(s, i) && WaiterOk(s, i);
    SettledMeansNothingToSkip(s.queue);
  }

  lemma EnterKeepsWaiters<D>(s: State<D>, i: nat)
    requires Inv(s) && Enabled(s, EnterWait(i))
    ensures WaitersOk(Apply(s, EnterWait(i)))
  {
    EnterEffect(s, i);
    assert OwnsTicket(s, i);
    var t := Apply(s, EnterWait(i));
    forall j: nat | j < |t.loggers| ensures WaiterOk(t, j) {
      assert WaiterOk(s, j) && OwnsTicket(s, j);
    }
  }

  lemma RelockKeepsWaiters<D>(s: State<D>, i: nat)
    requires Inv(s) && Enabled(s, Relock(i))
    ensures WaitersOk(Apply(s, Relock(i)))
  {
    var t := Apply(s, Relock(i));
    assert OwnsTicket(s, i);
    forall j: nat | j < |t.loggers| ensures WaiterOk(t, j) {
      assert WaiterOk(s, j) && OwnsTicket(s, j);
    }
  }

  /** Completing one ticket moves the cursor past no other active ticket, and wakes only the one it reaches. */
  lemma CompleteStopsAtActive(q: Queue<nat>, ticket: nat, other: nat)
    requires Settled(q) && ticket in q.active && other in q.active && ticket != other
    ensures var r := Complete(q, ticket);
            && r.next <= other
            && (other == q.next ==> r.next == other)
            && (other in Woken(Finish(q, ticket)) ==> other == r.next)
            && (other in q.waiters && other !in Woken(Finish(q, ticket)) ==> other in r.waiters)
  {
    assert other in Finish(q, ticket).active;
  }

  lemma CompleteKeepsWaiters<D>(s: State<D>, i: nat)
    requires Inv(s) && Enabled(s, CompleteTicket(i))
    ensures WaitersOk(Apply(s, CompleteTicket(i)))
  {
    var t := Apply(s, CompleteTicket(i));
    assert OwnsTicket(s, i) && WaiterOk(s, i);
    forall j: nat | j < |t.loggers| ensures WaiterOk(t, j) {
      assert WaiterOk(s, j) && OwnsTicket(s, j);
      if j != i && Holds(s.loggers[j]) {
        CompleteStopsAtActive(s.queue, s.loggers[i].ticket, s.loggers[j].ticket);
      }
    }
  }

  lemma TakeKeepsWaiters<D>(s: State<D>, i: nat)
    requires Inv(s) && Enabled(s, TakeTicket(i))
    ensures WaitersOk(Apply(s, TakeTicket(i)))
  {
    var t := Apply(s, TakeTicket(i));
    forall j: nat | j < |t.loggers| ensures WaiterOk(t, j) {
      assert WaiterOk(s, j) && OwnsTicket(s, j);
    }
  }

  lemma SpawnKeepsWaiters<D>(s: State<D>, t: State<D>)
    requires WaitersOk(s) && |s.loggers| <= |t.loggers|
    requires t.queue == s.queue && t.closed == s.closed && t.nextChan == s.nextChan
    requires s.stopped ==> t.stopped
    requires forall j :: 0 <= j < |s.loggers| ==> t.loggers[j] == s.loggers[j]
    requires forall j :: |s.loggers| <= j < |t.loggers| ==> Unticketed(t.loggers[j])
    ensures WaitersOk(t)
  {
    forall j: nat | j < |t.loggers| ensures WaiterOk(t, j) {
      assert j < |s.loggers| ==> WaiterOk(s, j);
    }
  }

  lemma OneLoggerKeepsWaiters<D>(s: State<D>, step: Step<D>)
    requires Enabled(s, step) && TicketsOk(s) && WaitersOk(s)
    requires step.ReceiveSent? || step.Decompress? || step.Wake? || step.SeeStop? || step.TimeOut?
          || step.Emit? || step.CloseSent?
    ensures WaitersOk(Apply(s, step))
  {
    assert WaiterOk(s, step.i) && OwnsTicket(s, step.i);
    WaitersFrame(s, Apply(s, step), step.i);
  }

  lemma WaitersKept<D>(s: State<D>, step: Step<D>)
    requires Enabled(s, step) && Inv(s)
    ensures WaitersOk(Apply(s, step))
  {
    match step
    case EnterWait(i) => EnterKeepsWaiters(s, i);
    case Relock(i) => RelockKeepsWaiters(s, i);
    case CompleteTicket(i) => CompleteKeepsWaiters(s, i);
    case TakeTicket(i) => TakeKeepsWaiters(s, i);
    case NewCall => SpawnKeepsWaiters(s, Apply(s, step));
    case SpawnResponse(_) => SpawnKeepsWaiters(s, Apply(s, step));
    case SpawnEvent(_) => SpawnKeepsWaiters(s, Apply(s, step));
    case Stop => SpawnKeepsWaiters(s, Apply(s, step));
    case _ => OneLoggerKeepsWaiters(s, step);
  }

  lemma QueueStepsKeepFates<D>(s: State<D>, step: Step<D>)
    requires Enabled(s, step) && FatesOk(s) && TouchesQueue(step)
    ensures FatesOk(Apply(s, step))
  {
  }

  lemma FatesKept<D>(s: State<D>, step: Step<D>)
    requires Enabled(s, step) && FatesOk(s)
    ensures FatesOk(Apply(s, step))
  {
    if TouchesQueue(step) { QueueStepsKeepFates(s, step); }
  }

  lemma StepKeepsInv<D>(s: State<D>, step: Step<D>)
    requires Inv(s) && Enabled(s, step)
    ensures Inv(Apply(s, step))
  {
    if step.EnterWait? { assert OwnsTicket(s, step.i); }
    QueueKept(s, step);
    TicketsKept(s, step);
    WaitersKept(s, step);
    ChannelsKept(s, step);
    CallsKept(s, step);
    FatesKept(s, step);
  }

  lemma {:induction false} RunKeepsInv<D>(s: State<D>, steps: seq<Step<D>>)
    requires Inv(s) && Legal(s, steps)
    ensures Inv(Execute(s, steps))
    decreases |steps|
  {
    if steps != [] {
      StepKeepsInv(s, steps[0]);
      RunKeepsInv(Apply(s, steps[0]), steps[1..]);
    }
  }

  lemma ReachableInv<D(!new)>(s: State<D>)
    requires Reachable(s)
    ensures Inv(s)
  {
    var steps :| Legal(Init(), steps) && Execute(Init(), steps) == s;
    RunKeepsInv(Init(), steps);
  }

  // ----- What the invariant means for callers.

  /** Between a `WaitForSequence` that returned because the turn came and the matching `CompleteSequence`. */
  predicate InSection(l: Logger) {
    l.phase == Inside(true) || (l.phase == Leaving && l.fate == Logged(true))
  }

  /** At most one logger is in its section; it holds the smallest active ticket, which is the cursor. */
  lemma Exclusion<D(!new)>(s: State<D>, i: nat)
    requires Reachable(s) && i < |s.loggers| && InSection(s.loggers[i])
    ensures s.loggers[i].ticket == s.queue.next && s.loggers[i].ticket in s.queue.active
    ensures forall t <- s.queue.active :: s.loggers[i].ticket <= t
    ensures forall j: nat :: j < |s.loggers| && j != i ==> !InSection(s.loggers[j])
    ensures forall j: nat :: j < |s.loggers| && j != i && s.loggers[j].phase.Inside? ==> s.loggers[j].phase == Inside(false)
  {
    ReachableInv(s);
    assert WaiterOk(s, i) && OwnsTicket(s, i);
    forall j: nat | j < |s.loggers| && j != i ensures !InSection(s.loggers[j]) {
      assert WaiterOk(s, j) && OwnsTicket(s, j);
    }
  }

  /**
   No wakeup is lost: a logger asleep in the select has its open channel in the map under its ticket, the cursor
   has not reached it, and the logger the cursor points at is not asleep. No channel was closed twice.
   */
  lemma NoLostWakeup<D(!new)>(s: State<D>, i: nat)
    requires Reachable(s) && i < |s.loggers|
    ensures !s.panicked
    ensures s.loggers[i].phase.AwaitSent? ==> s.loggers[i].ticket !in s.queue.active
    ensures Asleep(s, s.loggers[i]) ==>
              && s.loggers[i].ticket in s.queue.waiters
              && s.queue.waiters[s.loggers[i].ticket] == s.loggers[i].phase.waiter
              && s.queue.next < s.loggers[i].ticket
              && s.queue.next in s.owners && s.owners[s.queue.next] < |s.loggers|
              && Holds(s.loggers[s.owners[s.queue.next]])
              && !Asleep(s, s.loggers[s.owners[s.queue.next]])
  {
    ReachableInv(s);
    assert WaiterOk(s, i) && OwnsTicket(s, i);
    if Asleep(s, s.loggers[i]) {
      var k := s.owners[s.queue.next];
      assert WaiterOk(s, k) && OwnsTicket(s, k);
    }
  }

  predicate Asleep<D>(s: State<D>, l: Logger) {
    l.phase.Blocked? && l.phase.waiter !in s.closed
  }

  /** Without a stop, the map holds waiters of loggers that are still in the select or its timeout branch only. */
  lemma WaitersAreWatched<D(!new)>(s: State<D>, t: nat)
    requires Reachable(s) && t in s.queue.waiters
    ensures t in s.owners && s.owners[t] < |s.loggers|
    ensures var l := s.loggers[s.owners[t]];
            l.phase.Blocked? || l.phase.Expired? || (s.stopped && l.fate == Abandoned)
  {
    ReachableInv(s);
    assert WaiterOk(s, s.owners[t]) && OwnsTicket(s, s.owners[t]);
  }
}
