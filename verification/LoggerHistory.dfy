/** What the log looks like over whole runs: order of entries, order within a call, and which tickets are missing. */
module LoggerHistory {
  import opened Options
  import opened TicketQueue
  import opened LoggerSystem
  import opened LoggerSafety
  import opened LoggerLiveness

  /** What the request phase of the call has left in the call data. */
  function DataOf<D>(s: State<D>, call: nat): Option<D> {
    if call in s.data then Some(s.data[call]) else None
  }

  /** Entry `p` is the one line its logger wrote. */
  ghost predicate EntryOk<D>(s: State<D>, p: nat)
    requires p < |s.log|
  {
    var e := s.log[p];
    && e.logger < |s.loggers|
    && var l := s.loggers[e.logger];
       && l.ticket == e.ticket && e.ticket != 0 && l.fate == Logged(e.inOrder)
       && (e.inOrder ==> e.ticket <= s.queue.next)
       && (l.kind != Event ==> e.seen == DataOf(s, l.call))
  }

  ghost predicate Wrote<D>(s: State<D>, i: nat) {
    exists p :: 0 <= p < |s.log| && s.log[p].logger == i
  }

  /** Of two entries, the later one has another logger, a later ticket if the first is in order, and is not the request. */
  ghost predicate PairOk<D>(s: State<D>, p: nat, q: nat)
    requires p < q < |s.log| && EntryOk(s, p) && EntryOk(s, q)
  {
    var d, e := s.log[p], s.log[q];
    && d.logger != e.logger
    && (d.inOrder ==> d.ticket < e.ticket)
    && !(s.loggers[d.logger].kind == Response && e.logger == s.loggers[d.logger].call)
  }

  ghost predicate EntriesOk<D>(s: State<D>) {
    forall p: nat :: p < |s.log| ==> EntryOk(s, p)
  }

  ghost predicate HistoryOk<D>(s: State<D>) {
    && EntriesOk(s)
    && (forall p: nat, q: nat :: p < q < |s.log| ==> PairOk(s, p, q))
    && (forall i: nat :: i < |s.loggers| && s.loggers[i].fate.Logged? ==> Wrote(s, i))
    && (forall c <- s.data :: IsCall(s, c) && s.loggers[c].fate.Logged?)
    && (forall i: nat :: i < |s.loggers| && s.loggers[i].kind == Request && s.loggers[i].fate.Logged? ==> i in s.data)
  }

  /** Tickets, fates, kinds and the cursor only ever settle. */
  ghost predicate Later<D>(s: State<D>, t: State<D>) {
    && |s.loggers| <= |t.loggers| && s.queue.next <= t.queue.next
    && forall j: nat :: j < |s.loggers| ==>
         var l, k := s.loggers[j], t.loggers[j];
         && k.kind == l.kind && k.call == l.call
         && (l.ticket != 0 ==> k.ticket == l.ticket)
         && (l.fate != Open ==> k.fate == l.fate)
  }

  lemma QueueStepsAreLater<D>(s: State<D>, step: Step<D>)
    requires Inv(s) && Enabled(s, step) && (step.EnterWait? || step.CompleteTicket?)
    ensures Later(s, Apply(s, step))
  {
    match step
    case EnterWait(_) =>
    case CompleteTicket(_) =>
  }

  lemma TakingIsLater<D>(s: State<D>, i: nat)
    requires Inv(s) && Enabled(s, TakeTicket(i))
    ensures Later(s, Apply(s, TakeTicket(i)))
  {
    assert OwnsTicket(s, i);
  }

  lemma FateStepsAreLater<D>(s: State<D>, step: Step<D>)
    requires Inv(s) && Enabled(s, step) && (step.Decompress? || step.SeeStop? || step.Emit?)
    ensures Later(s, Apply(s, step))
  {
    match step
    case Decompress(_, _) =>
    case SeeStop(_) =>
    case Emit(_, _) =>
  }

  lemma StepsAreLater<D>(s: State<D>, step: Step<D>)
    requires Inv(s) && Enabled(s, step)
    ensures Later(s, Apply(s, step))
  {
    match step
    case EnterWait(_) => QueueStepsAreLater(s, step);
    case CompleteTicket(_) => QueueStepsAreLater(s, step);
    case TakeTicket(i) => TakingIsLater(s, i);
    case Decompress(_, _) => FateStepsAreLater(s, step);
    case SeeStop(_) => FateStepsAreLater(s, step);
    case Emit(_, _) => FateStepsAreLater(s, step);
    case _ =>
  }

  /** Nothing is logged. */
  ghost predicate Quiet<D>(s: State<D>, t: State<D>) {
    && t.log == s.log && t.data == s.data
    && forall j: nat :: j < |t.loggers| && t.loggers[j].fate.Logged? ==>
         j < |s.loggers| && s.loggers[j].fate.Logged?
  }

  lemma QueueStepIsQuiet<D>(s: State<D>, step: Step<D>)
    requires Enabled(s, step) && (step.EnterWait? || step.CompleteTicket?)
    ensures Quiet(s, Apply(s, step))
  {
    match step
    case EnterWait(_) =>
    case CompleteTicket(_) =>
  }

  lemma QuietStep<D>(s: State<D>, step: Step<D>)
    requires Enabled(s, step) && !step.Emit?
    ensures Quiet(s, Apply(s, step))
  {
    if step.EnterWait? || step.CompleteTicket? { QueueStepIsQuiet(s, step); }
  }

  lemma QuietStepKeepsHistory<D>(s: State<D>, t: State<D>)
    requires HistoryOk(s) && Later(s, t) && Quiet(s, t)
    ensures HistoryOk(t)
  {
    forall p: nat | p < |t.log| ensures EntryOk(t, p) {
      assert EntryOk(s, p);
    }
    forall p: nat, q: nat | p < q < |t.log| ensures PairOk(t, p, q) {
      assert PairOk(s, p, q) && EntryOk(s, p);
    }
    forall i: nat | i < |t.loggers| && t.loggers[i].fate.Logged? ensures Wrote(t, i) {
      assert Wrote(s, i);
    }
  }

  /** A logger that is about to write has written nothing; its turn is later than every turn in the log. */
  lemma EmitIsNew<D>(s: State<D>, i: nat, p: nat)
    requires Inv(s) && HistoryOk(s) && i < |s.loggers| && s.loggers[i].phase.Inside? && p < |s.log|
    ensures s.log[p].logger != i && s.log[p].logger < |s.loggers|
    ensures s.log[p].inOrder ==> s.log[p].ticket < s.loggers[i].ticket
    ensures s.loggers[s.log[p].logger].kind == Response ==> s.loggers[s.log[p].logger].call != i
    ensures s.loggers[s.log[p].logger].kind != Event ==>
              s.loggers[i].kind == Request ==> s.loggers[s.log[p].logger].call != i
  {
    assert EntryOk(s, p);
    var j := s.log[p].logger;
    assert WaiterOk(s, i) && OwnsTicket(s, i) && OwnsTicket(s, j) && CallOk(s, j) && CallOk(s, i);
  }

  lemma EmitKeepsEntries<D>(s: State<D>, i: nat, d: D)
    requires Inv(s) && HistoryOk(s) && Enabled(s, Emit(i, d))
    ensures EntriesOk(Apply(s, Emit(i, d)))
  {
    var t := Apply(s, Emit(i, d));
    assert WaiterOk(s, i) && OwnsTicket(s, i) && CallOk(s, i);
    forall p: nat | p < |t.log| ensures EntryOk(t, p) {
      if p < |s.log| {
        assert t.log[p] == s.log[p] && EntryOk(s, p);
        EmitIsNew(s, i, p);
      }
    }
  }

  lemma EmitKeepsPairs<D>(s: State<D>, i: nat, d: D)
    requires Inv(s) && HistoryOk(s) && Enabled(s, Emit(i, d)) && EntriesOk(Apply(s, Emit(i, d)))
    ensures var t := Apply(s, Emit(i, d)); forall p: nat, q: nat :: p < q < |t.log| ==> PairOk(t, p, q)
  {
    var t := Apply(s, Emit(i, d));
    forall p: nat, q: nat | p < q < |t.log| ensures PairOk(t, p, q) {
      assert EntryOk(t, p) && EntryOk(t, q) && t.log[p] == s.log[p] && EntryOk(s, p);
      if q < |s.log| {
        assert t.log[q] == s.log[q] && PairOk(s, p, q);
      } else {
        EmitIsNew(s, i, p);
      }
    }
  }

  lemma EmitKeepsHistory<D>(s: State<D>, i: nat, d: D)
    requires Inv(s) && HistoryOk(s) && Enabled(s, Emit(i, d))
    ensures HistoryOk(Apply(s, Emit(i, d)))
  {
    var t := Apply(s, Emit(i, d));
    EmitKeepsEntries(s, i, d);
    EmitKeepsPairs(s, i, d);
    forall j: nat | j < |t.loggers| && t.loggers[j].fate.Logged? ensures Wrote(t, j) {
      if j == i {
        assert t.log[|s.log|].logger == i;
      } else {
        assert Wrote(s, j);
        var p :| 0 <= p < |s.log| && s.log[p].logger == j;
        assert t.log[p].logger == j;
      }
    }
    assert CallOk(s, i);
  }

  lemma StepKeepsHistory<D>(s: State<D>, step: Step<D>)
    requires Inv(s) && HistoryOk(s) && Enabled(s, step)
    ensures HistoryOk(Apply(s, step))
  {
    if step.Emit? {
      EmitKeepsHistory(s, step.i, step.d);
    } else {
      StepsAreLater(s, step);
      QuietStep(s, step);
      QuietStepKeepsHistory(s, Apply(s, step));
    }
  }

  lemma {:induction false} RunKeepsHistory<D>(s: State<D>, steps: seq<Step<D>>)
    requires Inv(s) && HistoryOk(s) && Legal(s, steps)
    ensures Inv(Execute(s, steps)) && HistoryOk(Execute(s, steps))
    decreases |steps|
  {
    if steps != [] {
      StepKeepsInv(s, steps[0]);
      StepKeepsHistory(s, steps[0]);
      RunKeepsHistory(Apply(s, steps[0]), steps[1..]);
    }
  }

  lemma ReachableHistory<D(!new)>(s: State<D>)
    requires Reachable(s)
    ensures Inv(s) && HistoryOk(s)
  {
    var steps :| Legal(Init(), steps) && Execute(Init(), steps) == s;
    RunKeepsHistory(Init(), steps);
  }

  // ----- Results over every run, with any timeouts and stops.

  /**
   First in, first out: every entry after that of a logger whose turn came has a larger ticket, whether its own logger
   waited for its turn or timed out.
   */
  lemma InOrderEntriesIncrease<D(!new)>(s: State<D>, p: nat, q: nat)
    requires Reachable(s) && p < q < |s.log| && s.log[p].inOrder
    ensures s.log[p].ticket < s.log[q].ticket
  {
    ReachableHistory(s);
    assert PairOk(s, p, q);
  }

  /**
   Once a response logger has passed its receive, the request logger of its call has released its ticket, an
   earlier one, for good.
   */
  lemma RequestReleasedBeforeResponse<D(!new)>(s: State<D>, i: nat)
    requires Reachable(s) && i < |s.loggers| && s.loggers[i].kind == Response && !s.loggers[i].phase.AwaitSent?
    ensures var c := s.loggers[i].call;
            && IsCall(s, c) && s.loggers[c].phase == Done && s.loggers[c].ticket !in s.queue.active
            && (s.loggers[i].ticket != 0 ==> 0 < s.loggers[c].ticket < s.loggers[i].ticket)
  {
    ReachableInv(s);
    assert CallOk(s, i) && CallOk(s, s.loggers[i].call) && OwnsTicket(s, s.loggers[i].call);
  }

  /**
   In the log, a request comes before the response of its call, and the response saw all the data the request phase
   left, exactly as it left it, or none when the request was not logged.
   */
  lemma RequestLoggedBeforeResponse<D(!new)>(s: State<D>, q: nat)
    requires Reachable(s) && q < |s.log| && s.log[q].logger < |s.loggers|
    requires s.loggers[s.log[q].logger].kind == Response
    ensures var c := s.loggers[s.log[q].logger].call;
            && IsCall(s, c)
            && (s.log[q].seen == None <==> !s.loggers[c].fate.Logged?)
            && forall p: nat :: p < |s.log| && s.log[p].logger == c ==>
                 p < q && s.log[p].seen == s.log[q].seen && s.log[p].ticket < s.log[q].ticket
  {
    ReachableHistory(s);
    var i := s.log[q].logger;
    var c := s.loggers[i].call;
    assert EntryOk(s, q) && CallOk(s, i) && CallOk(s, c);
    forall p: nat | p < |s.log| && s.log[p].logger == c
      ensures p < q && s.log[p].seen == s.log[q].seen && s.log[p].ticket < s.log[q].ticket
    {
      assert EntryOk(s, p);
      assert q < p ==> PairOk(s, q, p);
    }
  }

  /** Each logger writes at most one line; the ones that write are those let through, in time or by the timer. */
  lemma LoggedExactlyOnce<D(!new)>(s: State<D>, i: nat)
    requires Reachable(s) && i < |s.loggers|
    ensures s.loggers[i].fate.Logged? <==> Wrote(s, i)
    ensures forall p: nat, q: nat :: p < q < |s.log| ==> s.log[p].logger != s.log[q].logger
  {
    ReachableHistory(s);
    forall p: nat, q: nat | p < q < |s.log| ensures s.log[p].logger != s.log[q].logger {
      assert PairOk(s, p, q);
    }
    if Wrote(s, i) {
      var p: nat :| p < |s.log| && s.log[p].logger == i;
      assert EntryOk(s, p);
    }
  }

  // ----- Runs without timeouts and without the stop.

  predicate Bypasses<D>(step: Step<D>) {
    step.TimeOut? || step.Stop?
  }

  ghost predicate NoBypass<D>(steps: seq<Step<D>>) {
    forall step <- steps :: !Bypasses(step)
  }

  /** No logger has left the queue's discipline. */
  ghost predicate Clean<D>(s: State<D>) {
    && !s.stopped
    && forall i: nat :: i < |s.loggers| ==>
         var l := s.loggers[i];
         && l.phase != Expired && l.phase != Inside(false)
         && l.fate != Abandoned && l.fate != Logged(false)
  }

  lemma StepKeepsClean<D>(s: State<D>, step: Step<D>)
    requires Clean(s) && Enabled(s, step) && !Bypasses(step)
    ensures Clean(Apply(s, step))
  {
    match step
    case EnterWait(_) =>
    case CompleteTicket(_) =>
    case Emit(_, _) =>
    case TakeTicket(_) =>
    case _ =>
  }

  lemma {:induction false} RunKeepsClean<D>(s: State<D>, steps: seq<Step<D>>)
    requires Clean(s) && Legal(s, steps) && NoBypass(steps)
    ensures Clean(Execute(s, steps))
    decreases |steps|
  {
    if steps != [] {
      StepKeepsClean(s, steps[0]);
      RunKeepsClean(Apply(s, steps[0]), steps[1..]);
    }
  }

  function LogTickets<D>(s: State<D>): seq<nat> {
    seq(|s.log|, p requires 0 <= p < |s.log| => s.log[p].ticket)
  }

  /** The tickets whose bodies could be decoded, or have not been tried yet. */
  ghost function Decodable<D>(s: State<D>): set<nat> {
    set t | t in s.owners && s.owners[t] < |s.loggers| && s.loggers[s.owners[t]].fate != Undecodable
  }

  lemma CleanTicketIsLogged<D>(s: State<D>, t: nat)
    requires Inv(s) && HistoryOk(s) && Clean(s)
    ensures t in LogTickets(s) ==> t in Decodable(s) && t <= s.queue.next
    ensures t in Decodable(s) && t < s.queue.next ==> t in LogTickets(s)
  {
    if t in LogTickets(s) {
      var p: nat :| p < |s.log| && s.log[p].ticket == t;
      assert EntryOk(s, p) && OwnsTicket(s, s.log[p].logger);
    }
    if t in Decodable(s) && t < s.queue.next {
      var i := s.owners[t];
      assert OwnsTicket(s, i) && s.loggers[i].fate == Logged(true);
      assert Wrote(s, i);
      var p: nat :| p < |s.log| && s.log[p].logger == i;
      assert EntryOk(s, p);
      assert LogTickets(s)[p] == t;
    }
  }

  lemma CleanLogIncreases<D>(s: State<D>)
    requires Inv(s) && HistoryOk(s) && Clean(s)
    ensures Increasing(LogTickets(s))
  {
    forall p: nat, q: nat | p < q < |s.log| ensures LogTickets(s)[p] < LogTickets(s)[q] {
      assert PairOk(s, p, q) && EntryOk(s, p) && EntryOk(s, q);
    }
  }

  lemma CleanLogIsComplete<D>(s: State<D>)
    requires Inv(s) && HistoryOk(s) && Clean(s) && AllDone(s)
    ensures LogTickets(s) == Ascending(Decodable(s), 0, s.queue.counter + 1)
  {
    CleanLogIncreases(s);
    NothingLeft(s);
    forall t: nat ensures t in LogTickets(s) <==> t in Decodable(s) && t <= s.queue.counter {
      CleanTicketIsLogged(s, t);
    }
    IncreasingUnique(LogTickets(s), Ascending(Decodable(s), 0, s.queue.counter + 1));
  }

  /** The same in terms of what has become of the tickets; `LoggerTraces` says it in terms of the steps taken. */
  lemma CleanLogByFate<D>(s: State<D>, steps: seq<Step<D>>)
    requires Legal(Init(), steps) && Execute(Init(), steps) == s && NoBypass(steps)
    ensures Increasing(LogTickets(s))
    ensures forall t <- LogTickets(s) :: t in Decodable(s) && t <= s.queue.next
    ensures forall t <- Decodable(s) :: t < s.queue.next ==> t in LogTickets(s)
    ensures AllDone(s) ==> LogTickets(s) == Ascending(Decodable(s), 0, s.queue.counter + 1)
  {
    RunKeepsHistory(Init(), steps);
    RunKeepsClean(Init(), steps);
    CleanLogIncreases(s);
    forall t: nat
      ensures t in LogTickets(s) ==> t in Decodable(s) && t <= s.queue.next
      ensures t in Decodable(s) && t < s.queue.next ==> t in LogTickets(s)
    {
      CleanTicketIsLogged(s, t);
    }
    if AllDone(s) { CleanLogIsComplete(s); }
  }
}
