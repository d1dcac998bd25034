/** What the steps a run has taken say about its log and the call data. */
module LoggerTraces {
  import opened TicketQueue
  import opened LoggerSystem
  import opened LoggerSafety
  import opened LoggerLiveness
  import opened LoggerHistory

  predicate TimedOut(l: Logger) {
    l.phase == Expired || l.phase == Inside(false) || l.fate == Logged(false)
  }

  /** The logger has decoded a body: it has come past `Ticketed`, where events never are. */
  predicate HasDecoded(l: Logger) {
    && l.kind != Event
    && (l.phase.Ready? || l.phase.Blocked? || l.phase.Expired? || l.phase.Inside? || l.fate.Abandoned? || l.fate.Logged?)
  }

  /** What a logger has been through: its body was decoded, or was not; it left on the stop; it took the timeout branch. */
  datatype Marks = Marks(decoded: bool, undecodable: bool, abandoned: bool, timedOut: bool)

  function MarksOf<D>(s: State<D>, i: nat): Marks {
    if i < |s.loggers| then
      var l := s.loggers[i];
      Marks(HasDecoded(l), l.fate == Undecodable, l.fate == Abandoned, TimedOut(l))
    else Marks(false, false, false, false)
  }

  /** The marks that steps leave on logger `i`. */
  ghost function Marked<D>(steps: seq<Step<D>>, i: nat): Marks {
    Marks(Decompress(i, true) in steps, Decompress(i, false) in steps, SeeStop(i) in steps, TimeOut(i) in steps)
  }

  function Both(a: Marks, b: Marks): Marks {
    Marks(a.decoded || b.decoded, a.undecodable || b.undecodable, a.abandoned || b.abandoned, a.timedOut || b.timedOut)
  }

  /** Events have nothing to decode. */
  ghost predicate EventsGoOn<D>(s: State<D>) {
    forall i: nat :: i < |s.loggers| && s.loggers[i].phase.Ticketed? ==> s.loggers[i].kind != Event
  }

  lemma EntersGoOn<D>(s: State<D>, step: Step<D>)
    requires EventsGoOn(s) && Enabled(s, step) && (step.EnterWait? || step.CompleteTicket?)
    ensures EventsGoOn(Apply(s, step))
  {
    match step
    case EnterWait(_) =>
    case CompleteTicket(_) =>
  }

  lemma StepGoesOn<D>(s: State<D>, step: Step<D>)
    requires EventsGoOn(s) && Enabled(s, step)
    ensures EventsGoOn(Apply(s, step))
  {
    if step.EnterWait? || step.CompleteTicket? { EntersGoOn(s, step); }
  }

  lemma EnterMarksNothing<D>(s: State<D>, j: nat, i: nat)
    requires Inv(s) && Enabled(s, EnterWait(j))
    ensures MarksOf(Apply(s, EnterWait(j)), i) == MarksOf(s, i)
  {
    EnterEffect(s, j);
  }

  lemma QueueStepMarksNothing<D>(s: State<D>, step: Step<D>, i: nat)
    requires Inv(s) && Enabled(s, step) && (step.CompleteTicket? || step.TakeTicket?)
    ensures MarksOf(Apply(s, step), i) == MarksOf(s, i)
  {
    match step
    case CompleteTicket(_) =>
    case TakeTicket(_) =>
  }

  lemma MarkingStep<D>(s: State<D>, step: Step<D>, i: nat)
    requires Inv(s) && EventsGoOn(s) && Enabled(s, step) && (step.Decompress? || step.SeeStop? || step.TimeOut?)
    ensures MarksOf(Apply(s, step), i) == Both(MarksOf(s, i), Marked([step], i))
  {
    match step
    case Decompress(_, _) =>
    case SeeStop(_) =>
    case TimeOut(_) =>
  }

  lemma OtherStepMarksNothing<D>(s: State<D>, step: Step<D>, i: nat)
    requires Inv(s) && Enabled(s, step) && !step.EnterWait? && !step.CompleteTicket? && !step.TakeTicket?
    requires !step.Decompress? && !step.SeeStop? && !step.TimeOut?
    ensures MarksOf(Apply(s, step), i) == MarksOf(s, i)
  {
  }

  lemma StepMarks<D>(s: State<D>, step: Step<D>, i: nat)
    requires Inv(s) && EventsGoOn(s) && Enabled(s, step)
    ensures MarksOf(Apply(s, step), i) == Both(MarksOf(s, i), Marked([step], i))
  {
    if step.EnterWait? {
      EnterMarksNothing(s, step.i, i);
    } else if step.CompleteTicket? || step.TakeTicket? {
      QueueStepMarksNothing(s, step, i);
    } else if step.Decompress? || step.SeeStop? || step.TimeOut? {
      MarkingStep(s, step, i);
    } else {
      OtherStepMarksNothing(s, step, i);
    }
  }

  /** A run marks exactly the loggers whose steps say so. */
  lemma {:induction false} RunMarks<D>(s: State<D>, steps: seq<Step<D>>, i: nat)
    requires Inv(s) && EventsGoOn(s) && Legal(s, steps)
    ensures EventsGoOn(Execute(s, steps))
    ensures MarksOf(Execute(s, steps), i) == Both(MarksOf(s, i), Marked(steps, i))
    decreases |steps|
  {
    if steps != [] {
      StepKeepsInv(s, steps[0]);
      StepGoesOn(s, steps[0]);
      StepMarks(s, steps[0], i);
      RunMarks(Apply(s, steps[0]), steps[1..], i);
      assert steps == [steps[0]] + steps[1..];
    }
  }

  lemma StepData<D>(s: State<D>, step: Step<D>, c: nat)
    requires Inv(s) && Enabled(s, step) && c in Apply(s, step).data
    ensures (c in s.data && Apply(s, step).data[c] == s.data[c]) || step == Emit(c, Apply(s, step).data[c])
  {
    if step.Emit? {
      assert CallOk(s, step.i);
    } else {
      QuietStep(s, step);
    }
  }

  lemma {:induction false} RunData<D>(s: State<D>, steps: seq<Step<D>>, c: nat)
    requires Inv(s) && Legal(s, steps) && c in Execute(s, steps).data
    ensures (c in s.data && Execute(s, steps).data[c] == s.data[c]) || Emit(c, Execute(s, steps).data[c]) in steps
    decreases |steps|
  {
    if steps != [] {
      var t := Apply(s, steps[0]);
      StepKeepsInv(s, steps[0]);
      RunData(t, steps[1..], c);
      if Emit(c, Execute(s, steps).data[c]) !in steps[1..] { StepData(s, steps[0], c); }
    }
  }

  // ----- Runs from the start.

  /**
   A logger whose body does not decode, or that leaves on the stop, never writes a line, and leaves no call data.
   Every other logger has written its line when it is done. Requests and responses that write one have decoded their
   bodies first; events have none to decode.
   */
  lemma WhoWrites<D>(s: State<D>, steps: seq<Step<D>>, i: nat)
    requires Legal(Init(), steps) && Execute(Init(), steps) == s
    ensures Decompress(i, false) in steps || SeeStop(i) in steps ==> !Wrote(s, i) && i !in s.data
    ensures i < |s.loggers| && s.loggers[i].phase.Done? ==>
              (Wrote(s, i) <==> Decompress(i, false) !in steps && SeeStop(i) !in steps)
    ensures i < |s.loggers| && Wrote(s, i) ==> (s.loggers[i].kind != Event <==> Decompress(i, true) in steps)
  {
    RunKeepsHistory(Init(), steps);
    RunMarks(Init(), steps, i);
    if Wrote(s, i) {
      var p: nat :| p < |s.log| && s.log[p].logger == i;
      assert EntryOk(s, p);
    }
  }

  /** A line is out of turn exactly if its logger took the timeout branch. */
  lemma InOrderIff<D>(s: State<D>, steps: seq<Step<D>>, p: nat)
    requires Legal(Init(), steps) && Execute(Init(), steps) == s && p < |s.log|
    ensures s.log[p].inOrder <==> TimeOut(s.log[p].logger) !in steps
  {
    RunKeepsHistory(Init(), steps);
    assert EntryOk(s, p);
    RunMarks(Init(), steps, s.log[p].logger);
  }

  /** The call data is what the end of the request phase left. */
  lemma DataIsLeftByRequest<D>(s: State<D>, steps: seq<Step<D>>, c: nat)
    requires Legal(Init(), steps) && Execute(Init(), steps) == s
    ensures c in s.data ==> Emit(c, s.data[c]) in steps
    ensures c in s.data <==> IsCall(s, c) && Wrote(s, c)
  {
    RunKeepsHistory(Init(), steps);
    if c in s.data { RunData(Init(), steps, c); }
    if Wrote(s, c) {
      var p: nat :| p < |s.log| && s.log[p].logger == c;
      assert EntryOk(s, p);
    }
  }

  /** The tickets whose owners have not failed to decode their bodies. */
  ghost function Decoded<D>(s: State<D>, steps: seq<Step<D>>): set<nat> {
    set t | t in s.owners && Decompress(s.owners[t], false) !in steps
  }

  /**
   With no timeout and no stop, the log is in ticket order, complete up to the cursor, and in the end consists of
   exactly the tickets whose owners decoded their bodies.
   */
  lemma CleanLogIsTicketOrder<D>(s: State<D>, steps: seq<Step<D>>)
    requires Legal(Init(), steps) && Execute(Init(), steps) == s && NoBypass(steps)
    ensures Increasing(LogTickets(s))
    ensures forall t <- LogTickets(s) :: t in Decoded(s, steps) && t <= s.queue.next
    ensures forall t <- Decoded(s, steps) :: t < s.queue.next ==> t in LogTickets(s)
    ensures AllDone(s) ==> LogTickets(s) == Ascending(Decoded(s, steps), 0, s.queue.counter + 1)
  {
    CleanLogByFate(s, steps);
    RunKeepsHistory(Init(), steps);
    forall t: nat ensures t in Decoded(s, steps) <==> t in Decodable(s) {
      if t in s.owners { RunMarks(Init(), steps, s.owners[t]); }
    }
    assert Decoded(s, steps) == Decodable(s);
  }
}
