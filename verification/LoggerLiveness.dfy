/** The logger system never gets stuck and every run of it ends, without help from timeouts or the stop. */
module LoggerLiveness {
  import opened LoggerSystem
  import opened LoggerSafety

  /** Steps the loggers take by themselves: no timer, no stop, no new call. */
  predicate OwnStep<D>(step: Step<D>) {
    MovesOne(step) && !step.TimeOut? && !step.SeeStop?
  }

  predicate AllDone<D>(s: State<D>) {
    forall i :: 0 <= i < |s.loggers| ==> s.loggers[i].phase == Done
  }

  /** The step a logger takes next when it does not have to wait for another one; `d` is what it would leave. */
  function NextStep<D>(s: State<D>, i: nat, d: D): Step<D>
    requires i < |s.loggers|
  {
    match s.loggers[i].phase
    case AwaitSent => ReceiveSent(i)
    case Starting => TakeTicket(i)
    case Ticketed => Decompress(i, true)
    case Ready => EnterWait(i)
    case Blocked(_) => Wake(i)
    case Expired => Relock(i)
    case Inside(_) => Emit(i, d)
    case Leaving => CompleteTicket(i)
    case _ => CloseSent(i)
  }

  /** The only reasons to wait are an open waiter channel and an open reqSentChan. */
  predicate Waits<D>(s: State<D>, i: nat)
    requires i < |s.loggers|
  {
    Asleep(s, s.loggers[i]) || (s.loggers[i].phase.AwaitSent? && s.loggers[i].call !in s.reqSent)
  }

  /** Whoever waits, waits (directly or through one other logger) for a logger that can move. */
  lemma SomeLoggerMoves<D(!new)>(s: State<D>, i: nat) returns (j: nat)
    requires Reachable(s) && i < |s.loggers| && s.loggers[i].phase != Done
    ensures j < |s.loggers| && s.loggers[j].phase != Done && !Waits(s, j)
  {
    ReachableInv(s);
    j := i;
    if s.loggers[j].phase.AwaitSent? && s.loggers[j].call !in s.reqSent {
      assert CallOk(s, j) && CallOk(s, s.loggers[j].call);
      j := s.loggers[j].call;
    }
    assert CallOk(s, j);
    if Asleep(s, s.loggers[j]) {
      NoLostWakeup(s, j);
      j := s.owners[s.queue.next];
    }
  }

  /** Deadlock freedom: while some logger is unfinished, some own step is enabled. */
  lemma DeadlockFree<D(!new, 00)>(s: State<D>)
    requires Reachable(s) && !AllDone(s)
    ensures exists step :: OwnStep(step) && Enabled(s, step)
  {
    ReachableInv(s);
    var i: nat :| i < |s.loggers| && s.loggers[i].phase != Done;
    var j := SomeLoggerMoves(s, i);
    var d: D := *;
    assert OwnStep(NextStep(s, j, d)) && Enabled(s, NextStep(s, j, d));
  }

  // ----- Termination.

  function Rank(p: Phase): nat {
    match p
    case AwaitSent => 9
    case Starting => 8
    case Ticketed => 7
    case Ready => 6
    case Blocked(_) => 5
    case Expired => 4
    case Inside(_) => 3
    case Leaving => 2
    case Released => 1
    case Done => 0
  }

  function TotalRank(ls: seq<Logger>): nat {
    if ls == [] then 0 else Rank(ls[0].phase) + TotalRank(ls[1..])
  }

  function Measure<D>(s: State<D>): nat {
    TotalRank(s.loggers) + if s.stopped then 0 else 1
  }

  lemma {:induction false} TotalRankUpdate(ls: seq<Logger>, i: nat, l: Logger)
    requires i < |ls|
    ensures TotalRank(ls[i := l]) == TotalRank(ls) - Rank(ls[i].phase) + Rank(l.phase)
  {
    if i == 0 {
      assert ls[0 := l][1..] == ls[1..];
    } else {
      TotalRankUpdate(ls[1..], i - 1, l);
      assert ls[i := l][1..] == ls[1..][i - 1 := l];
    }
  }

  lemma {:induction false} TotalRankAppend(ls: seq<Logger>, l: Logger)
    ensures TotalRank(ls + [l]) == TotalRank(ls) + Rank(l.phase)
  {
    if ls == [] {
      assert ls + [l] == [l];
    } else {
      TotalRankAppend(ls[1..], l);
      assert (ls + [l])[1..] == ls[1..] + [l];
    }
  }

  predicate Spawns<D>(step: Step<D>) {
    step.NewCall? || step.SpawnResponse? || step.SpawnEvent?
  }

  lemma MovingLowersRank<D>(s: State<D>, step: Step<D>)
    requires Enabled(s, step) && MovesOne(step)
    ensures var t := Apply(s, step);
            && t.stopped == s.stopped && |t.loggers| == |s.loggers|
            && t.loggers == s.loggers[step.i := t.loggers[step.i]]
            && Rank(t.loggers[step.i].phase) < Rank(s.loggers[step.i].phase)
  {
    match step
    case EnterWait(_) =>
    case CompleteTicket(_) =>
    case Emit(_, _) =>
    case _ =>
  }

  /** Every step other than a spawn lowers the measure; a spawn adds at most one logger's worth. */
  lemma StepLowersMeasure<D>(s: State<D>, step: Step<D>)
    requires Enabled(s, step)
    ensures !Spawns(step) ==> Measure(Apply(s, step)) < Measure(s)
    ensures Spawns(step) ==> Measure(Apply(s, step)) <= Measure(s) + 9
  {
    var t := Apply(s, step);
    if Spawns(step) {
      TotalRankAppend(s.loggers, t.loggers[|s.loggers|]);
    } else if MovesOne(step) {
      MovingLowersRank(s, step);
      TotalRankUpdate(s.loggers, step.i, t.loggers[step.i]);
    }
  }

  function SpawnCount<D>(steps: seq<Step<D>>): nat {
    if steps == [] then 0 else (if Spawns(steps[0]) then 1 else 0) + SpawnCount(steps[1..])
  }

  /** A run is at most ten steps per logger started, plus what was left to do at its start. */
  lemma {:induction false} RunsAreBounded<D>(s: State<D>, steps: seq<Step<D>>)
    requires Legal(s, steps)
    ensures |steps| + Measure(Execute(s, steps)) <= Measure(s) + 10 * SpawnCount(steps)
    decreases |steps|
  {
    if steps != [] {
      StepLowersMeasure(s, steps[0]);
      RunsAreBounded(Apply(s, steps[0]), steps[1..]);
    }
  }

  lemma NothingLeft<D>(s: State<D>)
    requires Inv(s) && AllDone(s)
    ensures s.queue.active == {} && s.queue.waiters == map[]
    ensures s.queue.next == s.queue.counter + 1 && s.skips == s.queue.counter
  {
    assert forall t <- s.queue.active :: t in s.owners;
    assert forall t <- s.owners :: OwnsTicket(s, s.owners[t]) && s.loggers[s.owners[t]].phase == Done;
    assert s.queue.active == {};
  }

  /**
   Where a run can go no further by own steps, every logger is done, no ticket is active, the cursor has passed
   every ticket, no waiter is left (even after a stop), and the skip loop has run once per ticket.
   */
  lemma RunsEndComplete<D(!new, 00)>(s: State<D>)
    requires Reachable(s)
    requires forall step :: OwnStep(step) ==> !Enabled(s, step)
    ensures AllDone(s)
    ensures s.queue.active == {} && s.queue.waiters == map[]
    ensures s.queue.next == s.queue.counter + 1 && s.skips == s.queue.counter
  {
    if !AllDone(s) { DeadlockFree(s); }
    ReachableInv(s);
    NothingLeft(s);
  }

  /** From every reachable state the loggers can finish by own steps alone, in at most `Measure(s)` steps. */
  lemma {:induction false} CanAlwaysFinish<D(!new, 00)>(s: State<D>) returns (steps: seq<Step<D>>)
    requires Reachable(s)
    ensures Legal(s, steps) && (forall step <- steps :: OwnStep(step))
    ensures AllDone(Execute(s, steps)) && |steps| <= Measure(s)
    decreases Measure(s)
  {
    if AllDone(s) {
      steps := [];
    } else {
      DeadlockFree(s);
      var step :| OwnStep(step) && Enabled(s, step);
      StepLowersMeasure(s, step);
      ReachableExtends(s, step);
      var rest := CanAlwaysFinish(Apply(s, step));
      steps := [step] + rest;
    }
  }

  lemma {:induction false} LegalAppend<D>(s: State<D>, steps: seq<Step<D>>, step: Step<D>)
    requires Legal(s, steps) && Enabled(Execute(s, steps), step)
    ensures Legal(s, steps + [step]) && Execute(s, steps + [step]) == Apply(Execute(s, steps), step)
    decreases |steps|
  {
    if steps == [] {
      assert steps + [step] == [step];
    } else {
      LegalAppend(Apply(s, steps[0]), steps[1..], step);
      assert (steps + [step])[1..] == steps[1..] + [step];
    }
  }

  lemma ReachableExtends<D(!new)>(s: State<D>, step: Step<D>)
    requires Reachable(s) && Enabled(s, step)
    ensures Reachable(Apply(s, step))
  {
    var steps :| Legal(Init(), steps) && Execute(Init(), steps) == s;
    LegalAppend(Init(), steps, step);
  }

  /** What the world can do at any time: start calls and their responses, let a timer run out, stop. */
  lemma AnythingCanHappen<D>(s: State<D>, i: nat)
    ensures Enabled(s, NewCall) && (Enabled(s, Stop) <==> !s.stopped)
    ensures IsCall(s, i) ==> Enabled(s, SpawnResponse(i)) && Enabled(s, SpawnEvent(i))
    ensures i < |s.loggers| && s.loggers[i].phase.Blocked? ==>
              Enabled(s, TimeOut(i)) && (Enabled(s, SeeStop(i)) <==> s.stopped)
    ensures i < |s.loggers| && s.loggers[i].phase.Ticketed? ==>
              Enabled(s, Decompress(i, true)) && Enabled(s, Decompress(i, false))
  {
  }

  /** A call's request logger starts at once, its response logger by waiting for the request. */
  lemma Spawned<D>(s: State<D>, call: nat)
    ensures Apply(s, NewCall).loggers == s.loggers + [Logger(Request, |s.loggers|, 0, Starting, Open)]
    ensures IsCall(s, call) ==>
              && Apply(s, SpawnResponse(call)).loggers == s.loggers + [Logger(Response, call, 0, AwaitSent, Open)]
              && Apply(s, SpawnEvent(call)).loggers == s.loggers + [Logger(Event, call, 0, Starting, Open)]
  {
  }
}
