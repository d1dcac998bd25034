/**
 The loggers of all proxied calls as a transition system over the ticket queue.

 A call starts with its request logger, so the call is named by the index of that logger. Response and event
 loggers of the call start later, in any number and order. Every step is one atomic action of one goroutine:
 a critical section, a channel operation, or a stretch of code that touches nothing shared.
 */
module LoggerSystem {
  import opened Options
  import opened TicketQueue

  datatype Kind = Request | Response | Event

  /** Where a logger is. The comment gives what it does next. */
  datatype Phase =
    | AwaitSent                 // response only: receive from reqSentChan
    | Starting                  // GetNextSequence
    | Ticketed                  // decompress the body (request and response)
    | Ready                     // first critical section of WaitForSequence
    | Blocked(waiter: nat)      // the select
    | Expired                   // timer branch taken: lock again and delete the waiter
    | Inside(granted: bool)     // build, hand to modules and emit the log entry
    | Leaving                   // the deferred CompleteSequence
    | Released                  // request only: close reqSentChan
    | Done

  /** How the ticket was used, once that is decided. */
  datatype Fate = Open | Undecodable | Abandoned | Logged(inOrder: bool)

  /** `ticket` is 0 until one is taken. */
  datatype Logger = Logger(kind: Kind, call: nat, ticket: nat, phase: Phase, fate: Fate)

  /** A log line: who wrote it, and the call data at that moment; none if the request phase left none. */
  datatype Entry<D> = Entry(ticket: nat, logger: nat, inOrder: bool, seen: Option<D>)

  /**
   `owners[t]` took ticket `t`. `closed` and `nextChan` are the waiter channels closed and made so far,
   `reqSent` the calls whose reqSentChan is closed, `data` what the request phases have left in the call data,
   `skips` the iterations of the skip loop so far. `panicked` says that a closed channel was closed again.
   */
  datatype State<D> = State(
    queue: Queue<nat>,
    stopped: bool,
    nextChan: nat,
    closed: set<nat>,
    loggers: seq<Logger>,
    owners: map<nat, nat>,
    reqSent: set<nat>,
    data: map<nat, D>,
    log: seq<Entry<D>>,
    skips: nat,
    panicked: bool)

  datatype Step<D> =
    | NewCall
    | SpawnResponse(call: nat)
    | SpawnEvent(call: nat)
    | ReceiveSent(i: nat)
    | TakeTicket(i: nat)
    | Decompress(i: nat, ok: bool)
    | EnterWait(i: nat)
    | Wake(i: nat)
    | SeeStop(i: nat)
    | TimeOut(i: nat)
    | Relock(i: nat)
    | Emit(i: nat, d: D)
    | CompleteTicket(i: nat)
    | CloseSent(i: nat)
    | Stop

  function Init<D>(): State<D> {
    State(Empty(), false, 0, {}, [], map[], {}, map[], [], 0, false)
  }

  predicate IsCall<D>(s: State<D>, call: nat) {
    call < |s.loggers| && s.loggers[call].kind == Request
  }

  predicate Enabled<D>(s: State<D>, step: Step<D>) {
    match step
    case NewCall => true
    case SpawnResponse(call) => IsCall(s, call)
    case SpawnEvent(call) => IsCall(s, call)
    case ReceiveSent(i) =>
      i < |s.loggers| && s.loggers[i].phase == AwaitSent && s.loggers[i].call in s.reqSent
    case TakeTicket(i) => i < |s.loggers| && s.loggers[i].phase == Starting
    case Decompress(i, _) => i < |s.loggers| && s.loggers[i].phase == Ticketed
    case EnterWait(i) => i < |s.loggers| && s.loggers[i].phase == Ready
    case Wake(i) =>
      i < |s.loggers| && s.loggers[i].phase.Blocked? && s.loggers[i].phase.waiter in s.closed
    case SeeStop(i) => i < |s.loggers| && s.loggers[i].phase.Blocked? && s.stopped
    case TimeOut(i) => i < |s.loggers| && s.loggers[i].phase.Blocked?
    case Relock(i) => i < |s.loggers| && s.loggers[i].phase == Expired
    case Emit(i, _) => i < |s.loggers| && s.loggers[i].phase.Inside?
    case CompleteTicket(i) => i < |s.loggers| && s.loggers[i].phase == Leaving
    case CloseSent(i) => i < |s.loggers| && s.loggers[i].phase == Released
    case Stop => !s.stopped
  }

  function SetLogger<D>(s: State<D>, i: nat, l: Logger): State<D>
    requires i < |s.loggers|
  {
    s.(loggers := s.loggers[i := l])
  }

  /** Closing the channels of these waiters would close one that is closed, or one of them twice. */
  predicate ClosesTwice(q: Queue<nat>, closed: set<nat>) {
    || (exists k <- Woken(q) :: k in q.waiters && q.waiters[k] in closed)
    || (exists j <- Woken(q), k <- Woken(q) ::
          j in q.waiters && k in q.waiters && j != k && q.waiters[j] == q.waiters[k])
  }

  /** The skip loop run on `q`, which the step has already made its queue: closes channels, counts, may panic. */
  function RunSkip<D>(s: State<D>, q: Queue<nat>): State<D> {
    var chans := set k | k in Woken(q) && k in q.waiters :: q.waiters[k];
    s.(queue := Skip(q),
       closed := s.closed + chans,
       skips := s.skips + Skip(q).next - q.next,
       panicked := s.panicked || ClosesTwice(q, s.closed))
  }

  function NewLogger(kind: Kind, call: nat): Logger {
    Logger(kind, call, 0, if kind == Response then AwaitSent else Starting, Open)
  }

  /** The request phase of a call ends with the data `d`; the response phase finds what the request phase left. */
  function MakeEntry<D>(s: State<D>, i: nat, d: D): Entry<D>
    requires i < |s.loggers| && s.loggers[i].phase.Inside?
  {
    var l := s.loggers[i];
    var seen := if l.kind == Request then Some(d)
                else if l.call in s.data then Some(s.data[l.call]) else None;
    Entry(l.ticket, i, l.phase.granted, seen)
  }

  function Apply<D>(s: State<D>, step: Step<D>): State<D>
    requires Enabled(s, step)
  {
    match step
    case NewCall => s.(loggers := s.loggers + [NewLogger(Request, |s.loggers|)])
    case SpawnResponse(call) => s.(loggers := s.loggers + [NewLogger(Response, call)])
    case SpawnEvent(call) => s.(loggers := s.loggers + [NewLogger(Event, call)])
    case ReceiveSent(i) => SetLogger(s, i, s.loggers[i].(phase := Starting))
    case TakeTicket(i) =>
      var l := s.loggers[i];
      var phase := if l.kind == Event then Ready else Ticketed;
      SetLogger(s, i, l.(ticket := s.queue.counter + 1, phase := phase))
      .(queue := Take(s.queue), owners := s.owners[s.queue.counter + 1 := i])
    case Decompress(i, ok) =>
      var l := s.loggers[i];
      SetLogger(s, i, if ok then l.(phase := Ready) else l.(phase := Leaving, fate := Undecodable))
    case EnterWait(i) =>
      var l := s.loggers[i];
      var t := RunSkip(s, s.queue);
      (match Enter(s.queue, l.ticket, s.nextChan)
       case Granted(q) => SetLogger(t, i, l.(phase := Inside(true)))
       case MustWait(q) =>
         SetLogger(t, i, l.(phase := Blocked(s.nextChan))).(queue := q, nextChan := s.nextChan + 1))
    case Wake(i) => SetLogger(s, i, s.loggers[i].(phase := Inside(true)))
    case SeeStop(i) => SetLogger(s, i, s.loggers[i].(phase := Leaving, fate := Abandoned))
    case TimeOut(i) => SetLogger(s, i, s.loggers[i].(phase := Expired))
    case Relock(i) =>
      SetLogger(s, i, s.loggers[i].(phase := Inside(false))).(queue := Expire(s.queue, s.loggers[i].ticket))
    case Emit(i, d) =>
      var l := s.loggers[i];
      SetLogger(s, i, l.(phase := Leaving, fate := Logged(l.phase.granted)))
      .(log := s.log + [MakeEntry(s, i, d)],
        data := if l.kind == Request then s.data[l.call := d] else s.data)
    case CompleteTicket(i) =>
      var l := s.loggers[i];
      var t := RunSkip(s, Finish(s.queue, l.ticket));
      SetLogger(t, i, l.(phase := if l.kind == Request then Released else Done))
    case CloseSent(i) =>
      SetLogger(s, i, s.loggers[i].(phase := Done)).(reqSent := s.reqSent + {s.loggers[i].call})
    case Stop => s.(stopped := true)
  }

  // ----- Runs.

  ghost predicate Legal<D>(s: State<D>, steps: seq<Step<D>>)
    decreases |steps|
  {
    steps == [] || (Enabled(s, steps[0]) && Legal(Apply(s, steps[0]), steps[1..]))
  }

  ghost function Execute<D>(s: State<D>, steps: seq<Step<D>>): State<D>
    requires Legal(s, steps)
    decreases |steps|
  {
    if steps == [] then s else Execute(Apply(s, steps[0]), steps[1..])
  }

  ghost predicate Reachable<D(!new)>(s: State<D>) {
    exists steps :: Legal(Init(), steps) && Execute(Init(), steps) == s
  }

  // ----- The invariant, in parts that name one concern each.

  predicate Holds(l: Logger) {
    l.phase.Ticketed? || l.phase.Ready? || l.phase.Blocked? || l.phase.Expired? || l.phase.Inside? || l.phase.Leaving?
  }

  predicate Unticketed(l: Logger) {
    l.phase.AwaitSent? || l.phase.Starting?
  }

  predicate Left(l: Logger) {
    l.phase.Leaving? || l.phase.Released? || l.phase.Done?
  }

  /** A logger past `Starting` owns its ticket, which is active until the logger completes it. */
  ghost predicate OwnsTicket<D>(s: State<D>, i: nat)
    requires i < |s.loggers|
  {
    var l := s.loggers[i];
    && (l.ticket == 0 <==> Unticketed(l))
    && (l.ticket != 0 ==> l.ticket in s.owners && s.owners[l.ticket] == i)
    && (Holds(l) <==> l.ticket in s.queue.active)
  }

  /** Every ticket handed out has one owner: `owners` and the loggers' tickets are inverse to each other. */
  ghost predicate TicketsOk<D>(s: State<D>) {
    && (forall t: nat :: t in s.owners <==> 1 <= t <= s.queue.counter)
    && (forall t <- s.owners :: s.owners[t] < |s.loggers| && s.loggers[s.owners[t]].ticket == t)
    && (forall i: nat :: i < |s.loggers| ==> OwnsTicket(s, i))
  }

  /** What a logger's phase says about its waiter and about the cursor. */
  ghost predicate WaiterOk<D>(s: State<D>, i: nat)
    requires i < |s.loggers|
  {
    var l := s.loggers[i];
    match l.phase
    case Blocked(c) =>
      c < s.nextChan
      && if c in s.closed then l.ticket == s.queue.next && l.ticket !in s.queue.waiters
         else l.ticket in s.queue.waiters && s.queue.waiters[l.ticket] == c
    case Inside(granted) => l.ticket !in s.queue.waiters && (granted ==> l.ticket == s.queue.next)
    case Ticketed => l.ticket !in s.queue.waiters
    case Ready => l.ticket !in s.queue.waiters
    case Leaving =>
      && (l.ticket in s.queue.waiters ==> s.stopped && l.fate == Abandoned)
      && (l.fate == Logged(true) ==> l.ticket == s.queue.next)
    case Released => l.ticket in s.queue.waiters ==> s.stopped && l.fate == Abandoned
    case Done => l.ticket in s.queue.waiters ==> s.stopped && l.fate == Abandoned
    case _ => true
  }

  ghost predicate WaitersOk<D>(s: State<D>) {
    forall i: nat :: i < |s.loggers| ==> WaiterOk(s, i)
  }

  /** Channels in the map are open, known and used once; nothing was closed twice. */
  ghost predicate ChannelsOk<D>(s: State<D>) {
    && !s.panicked
    && (forall c <- s.closed :: c < s.nextChan)
    && (forall k <- s.queue.waiters :: s.queue.waiters[k] < s.nextChan && s.queue.waiters[k] !in s.closed)
    && (forall j <- s.queue.waiters, k <- s.queue.waiters ::
          j != k ==> s.queue.waiters[j] != s.queue.waiters[k])
  }

  /** A response logger past its receive finds its request logger done and its own ticket the later one. */
  ghost predicate CallOk<D>(s: State<D>, i: nat)
    requires i < |s.loggers|
  {
    var l := s.loggers[i];
    && IsCall(s, l.call)
    && (l.kind == Request ==> l.call == i && (l.phase.Done? <==> i in s.reqSent))
    && (l.phase.AwaitSent? ==> l.kind == Response)
    && (l.phase.Released? ==> l.kind == Request)
    && (l.kind == Response && !l.phase.AwaitSent? ==> l.call in s.reqSent)
    && (l.kind == Response && l.ticket != 0 ==> 0 < s.loggers[l.call].ticket < l.ticket)
  }

  ghost predicate CallsOk<D>(s: State<D>) {
    && (forall c <- s.reqSent :: c < |s.loggers|)
    && (forall i: nat :: i < |s.loggers| ==> CallOk(s, i))
  }

  /** The fate is decided exactly when the logger leaves. */
  ghost predicate FatesOk<D>(s: State<D>) {
    forall i: nat :: i < |s.loggers| ==> (s.loggers[i].fate == Open <==> !Left(s.loggers[i]))
  }

  ghost predicate Inv<D>(s: State<D>) {
    && Settled(s.queue) && s.skips == s.queue.next - 1
    && TicketsOk(s) && WaitersOk(s) && ChannelsOk(s) && CallsOk(s) && FatesOk(s)
  }
}
