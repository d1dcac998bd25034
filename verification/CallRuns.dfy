/**
 The loggers of all calls together with what the modules do inside their log sections: the request phase of a call
 and its response phase, joined by the call data.
 */
module CallRuns {
  import opened Options
  import opened XatuFields
  import opened ModuleOrder
  import LS = LoggerSystem
  import Safety = LoggerSafety
  import History = LoggerHistory
  import XR = XatuRuns
  import XatuHandlers

  /** The ID the Xatu module gets at startup. */
  const XATU: nat := 1

  /** The request phase of a call: its modules in the order they came, and what the core had stored before. */
  datatype Ran = Ran(modules: seq<Module<Json>>, core: Data<Json>)

  /**
   `ran` has the request phases that are over. `orders` has the modules, as the response phase of a logger met them, and
   `told` when a response or event was given to the Xatu module. The IDs of the Xatu events are the numbers of the calls.
   */
  datatype State = State(
    loggers: LS.State<Data<Json>>,
    xatu: XR.State,
    ran: map<nat, Ran>,
    orders: map<nat, seq<Module<Json>>>,
    told: map<nat, int>)

  datatype Step =
    | Log(l: LS.Step<Data<Json>>)                         // any step of a logger, except where the next ones end it
    | Route(event: XatuHandlers.RequestEvent)             // the Xatu module picks the handler
    | Remember(c: nat)                                    // and stores it in the call data
    | EndRequest(c: nat, ran: Ran)                        // the modules are through, the request is logged
    | BeginResponse(i: nat, order: seq<Module<Json>>)     // the loop over the modules starts, in this order
    | Respond(i: nat)                                     // it gets to the Xatu module
    | EndResponse(i: nat)                                 // the loop is over, the response is logged
    | Background(x: XR.Step)                              // a handler is registered, time passes

  predicate InRequestPhase(s: LS.State<Data<Json>>, c: nat) {
    LS.IsCall(s, c) && s.loggers[c].phase.Inside?
  }

  /** Logger `i` is inside the log section of a response that is not an event. */
  predicate InResponsePhase(s: State, i: nat) {
    i < |s.loggers.loggers| && s.loggers.loggers[i].kind == LS.Response && s.loggers.loggers[i].phase.Inside?
  }

  predicate InEvent(s: State, i: nat) {
    i < |s.loggers.loggers| && s.loggers.loggers[i].kind == LS.Event && s.loggers.loggers[i].phase.Inside?
  }

  predicate EndsSection(s: LS.State<Data<Json>>, step: LS.Step<Data<Json>>) {
    step.Emit? && step.i < |s.loggers| && s.loggers[step.i].kind != LS.Event
  }

  /** The handler the Xatu module has stored for the call. */
  function Remembered(x: XR.State, c: nat): Option<nat> {
    if c in x.slots then Some(x.slots[c]) else None
  }

  ghost predicate XatuIn(ms: seq<Module<Json>>) {
    exists m <- ms :: m.kind.Xatu?
  }

  /** The Xatu module is through with the request of `c`: it saw it if it was called, and stored what it was routed to. */
  ghost predicate XatuThrough(x: XR.State, c: nat, r: Ran) {
    && (c in x.routed ==> c in x.slots)
    && (c in x.requests <==> XatuIn(BeforeFailure(r.modules)))
    && (forall m <- BeforeFailure(r.modules) :: m.kind.Xatu? ==> m.kind.handler == Remembered(x, c))
  }

  /** Only the Xatu module is registered without filters under its ID. */
  ghost predicate GoodModules(ms: seq<Module<Json>>) {
    && DistinctIDs(ms) && (forall m <- ms :: m.id != 0)
    && (forall m <- ms :: m.kind.Xatu? ==> m.id == XATU && m.request == NoFilter && m.response == NoFilter)
  }

  ghost predicate WellFormed(r: Ran) {
    GoodModules(r.modules) && (forall p <- r.core :: p.id == 0)
  }

  /** What is registered under an ID stays of its kind. */
  ghost predicate SameKinds(a: seq<Module<Json>>, b: seq<Module<Json>>) {
    forall m <- a, n <- b :: m.id == n.id ==> (m.kind.Xatu? <==> n.kind.Xatu?)
  }

  function DataOf(r: Ran): Data<Json> {
    AfterRequest(r.modules, r.core)
  }

  function CallOf(s: State, i: nat): nat
    requires i < |s.loggers.loggers|
  {
    s.loggers.loggers[i].call
  }

  /** The call data of a response: what the request phase left, and nothing if the request was not logged. */
  function DataFound(s: State, c: nat): Data<Json> {
    if c in s.loggers.data then s.loggers.data[c] else map[]
  }

  /** The loop over the modules, in the order it started with, tells the Xatu module. */
  ghost predicate XatuTold(s: State, i: nat) {
    && i in s.orders && i < |s.loggers.loggers|
    && XatuIn(Told(s.orders[i], DataFound(s, CallOf(s, i))))
  }

  ghost predicate Enabled(s: State, step: Step) {
    match step
    case Log(l) => LS.Enabled(s.loggers, l) && !EndsSection(s.loggers, l)
    case Route(e) => InRequestPhase(s.loggers, e.callID) && XR.Enabled(s.xatu, XR.Request(e))
    case Remember(c) => InRequestPhase(s.loggers, c) && XR.Enabled(s.xatu, XR.Remember(c))
    case EndRequest(c, r) => InRequestPhase(s.loggers, c) && WellFormed(r) && XatuThrough(s.xatu, c, r)
    case BeginResponse(i, order) =>
      && InResponsePhase(s, i) && i !in s.orders && GoodModules(order)
      && (CallOf(s, i) in s.ran ==> SameKinds(order, s.ran[CallOf(s, i)].modules))
    case Respond(i) => i !in s.told && (InEvent(s, i) || (InResponsePhase(s, i) && XatuTold(s, i)))
    case EndResponse(i) => InResponsePhase(s, i) && i in s.orders && (XatuTold(s, i) ==> i in s.told)
    case Background(x) => x.Register? || x.Pass?
  }

  ghost function Apply(s: State, step: Step): State
    requires Enabled(s, step)
  {
    match step
    case Log(l) => s.(loggers := LS.Apply(s.loggers, l))
    case Route(e) => s.(xatu := XR.Apply(s.xatu, XR.Request(e)))
    case Remember(c) => s.(xatu := XR.Apply(s.xatu, XR.Remember(c)))
    case EndRequest(c, r) => s.(loggers := LS.Apply(s.loggers, LS.Emit(c, DataOf(r))), ran := s.ran[c := r])
    case BeginResponse(i, order) => s.(orders := s.orders[i := order])
    case Respond(i) =>
      s.(xatu := XR.Apply(s.xatu, XR.Respond(CallOf(s, i))), told := s.told[i := s.xatu.now])
    case EndResponse(i) => s.(loggers := LS.Apply(s.loggers, LS.Emit(i, map[])))
    case Background(x) => s.(xatu := XR.Apply(s.xatu, x))
  }

  ghost predicate Legal(s: State, steps: seq<Step>)
    decreases |steps|
  {
    steps == [] || (Enabled(s, steps[0]) && Legal(Apply(s, steps[0]), steps[1..]))
  }

  ghost function Execute(s: State, steps: seq<Step>): State
    requires Legal(s, steps)
    decreases |steps|
  {
    if steps == [] then s else Execute(Apply(s, steps[0]), steps[1..])
  }

  function Init(now: int): State {
    State(LS.Init(), XR.Init(now), map[], map[], map[])
  }

  ghost predicate Reachable(s: State) {
    exists now, steps :: Legal(Init(now), steps) && Execute(Init(now), steps) == s
  }

  // ----- The invariant.

  /** A request has been given to the Xatu module in the log section of its call, and only there. */
  ghost predicate RequestOk(s: State, c: nat) {
    c in s.xatu.requests ==>
      LS.IsCall(s.loggers, c) && (s.loggers.loggers[c].phase.Inside? || s.loggers.loggers[c].fate.Logged?)
  }

  /** What the logger system carries for a call is what its request phase left. */
  ghost predicate DataOk(s: State, c: nat) {
    c in s.loggers.data ==>
      && LS.IsCall(s.loggers, c) && s.loggers.loggers[c].fate.Logged?
      && c in s.ran && WellFormed(s.ran[c]) && s.loggers.data[c] == DataOf(s.ran[c])
      && XatuThrough(s.xatu, c, s.ran[c])
  }

  /** The loop of a response starts inside its section, with modules of the kinds its request phase met. */
  ghost predicate OrderOk(s: State, i: nat) {
    i in s.orders ==>
      && i < |s.loggers.loggers| && s.loggers.loggers[i].kind == LS.Response
      && (s.loggers.loggers[i].phase.Inside? || s.loggers.loggers[i].fate.Logged?)
      && GoodModules(s.orders[i])
      && (CallOf(s, i) in s.ran ==> SameKinds(s.orders[i], s.ran[CallOf(s, i)].modules))
  }

  /** A response the Xatu module was told of has settled the request of its call. */
  ghost predicate ToldOk(s: State, i: nat) {
    i in s.told ==>
      && i < |s.loggers.loggers| && s.loggers.loggers[i].kind != LS.Request && s.told[i] <= s.xatu.now
      && (s.loggers.loggers[i].kind == LS.Response ==> XatuTold(s, i) && Settled(s.xatu, CallOf(s, i), s.told[i]))
  }

  /** The request of `c` has been answered, or it was evicted before `time` as stale. */
  ghost predicate Settled(x: XR.State, c: nat, time: int) {
    XR.Kept(x, c) ==> XR.Answered(x, c) || (c in x.evicted && x.requests[c].timestamp < time - XatuHandlers.STALE)
  }

  /** The loop of a logged response is over. */
  ghost predicate FinishedOk(s: State, i: nat) {
    Finished(s, i) ==> i in s.orders && (XatuTold(s, i) ==> i in s.told)
  }

  predicate Finished(s: State, i: nat) {
    i < |s.loggers.loggers| && s.loggers.loggers[i].kind == LS.Response && s.loggers.loggers[i].fate.Logged?
  }

  /** Only responses and events of its own call answer a request. */
  ghost predicate AnswerOk(s: State, c: nat) {
    XR.Answered(s.xatu, c) ==> exists j :: AnsweredBy(s, c, j)
  }

  predicate AnsweredBy(s: State, c: nat, j: nat) {
    j in s.told && j < |s.loggers.loggers| && CallOf(s, j) == c
  }

  ghost predicate PartsOk(s: State) {
    LS.Inv(s.loggers) && History.HistoryOk(s.loggers) && XR.Inv(s.xatu)
  }

  ghost predicate Inv(s: State) {
    && PartsOk(s)
    && (forall c: nat :: RequestOk(s, c)) && (forall c: nat :: DataOk(s, c)) && (forall c: nat :: AnswerOk(s, c))
    && (forall i: nat :: OrderOk(s, i)) && (forall i: nat :: ToldOk(s, i)) && (forall i: nat :: FinishedOk(s, i))
  }

  lemma PartsKept(s: State, step: Step)
    requires PartsOk(s) && Enabled(s, step)
    ensures PartsOk(Apply(s, step))
  {
    match step
    case Log(l) => LoggersKept(s.loggers, l);
    case EndRequest(c, r) => LoggersKept(s.loggers, LS.Emit(c, DataOf(r)));
    case EndResponse(i) => LoggersKept(s.loggers, LS.Emit(i, map[]));
    case BeginResponse(_, _) =>
    case Route(e) => XR.StepKeepsInv(s.xatu, XR.Request(e));
    case Remember(c) => XR.StepKeepsInv(s.xatu, XR.Remember(c));
    case Respond(i) => XR.StepKeepsInv(s.xatu, XR.Respond(CallOf(s, i)));
    case Background(x) => XR.StepKeepsInv(s.xatu, x);
  }

  lemma LoggersKept(s: LS.State<Data<Json>>, l: LS.Step<Data<Json>>)
    requires LS.Inv(s) && History.HistoryOk(s) && LS.Enabled(s, l)
    ensures LS.Inv(LS.Apply(s, l)) && History.HistoryOk(LS.Apply(s, l)) && History.Later(s, LS.Apply(s, l))
  {
    Safety.StepKeepsInv(s, l);
    History.StepKeepsHistory(s, l);
    History.StepsAreLater(s, l);
  }

  // ----- The loggers' steps.

  /** Loggers of requests and responses stay inside, and are not logged, but for the steps that end their sections. */
  lemma LogMoves(s: LS.State<Data<Json>>, l: LS.Step<Data<Json>>, j: nat)
    requires LS.Enabled(s, l) && !EndsSection(s, l) && j < |s.loggers| && s.loggers[j].kind != LS.Event
    requires |s.loggers| <= |LS.Apply(s, l).loggers| && LS.Apply(s, l).loggers[j].kind == s.loggers[j].kind
    ensures s.loggers[j].phase.Inside? ==> LS.Apply(s, l).loggers[j] == s.loggers[j]
    ensures LS.Apply(s, l).loggers[j].fate.Logged? ==> s.loggers[j].fate.Logged?
  {
    if l.Emit? {
      assert l.i != j;
    } else {
      History.QuietStep(s, l);
      InsideStays(s, l, j);
    }
  }

  lemma InsideStays(s: LS.State<Data<Json>>, l: LS.Step<Data<Json>>, j: nat)
    requires LS.Enabled(s, l) && !l.Emit? && j < |s.loggers| <= |LS.Apply(s, l).loggers|
    ensures s.loggers[j].phase.Inside? ==> LS.Apply(s, l).loggers[j] == s.loggers[j]
  {
    match l
    case EnterWait(_) =>
    case CompleteTicket(_) =>
    case _ =>
  }

  lemma LogKeepsData(s: LS.State<Data<Json>>, l: LS.Step<Data<Json>>)
    requires LS.Enabled(s, l) && !EndsSection(s, l)
    ensures LS.Apply(s, l).data == s.data
  {
    if !l.Emit? { History.QuietStep(s, l); }
  }

  /** A logger that is new has not been logged. */
  lemma NewNotLogged(s: LS.State<Data<Json>>, l: LS.Step<Data<Json>>, j: nat)
    requires LS.Enabled(s, l) && |s.loggers| <= j < |LS.Apply(s, l).loggers|
    ensures !LS.Apply(s, l).loggers[j].fate.Logged?
  {
    if !l.Emit? { History.QuietStep(s, l); }
  }

  /** The request phase of a response's call is over. */
  lemma RequestOver(s: State, i: nat)
    requires LS.Inv(s.loggers) && i < |s.loggers.loggers| && s.loggers.loggers[i].kind == LS.Response
    requires s.loggers.loggers[i].phase.Inside? || s.loggers.loggers[i].fate.Logged?
    ensures LS.IsCall(s.loggers, CallOf(s, i)) && s.loggers.loggers[CallOf(s, i)].phase == LS.Done
  {
    assert LS.CallOk(s.loggers, i) && LS.CallOk(s.loggers, CallOf(s, i));
  }

  /** The Xatu step of a step, if it has one. */
  function XatuStep(s: State, step: Step): Option<XR.Step> {
    match step
    case Route(e) => Some(XR.Request(e))
    case Remember(c) => Some(XR.Remember(c))
    case Respond(i) => if i < |s.loggers.loggers| then Some(XR.Respond(CallOf(s, i))) else None
    case Background(x) => Some(x)
    case _ => None
  }

  /** Xatu steps change nothing else. */
  lemma XatuStepFrame(s: State, step: Step)
    requires Enabled(s, step) && XatuStep(s, step).Some?
    ensures var t := Apply(s, step);
      && t.loggers == s.loggers && t.ran == s.ran && t.orders == s.orders
      && XR.Enabled(s.xatu, XatuStep(s, step).value) && t.xatu == XR.Apply(s.xatu, XatuStep(s, step).value)
  {
  }

  /** What a response depends on stays as it is. */
  ghost predicate SameView(s: State, t: State, i: nat)
    requires i < |s.loggers.loggers|
  {
    && i < |t.loggers.loggers| && t.loggers.loggers[i].kind == s.loggers.loggers[i].kind && CallOf(t, i) == CallOf(s, i)
    && DataFound(t, CallOf(s, i)) == DataFound(s, CallOf(s, i))
    && (CallOf(s, i) in t.ran <==> CallOf(s, i) in s.ran)
    && (CallOf(s, i) in s.ran ==> t.ran[CallOf(s, i)] == s.ran[CallOf(s, i)])
    && (i in s.orders ==> i in t.orders && t.orders[i] == s.orders[i])
  }

  lemma EndRequestKeepsView(s: State, c: nat, r: Ran, i: nat)
    requires PartsOk(s) && Enabled(s, EndRequest(c, r)) && i < |s.loggers.loggers|
    requires s.loggers.loggers[i].kind == LS.Response
    requires s.loggers.loggers[i].phase.Inside? || s.loggers.loggers[i].fate.Logged?
    ensures SameView(s, Apply(s, EndRequest(c, r)), i)
  {
    RequestOver(s, i);
    assert LS.CallOk(s.loggers, c);
  }

  lemma LogKeepsView(s: State, l: LS.Step<Data<Json>>, i: nat)
    requires PartsOk(s) && Enabled(s, Log(l)) && i < |s.loggers.loggers|
    ensures SameView(s, Apply(s, Log(l)), i)
  {
    LoggersKept(s.loggers, l);
    LogKeepsData(s.loggers, l);
  }

  lemma ViewKept(s: State, step: Step, i: nat)
    requires PartsOk(s) && Enabled(s, step) && i < |s.loggers.loggers|
    requires s.loggers.loggers[i].kind == LS.Response
    requires s.loggers.loggers[i].phase.Inside? || s.loggers.loggers[i].fate.Logged?
    ensures SameView(s, Apply(s, step), i)
  {
    match step
    case Log(l) => LogKeepsView(s, l, i);
    case EndRequest(c, r) => EndRequestKeepsView(s, c, r, i);
    case BeginResponse(j, order) => BeginKeepsView(s, j, order, i);
    case EndResponse(j) => EndResponseKeepsView(s, j, i);
    case _ => XatuStepFrame(s, step);
  }

  lemma BeginKeepsView(s: State, j: nat, order: seq<Module<Json>>, i: nat)
    requires Enabled(s, BeginResponse(j, order)) && i < |s.loggers.loggers|
    ensures SameView(s, Apply(s, BeginResponse(j, order)), i)
  {
  }

  lemma EndResponseKeepsView(s: State, j: nat, i: nat)
    requires Enabled(s, EndResponse(j)) && i < |s.loggers.loggers|
    ensures SameView(s, Apply(s, EndResponse(j)), i)
  {
  }

  // ----- Every step keeps the invariant.

  /** Once a request is settled it stays settled. */
  lemma SettledKept(s: State, step: Step, c: nat, time: int)
    requires PartsOk(s) && Enabled(s, step) && Settled(s.xatu, c, time) && !InRequestPhase(s.loggers, c)
    ensures Settled(Apply(s, step).xatu, c, time)
  {
    if XatuStep(s, step).Some? {
      XatuStepFrame(s, step);
      XR.OtherCallsSettle(s.xatu, XatuStep(s, step).value, c);
    }
  }

  lemma LogKeepsOrder(s: State, l: LS.Step<Data<Json>>, i: nat)
    requires Inv(s) && Enabled(s, Log(l)) && OrderOk(s, i) && i in s.orders
    ensures OrderOk(Apply(s, Log(l)), i)
  {
    LogKeepsView(s, l, i);
    LoggersKept(s.loggers, l);
    LogMoves(s.loggers, l, i);
  }

  lemma EndRequestKeepsOrder(s: State, c: nat, r: Ran, i: nat)
    requires Inv(s) && Enabled(s, EndRequest(c, r)) && OrderOk(s, i) && i in s.orders
    ensures OrderOk(Apply(s, EndRequest(c, r)), i)
  {
    EndRequestKeepsView(s, c, r, i);
  }

  lemma EndResponseKeepsOrder(s: State, j: nat, i: nat)
    requires Enabled(s, EndResponse(j)) && OrderOk(s, i)
    ensures OrderOk(Apply(s, EndResponse(j)), i)
  {
  }

  lemma BeginKeepsOrder(s: State, j: nat, order: seq<Module<Json>>, i: nat)
    requires Enabled(s, BeginResponse(j, order)) && OrderOk(s, i)
    ensures OrderOk(Apply(s, BeginResponse(j, order)), i)
  {
  }

  lemma OrderKept(s: State, step: Step, i: nat)
    requires Inv(s) && Enabled(s, step)
    ensures OrderOk(Apply(s, step), i)
  {
    assert OrderOk(s, i);
    match step
    case Log(l) => if i in s.orders { LogKeepsOrder(s, l, i); }
    case EndRequest(c, r) => if i in s.orders { EndRequestKeepsOrder(s, c, r, i); }
    case EndResponse(j) => EndResponseKeepsOrder(s, j, i);
    case BeginResponse(j, order) => BeginKeepsOrder(s, j, order, i);
    case _ => XatuStepFrame(s, step);
  }

  lemma ToldKept(s: State, step: Step, i: nat)
    requires Inv(s) && Enabled(s, step) && i in s.told
    ensures ToldOk(Apply(s, step), i)
  {
    assert ToldOk(s, i) && OrderOk(s, i);
    var t := Apply(s, step);
    if XatuStep(s, step).Some? { TimePasses(s, step); }
    if s.loggers.loggers[i].kind == LS.Response {
      ViewKept(s, step, i);
      RequestOver(s, i);
      SettledKept(s, step, CallOf(s, i), s.told[i]);
    }
    match step
    case Log(l) => LoggersKept(s.loggers, l);
    case _ =>
  }

  lemma TimePasses(s: State, step: Step)
    requires Enabled(s, step)
    ensures s.xatu.now <= Apply(s, step).xatu.now
  {
  }

  /** A response that the Xatu module is told of leaves its request settled. */
  lemma RespondSettles(s: State, i: nat)
    requires Inv(s) && Enabled(s, Respond(i)) && InResponsePhase(s, i)
    ensures Settled(Apply(s, Respond(i)).xatu, CallOf(s, i), s.xatu.now)
  {
    var c, x := CallOf(s, i), s.xatu;
    var y := XR.Apply(x, XR.Respond(c));
    RequestOver(s, i);
    XR.OtherCallsSettle(x, XR.Respond(c), c);
    RememberedIfOver(s, c);
    assert XR.RouteOk(x, c) && XR.CallOk(x, c);
    if XR.Kept(x, c) && XR.PendingAt(x, x.routed[c], c) {
      assert y.published[|x.published|].callID == c;
    }
  }

  /** Once its request phase is over, a routed call has its handler in the call data. */
  lemma RememberedIfOver(s: State, c: nat)
    requires Inv(s) && !InRequestPhase(s.loggers, c)
    ensures c in s.xatu.routed ==> c in s.xatu.slots
  {
    assert XR.RouteOk(s.xatu, c) && RequestOk(s, c) && DataOk(s, c);
  }

  lemma FinishedKept(s: State, step: Step, i: nat)
    requires Inv(s) && Enabled(s, step)
    ensures FinishedOk(Apply(s, step), i)
  {
    assert FinishedOk(s, i);
    var t := Apply(s, step);
    if Finished(t, i) {
      FinishedBefore(s, step, i);
      ViewKept(s, step, i);
    }
  }

  /** Only the end of its section makes a response a logged one. */
  lemma FinishedBefore(s: State, step: Step, i: nat)
    requires PartsOk(s) && Enabled(s, step) && Finished(Apply(s, step), i)
    ensures Finished(s, i) || step == EndResponse(i)
  {
    match step
    case Log(l) =>
      LoggersKept(s.loggers, l);
      if i < |s.loggers.loggers| { LogMoves(s.loggers, l, i); } else { NewNotLogged(s.loggers, l, i); }
    case _ =>
  }

  lemma AnswerKept(s: State, step: Step, c: nat)
    requires Inv(s) && Enabled(s, step)
    ensures AnswerOk(Apply(s, step), c)
  {
    var t := Apply(s, step);
    assert AnswerOk(s, c);
    if XR.Answered(t.xatu, c) {
      if step.Respond? && CallOf(s, step.i) == c {
        assert AnsweredBy(t, c, step.i);
      } else {
        AnsweredBefore(s, step, c);
        var j :| AnsweredBy(s, c, j);
        AnswererKept(s, step, j);
        assert AnsweredBy(t, c, j);
      }
    }
  }

  lemma AnswererKept(s: State, step: Step, j: nat)
    requires PartsOk(s) && Enabled(s, step) && j < |s.loggers.loggers|
    ensures j < |Apply(s, step).loggers.loggers| && CallOf(Apply(s, step), j) == CallOf(s, j)
    ensures j in s.told ==> j in Apply(s, step).told
  {
    match step
    case Log(l) => LogKeepsView(s, l, j);
    case EndResponse(i) => EndResponseKeepsView(s, i, j);
    case BeginResponse(i, order) => BeginKeepsView(s, i, order, j);
    case EndRequest(c, r) => LoggersKept(s.loggers, LS.Emit(c, DataOf(r)));
    case _ => XatuStepFrame(s, step);
  }

  lemma AnsweredBefore(s: State, step: Step, c: nat)
    requires PartsOk(s) && Enabled(s, step) && XR.Answered(Apply(s, step).xatu, c)
    requires step.Respond? ==> CallOf(s, step.i) != c
    ensures XR.Answered(s.xatu, c)
  {
    if XatuStep(s, step).Some? {
      XatuStepFrame(s, step);
      XR.OnlyRespondAnswers(s.xatu, XatuStep(s, step).value, c);
    }
  }

  /** A call that is in its request phase has no data yet. */
  lemma NoDataYet(s: State, c: nat)
    requires Inv(s) && InRequestPhase(s.loggers, c)
    ensures c !in s.loggers.data
  {
    assert DataOk(s, c);
    assert s.loggers.loggers[c].fate == LS.Open;
  }

  lemma LogKeepsRequest(s: State, l: LS.Step<Data<Json>>, c: nat)
    requires Inv(s) && Enabled(s, Log(l))
    ensures RequestOk(Apply(s, Log(l)), c) && DataOk(Apply(s, Log(l)), c)
  {
    assert RequestOk(s, c) && DataOk(s, c);
    LoggersKept(s.loggers, l);
    LogKeepsData(s.loggers, l);
    if c in s.xatu.requests { LogMoves(s.loggers, l, c); }
  }

  lemma EndKeepsRequest(s: State, d: nat, r: Ran, c: nat)
    requires Inv(s) && Enabled(s, EndRequest(d, r))
    ensures RequestOk(Apply(s, EndRequest(d, r)), c) && DataOk(Apply(s, EndRequest(d, r)), c)
  {
    assert RequestOk(s, c) && DataOk(s, c) && LS.CallOk(s.loggers, d);
  }

  lemma EndResponseKeepsRequest(s: State, i: nat, c: nat)
    requires Inv(s) && Enabled(s, EndResponse(i))
    ensures RequestOk(Apply(s, EndResponse(i)), c) && DataOk(Apply(s, EndResponse(i)), c)
  {
    assert RequestOk(s, c) && DataOk(s, c);
  }

  lemma OwnXatuStepsKeepRequest(s: State, step: Step, c: nat)
    requires Inv(s) && Enabled(s, step) && (step.Route? || step.Remember?)
    ensures RequestOk(Apply(s, step), c) && DataOk(Apply(s, step), c)
  {
    assert RequestOk(s, c) && DataOk(s, c);
    match step
    case Route(e) => NoDataYet(s, e.callID);
    case Remember(d) => NoDataYet(s, d);
  }

  lemma RequestKept(s: State, step: Step, c: nat)
    requires Inv(s) && Enabled(s, step)
    ensures RequestOk(Apply(s, step), c) && DataOk(Apply(s, step), c)
  {
    match step
    case Log(l) => LogKeepsRequest(s, l, c);
    case EndRequest(d, r) => EndKeepsRequest(s, d, r, c);
    case EndResponse(i) => EndResponseKeepsRequest(s, i, c);
    case Route(_) => OwnXatuStepsKeepRequest(s, step, c);
    case Remember(_) => OwnXatuStepsKeepRequest(s, step, c);
    case _ => OtherStepsKeepRequest(s, step, c);
  }

  lemma OtherStepsKeepRequest(s: State, step: Step, c: nat)
    requires Inv(s) && Enabled(s, step) && (step.BeginResponse? || step.Respond? || step.Background?)
    ensures RequestOk(Apply(s, step), c) && DataOk(Apply(s, step), c)
  {
    assert RequestOk(s, c) && DataOk(s, c);
  }

  lemma ToldByRespond(s: State, i: nat)
    requires Inv(s) && Enabled(s, Respond(i))
    ensures ToldOk(Apply(s, Respond(i)), i)
  {
    TimePasses(s, Respond(i));
    if InResponsePhase(s, i) { RespondSettles(s, i); }
  }

  lemma StepKeepsInv(s: State, step: Step)
    requires Inv(s) && Enabled(s, step)
    ensures Inv(Apply(s, step))
  {
    var t := Apply(s, step);
    PartsKept(s, step);
    forall c: nat ensures RequestOk(t, c) && DataOk(t, c) && AnswerOk(t, c) {
      RequestKept(s, step, c);
      AnswerKept(s, step, c);
    }
    forall i: nat ensures OrderOk(t, i) && ToldOk(t, i) && FinishedOk(t, i) {
      OrderKept(s, step, i);
      FinishedKept(s, step, i);
      if i in s.told {
        ToldKept(s, step, i);
      } else if step == Respond(i) {
        ToldByRespond(s, i);
      }
    }
  }

  lemma {:induction false} RunKeepsInv(s: State, steps: seq<Step>)
    requires Inv(s) && Legal(s, steps)
    ensures Inv(Execute(s, steps))
    decreases |steps|
  {
    if steps != [] {
      StepKeepsInv(s, steps[0]);
      RunKeepsInv(Apply(s, steps[0]), steps[1..]);
    }
  }

  lemma InitInv(now: int)
    ensures Inv(Init(now))
  {
  }

  lemma ReachableInv(s: State)
    requires Reachable(s)
    ensures Inv(s)
  {
    var now, steps :| Legal(Init(now), steps) && Execute(Init(now), steps) == s;
    InitInv(now);
    RunKeepsInv(Init(now), steps);
  }
}
