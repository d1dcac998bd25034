/** What becomes of a response, in every run of the loggers with their modules. */
module CallOutcomes {
  import opened Options
  import opened XatuFields
  import opened ModuleOrder
  import opened CallRuns
  import LS = LoggerSystem
  import XR = XatuRuns
  import XatuHandlers

  // ----- What the response phase finds.

  /** Logger `i` belongs to a response that is not an event, and has been let in. */
  predicate Responding(s: State, i: nat) {
    InResponsePhase(s, i) || Finished(s, i)
  }

  /**
   The request phase is over, and the call data is all that it left. The Xatu module got the request exactly if it was
   called before another module failed.
   */
  lemma ResponseFindsRequestData(s: State, i: nat)
    requires Reachable(s) && Responding(s, i)
    ensures var c := CallOf(s, i);
      && LS.IsCall(s.loggers, c) && s.loggers.loggers[c].phase == LS.Done
      && (c in s.loggers.data <==> s.loggers.loggers[c].fate.Logged?)
      && (c in s.loggers.data ==> c in s.ran && WellFormed(s.ran[c]) && s.loggers.data[c] == DataOf(s.ran[c]))
      && (c in s.xatu.requests <==> c in s.loggers.data && XatuIn(BeforeFailure(s.ran[c].modules)))
  {
    ReachableInv(s);
    RequestOver(s, i);
    var c := CallOf(s, i);
    assert RequestOk(s, c) && DataOk(s, c);
  }

  /** So each module's gate, and what a tracer reads, depend on the call's own request phase only. */
  lemma GateFollowsRequest(s: State, i: nat, m: Module<Json>)
    requires Reachable(s) && Responding(s, i) && CallOf(s, i) in s.loggers.data
    requires CallOf(s, i) in s.ran && m in s.ran[CallOf(s, i)].modules
    ensures var d, called := s.loggers.data[CallOf(s, i)], m in BeforeFailure(s.ran[CallOf(s, i)].modules);
      && (PassesGate(m, d) <==>
            if called then
              m.request != Rejects && (m.kind.ResponseSnooper? || m.kind.ResponseTracer? || m.response != Rejects)
            else m.response != Rejects)
      && (m.kind.ResponseTracer? ==>
            && ExtractedIn(m, d) == (if called && m.request != Rejects then m.kind.extracted else None)
            && SizeIn(d) == SizeIn(s.ran[CallOf(s, i)].core))
  {
    ResponseFindsRequestData(s, i);
    var r := s.ran[CallOf(s, i)];
    WhoPassesGate(r.modules, r.core, m);
    if m.kind.ResponseTracer? { TracerData(r.modules, r.core, m); }
  }

  const HANDLER: Entry := Entry(XATU, XatuHandler)

  /** The call data names a handler exactly if the Xatu module stored one. */
  lemma HandlerEntry(x: XR.State, c: nat, r: Ran)
    requires WellFormed(r) && XatuThrough(x, c, r) && (c in x.slots ==> c in x.requests)
    ensures HANDLER in DataOf(r) <==> c in x.slots
    ensures c in x.slots ==> DataOf(r)[HANDLER] == Handler(x.slots[c])
  {
    var called := BeforeFailure(r.modules);
    EntryEnds(r.modules, r.core, HANDLER);
    forall n | n in called ensures HANDLER in Writes(n) <==> c in x.slots && n.kind.Xatu? {
      assert n in r.modules;
      OnlyXatuStoresHandlers(n, XATU);
    }
    if c in x.slots {
      var m :| m in called && m.kind.Xatu?;
      assert m in r.modules;
      OnlyXatuStoresHandlers(m, XATU);
    } else {
      assert !WrittenBy(called, HANDLER);
    }
  }

  /** The handler a request went to is in the call data before the response can be handled. */
  lemma HandlerIsRemembered(s: State, i: nat)
    requires Reachable(s) && Responding(s, i)
    ensures var c, x := CallOf(s, i), s.xatu;
      && (c in x.routed ==> c in x.slots && x.slots[c] == x.routed[c] && c in s.loggers.data)
      && (c in s.loggers.data ==> (HANDLER in s.loggers.data[c] <==> c in x.slots))
      && (c in s.loggers.data && c in x.slots ==> s.loggers.data[c][HANDLER] == Handler(x.slots[c]))
  {
    ReachableInv(s);
    ResponseFindsRequestData(s, i);
    var c := CallOf(s, i);
    assert XR.RouteOk(s.xatu, c);
    if c in s.loggers.data {
      assert DataOk(s, c);
      HandlerEntry(s.xatu, c, s.ran[c]);
    }
  }

  // ----- Whom the response reaches.

  /** A module is told of a response exactly if its gate lets it through and no module before it stopped the loop. */
  lemma ModuleTold(s: State, i: nat, k: nat)
    requires Reachable(s) && i in s.orders && k < |s.orders[i]|
    ensures i < |s.loggers.loggers|
    ensures var order, c := s.orders[i], CallOf(s, i);
      var d := if c in s.loggers.data then s.loggers.data[c] else map[];
      order[k] in Told(order, d) <==>
      PassesGate(order[k], d)
      && forall j :: 0 <= j < k ==>
           !(PassesGate(order[j], d) && order[j].sendFails
             && (order[j].kind.ResponseSnooper? || order[j].kind.ResponseTracer?))
  {
    ReachableInv(s);
    assert OrderOk(s, i);
    ToldIff(s.orders[i], DataFound(s, CallOf(s, i)), k);
  }

  /** The gate lets every response through to the Xatu module. */
  lemma XatuPasses(s: State, i: nat, m: Module<Json>)
    requires Inv(s) && i in s.orders && m in s.orders[i] && m.kind.Xatu?
    ensures i < |s.loggers.loggers| && PassesGate(m, DataFound(s, CallOf(s, i)))
  {
    assert OrderOk(s, i);
    var c := CallOf(s, i);
    assert DataOk(s, c);
    if c in s.loggers.data { NeverSkipped(s.ran[c], s.orders[i], m); }
  }

  /** Nobody marks a call for the Xatu module to be skipped. */
  lemma NeverSkipped(r: Ran, order: seq<Module<Json>>, m: Module<Json>)
    requires WellFormed(r) && GoodModules(order) && SameKinds(order, r.modules) && m in order && m.kind.Xatu?
    ensures Entry(m.id, SkipResponse) !in DataOf(r)
  {
    var called, skip := BeforeFailure(r.modules), Entry(m.id, SkipResponse);
    EntryEnds(r.modules, r.core, skip);
    forall n | n in called ensures skip !in Writes(n) {
      assert n in r.modules && (n.id == m.id ==> n.kind.Xatu?);
    }
  }

  /** No response snooper or tracer before place `k` of the loop of response `i` is told and cannot send. */
  ghost predicate LoopReaches(s: State, i: nat, k: nat) {
    && i in s.orders && k < |s.orders[i]| && i < |s.loggers.loggers|
    && var c := CallOf(s, i);
       var d := if c in s.loggers.data then s.loggers.data[c] else map[];
       forall j :: 0 <= j < k ==>
         var m := s.orders[i][j];
         !(PassesGate(m, d) && m.sendFails && (m.kind.ResponseSnooper? || m.kind.ResponseTracer?))
  }

  /** The Xatu module is told of a response exactly if the loop gets to it. */
  lemma XatuToldIff(s: State, i: nat)
    requires Reachable(s) && i in s.orders
    ensures XatuTold(s, i) <==> exists k: nat :: LoopReaches(s, i, k) && s.orders[i][k].kind.Xatu?
  {
    ReachableInv(s);
    assert OrderOk(s, i);
    var order, d := s.orders[i], DataFound(s, CallOf(s, i));
    ToldPass(order, d);
    if XatuTold(s, i) {
      var m :| m in Told(order, d) && m.kind.Xatu?;
      var k: nat :| k < |order| && order[k] == m;
      ToldIff(order, d, k);
      assert LoopReaches(s, i, k);
    }
    if k: nat :| LoopReaches(s, i, k) && order[k].kind.Xatu? {
      XatuPasses(s, i, order[k]);
      ToldIff(order, d, k);
    }
  }

  // ----- What is published.

  /** When the loop gets to the Xatu module within 30 s of a request not yet answered, its data is published. */
  lemma TimelyResponsePublished(s: State, i: nat)
    requires Reachable(s) && InResponsePhase(s, i) && Enabled(s, Respond(i))
    requires XR.Kept(s.xatu, CallOf(s, i)) && !XR.Answered(s.xatu, CallOf(s, i))
    requires s.xatu.now - XatuHandlers.STALE <= s.xatu.requests[CallOf(s, i)].timestamp
    ensures Apply(s, Respond(i)).xatu.published == s.xatu.published + [XR.KeptRequest(s.xatu, CallOf(s, i))]
  {
    ReachableInv(s);
    HandlerIsRemembered(s, i);
    XR.TimelyResponsePublished(s.xatu, CallOf(s, i));
  }

  /**
   A logged response has told the Xatu module exactly if its loop got to it. Then the request has been answered, unless
   it had been evicted as stale before. And nothing is answered that no response or event of its call told of.
   */
  lemma FinishedResponse(s: State, i: nat)
    requires Reachable(s) && Finished(s, i)
    ensures i in s.orders && (i in s.told <==> XatuTold(s, i))
    ensures i in s.told ==> Settled(s.xatu, CallOf(s, i), s.told[i])
    ensures XR.Answered(s.xatu, CallOf(s, i)) ==> exists j :: AnsweredBy(s, CallOf(s, i), j)
  {
    ReachableInv(s);
    assert FinishedOk(s, i) && ToldOk(s, i) && AnswerOk(s, CallOf(s, i));
  }

  /** Logger `i` is the only one that could answer its call, and did so in time if it did. */
  ghost predicate OnlyAnswer(s: State, i: nat) {
    && Finished(s, i) && XR.Kept(s.xatu, CallOf(s, i))
    && (forall j: nat :: j in s.told && j < |s.loggers.loggers| && CallOf(s, j) == CallOf(s, i) ==> j == i)
    && (i in s.told ==> s.told[i] - XatuHandlers.STALE <= s.xatu.requests[CallOf(s, i)].timestamp)
  }

  /**
   Of a call with one response, in time: what its request said is published, once the response is logged, exactly if the
   Xatu module was among the modules and no module called before it stopped the loop.
   */
  lemma PublishedIffReached(s: State, i: nat)
    requires Reachable(s) && OnlyAnswer(s, i)
    ensures XR.KeptRequest(s.xatu, CallOf(s, i)) in s.xatu.published <==>
            exists k: nat :: LoopReaches(s, i, k) && s.orders[i][k].kind.Xatu?
  {
    var c := CallOf(s, i);
    FinishedResponse(s, i);
    XatuToldIff(s, i);
    ReachableInv(s);
    if XR.Answered(s.xatu, c) {
      var k :| 0 <= k < |s.xatu.published| && s.xatu.published[k].callID == c;
      assert s.xatu.published[k] == XR.KeptRequest(s.xatu, c);
      var j :| AnsweredBy(s, c, j);
      assert j == i;
    }
    if XR.KeptRequest(s.xatu, c) in s.xatu.published {
      var k :| 0 <= k < |s.xatu.published| && s.xatu.published[k] == XR.KeptRequest(s.xatu, c);
      assert XR.RouteOk(s.xatu, c) && s.xatu.published[k].callID == c;
    }
  }

  /**
   It does happen that the loop stops: with a snooper that cannot send before it, the Xatu module never hears of the
   response, which is logged all the same.
   */
  lemma BrokenSnooperHidesResponse(s: State, i: nat, snooper: Module<Json>, xatu: Module<Json>)
    requires Reachable(s) && InResponsePhase(s, i) && i !in s.orders && GoodModules([snooper, xatu])
    requires CallOf(s, i) in s.ran ==> SameKinds([snooper, xatu], s.ran[CallOf(s, i)].modules)
    requires snooper.kind.ResponseSnooper? && snooper.sendFails && xatu.kind.Xatu?
    requires PassesGate(snooper, DataFound(s, CallOf(s, i)))
    ensures var begin, end := BeginResponse(i, [snooper, xatu]), EndResponse(i);
      && Enabled(s, begin) && Enabled(Apply(s, begin), end)
      && var t := Apply(Apply(s, begin), end);
         Finished(t, i) && t.xatu == s.xatu && !XatuTold(t, i)
  {
    var order, d := [snooper, xatu], DataFound(s, CallOf(s, i));
    assert Told(order, d) == [snooper];
  }

  // ----- No log section gets stuck on its modules.

  /** What the Xatu module has been given so far can be how the request phase ends, once its handler is stored. */
  lemma RequestCanEnd(s: State, c: nat) returns (r: Ran)
    requires Reachable(s) && InRequestPhase(s.loggers, c)
    ensures c in s.xatu.routed && c !in s.xatu.slots ==> Enabled(s, Remember(c))
    ensures (c in s.xatu.routed ==> c in s.xatu.slots) ==> Enabled(s, EndRequest(c, r))
    ensures c !in s.xatu.requests ==>
              forall e: XatuHandlers.RequestEvent :: e.callID == c && e.timestamp <= s.xatu.now ==> Enabled(s, Route(e))
  {
    var xatu := Module(XATU, Xatu(Remembered(s.xatu, c)), NoFilter, NoFilter, false);
    r := Ran(if c in s.xatu.requests then [xatu] else [], map[]);
    assert BeforeFailure(r.modules) == r.modules;
    if c in s.xatu.requests { assert xatu in r.modules; }
  }

  /** The loop of a response can start in any order, goes on to the Xatu module if it gets there, and then ends. */
  lemma ResponseCanEnd(s: State, i: nat, order: seq<Module<Json>>)
    requires Reachable(s) && InResponsePhase(s, i) && GoodModules(order)
    requires CallOf(s, i) in s.ran ==> SameKinds(order, s.ran[CallOf(s, i)].modules)
    ensures i !in s.orders ==> Enabled(s, BeginResponse(i, order))
    ensures i in s.orders && XatuTold(s, i) && i !in s.told ==> Enabled(s, Respond(i))
    ensures i in s.orders && (XatuTold(s, i) ==> i in s.told) ==> Enabled(s, EndResponse(i))
  {
  }

  // ----- Each run is one of the loggers and one of the Xatu handlers.

  function LoggerSteps(steps: seq<Step>): seq<LS.Step<Data<Json>>> {
    if steps == [] then []
    else
      (match steps[0]
       case Log(l) => [l]
       case EndRequest(c, r) => [LS.Emit(c, DataOf(r))]
       case EndResponse(i) => [LS.Emit(i, map[])]
       case _ => []) + LoggerSteps(steps[1..])
  }

  /** What is proved of the loggers holds here: a step of theirs is theirs, and no other step touches them. */
  lemma {:induction false} RunOfLoggers(s: State, steps: seq<Step>)
    requires Legal(s, steps)
    ensures LS.Legal(s.loggers, LoggerSteps(steps))
    ensures LS.Execute(s.loggers, LoggerSteps(steps)) == Execute(s, steps).loggers
    decreases |steps|
  {
    if steps != [] {
      RunOfLoggers(Apply(s, steps[0]), steps[1..]);
      var rest := LoggerSteps(steps[1..]);
      match steps[0]
      case Log(l) => LoggerStepFirst(s.loggers, l, rest);
      case EndRequest(c, r) => LoggerStepFirst(s.loggers, LS.Emit(c, DataOf(r)), rest);
      case EndResponse(i) => LoggerStepFirst(s.loggers, LS.Emit(i, map[]), rest);
      case _ => assert [] + rest == rest;
    }
  }

  lemma LoggerStepFirst(s: LS.State<Data<Json>>, l: LS.Step<Data<Json>>, rest: seq<LS.Step<Data<Json>>>)
    requires LS.Enabled(s, l) && LS.Legal(LS.Apply(s, l), rest)
    ensures LS.Legal(s, [l] + rest) && LS.Execute(s, [l] + rest) == LS.Execute(LS.Apply(s, l), rest)
  {
    assert ([l] + rest)[1..] == rest;
  }

  ghost function XatuSteps(s: State, steps: seq<Step>): seq<XR.Step>
    requires Legal(s, steps)
    decreases |steps|
  {
    if steps == [] then []
    else
      (if XatuStep(s, steps[0]).Some? then [XatuStep(s, steps[0]).value] else [])
      + XatuSteps(Apply(s, steps[0]), steps[1..])
  }

  /** And so for the Xatu handlers. */
  lemma {:induction false} RunOfXatu(s: State, steps: seq<Step>)
    requires Legal(s, steps)
    ensures XR.Legal(s.xatu, XatuSteps(s, steps))
    ensures XR.Execute(s.xatu, XatuSteps(s, steps)) == Execute(s, steps).xatu
    decreases |steps|
  {
    if steps != [] {
      var t := Apply(s, steps[0]);
      RunOfXatu(t, steps[1..]);
      var rest := XatuSteps(t, steps[1..]);
      if XatuStep(s, steps[0]).Some? {
        XatuStepFrame(s, steps[0]);
        var x := XatuStep(s, steps[0]).value;
        assert ([x] + rest)[1..] == rest;
      } else {
        assert t.xatu == s.xatu && [] + rest == rest;
      }
    }
  }
}
