/**
 Whole runs of the Xatu module: requests and responses of any number of calls in any order, with call IDs that are
 used once. Handlers may be registered at any time. A response may come before its handler is stored with the call,
 and more than once, as for event streams.
 */
module XatuRuns {
  import Bytes
  import opened Options
  import opened XatuFields
  import opened XatuHandlers

  datatype HandlerState = HandlerState(kind: HandlerKind, pending: map<nat, Waiting>)

  /**
   `requests` are the requests handled, `routed` the handlers they went to and `slots` the handlers stored in the
   call data. `published` records the publish attempts, `evicted` the calls removed as stale.
   */
  datatype State = State(
    now: int,
    handlers: seq<HandlerState>,
    requests: map<nat, RequestEvent>,
    routed: map<nat, nat>,
    slots: map<nat, nat>,
    published: seq<Waiting>,
    evicted: set<nat>)

  datatype Step =
    | Register(kind: HandlerKind)
    | Request(event: RequestEvent)   // route it: evict what is stale, store it
    | Remember(callID: nat)          // store the handler in the call data
    | Respond(callID: nat)
    | Pass(time: nat)

  function Kinds(s: State): seq<HandlerKind> {
    seq(|s.handlers|, i requires 0 <= i < |s.handlers| => s.handlers[i].kind)
  }

  predicate Enabled(s: State, step: Step) {
    match step
    case Request(e) => e.callID !in s.requests && e.timestamp <= s.now
    case Remember(c) => c in s.routed
    case _ => true
  }

  function Apply(s: State, step: Step): State
    requires Enabled(s, step)
  {
    match step
    case Register(kind) => s.(handlers := s.handlers + [HandlerState(kind, map[])])
    case Request(e) =>
      var t := s.(requests := s.requests[e.callID := e]);
      (match FirstMatch(Kinds(s), e.name)
       case None => t
       case Some(i) =>
         var h := s.handlers[i];
         var after := WithRequest(h.kind, h.pending, e, s.now);
         t.(handlers := s.handlers[i := HandlerState(h.kind, after)],
            routed := s.routed[e.callID := i],
            evicted := s.evicted + (h.pending.Keys - after.Keys)))
    case Remember(c) => s.(slots := s.slots[c := s.routed[c]])
    case Respond(c) =>
      if c in s.slots && s.slots[c] < |s.handlers| then
        var h := s.handlers[s.slots[c]];
        s.(handlers := s.handlers[s.slots[c] := HandlerState(h.kind, h.pending - {c})],
           published := s.published + if c in h.pending then [h.pending[c]] else [])
      else s
    case Pass(time) => s.(now := s.now + time)
  }

  ghost predicate Legal(s: State, steps: seq<Step>)
    decreases |steps|
  {
    steps == [] || (Enabled(s, steps[0]) && Legal(Apply(s, steps[0]), steps[1..]))
  }

  ghost function Execute(s: State, steps: seq<Step>): State
    requires Legal(s, steps)
    decreases |steps|
  {
    if steps == [] then s else Execute(Apply(s, steps[0]), steps[1..])
  }

  function Init(now: int): State {
    State(now, [], map[], map[], map[], [], {})
  }

  ghost predicate Reachable(s: State) {
    exists now, steps :: Legal(Init(now), steps) && Execute(Init(now), steps) == s
  }

  // ----- The invariant.

  predicate PendingAt(s: State, i: nat, c: nat) {
    i < |s.handlers| && c in s.handlers[i].pending
  }

  predicate Answered(s: State, c: nat) {
    exists k :: 0 <= k < |s.published| && s.published[k].callID == c
  }

  /** The request went to a handler that keeps requests. */
  predicate Kept(s: State, c: nat) {
    && c in s.requests && c in s.routed && s.routed[c] < |s.handlers|
    && !s.handlers[s.routed[c]].kind.ClientVersion?
  }

  /** What the handler kept of the request of call `c`. */
  function KeptRequest(s: State, c: nat): Waiting
    requires Kept(s, c)
  {
    WaitingFor(s.handlers[s.routed[c]].kind, s.requests[c])
  }

  ghost predicate RouteOk(s: State, c: nat) {
    && (c in s.routed ==>
          && c in s.requests && s.routed[c] < |s.handlers|
          && Matches(s.handlers[s.routed[c]].kind, s.requests[c].name))
    && (c in s.requests ==> s.requests[c].callID == c)
    && (c in s.slots ==> c in s.routed && s.slots[c] == s.routed[c])
  }

  ghost predicate CallOk(s: State, c: nat) {
    && (forall i: nat :: PendingAt(s, i, c) ==>
          Kept(s, c) && s.routed[c] == i && s.handlers[i].pending[c] == KeptRequest(s, c))
    && (c in s.evicted ==>
          Kept(s, c) && !PendingAt(s, s.routed[c], c) && s.requests[c].timestamp < s.now - STALE)
    && (Answered(s, c) ==> Kept(s, c) && !PendingAt(s, s.routed[c], c) && c !in s.evicted)
    && (Kept(s, c) ==> PendingAt(s, s.routed[c], c) || c in s.evicted || Answered(s, c))
  }

  ghost predicate PublishedOk(s: State) {
    && (forall k :: 0 <= k < |s.published| ==>
          Kept(s, s.published[k].callID) && s.published[k] == KeptRequest(s, s.published[k].callID))
    && (forall j, k :: 0 <= j < k < |s.published| ==> s.published[j].callID != s.published[k].callID)
  }

  ghost predicate Inv(s: State) {
    && PublishedOk(s)
    && (forall c: nat :: RouteOk(s, c))
    && (forall c: nat :: CallOk(s, c))
  }

  // ----- Every step keeps it.

  lemma RequestKeepsRoute(s: State, e: RequestEvent, c: nat)
    requires Inv(s) && Enabled(s, Request(e))
    ensures RouteOk(Apply(s, Request(e)), c)
  {
    assert RouteOk(s, c);
    FirstMatchIs(Kinds(s), e.name);
  }

  /** Nothing about call `c` differs. */
  ghost predicate SameCall(s: State, t: State, c: nat) {
    && |s.handlers| <= |t.handlers|
    && (forall i :: 0 <= i < |s.handlers| ==> t.handlers[i].kind == s.handlers[i].kind)
    && (c in t.requests <==> c in s.requests) && (c in s.requests ==> t.requests[c] == s.requests[c])
    && (c in t.routed <==> c in s.routed) && (c in s.routed ==> t.routed[c] == s.routed[c] < |s.handlers|)
    && (forall i: nat :: PendingAt(t, i, c) <==> PendingAt(s, i, c))
    && (forall i: nat :: PendingAt(s, i, c) ==> t.handlers[i].pending[c] == s.handlers[i].pending[c])
    && (c in t.evicted <==> c in s.evicted)
    && (Answered(t, c) <==> Answered(s, c))
    && s.now <= t.now
  }

  lemma SameCallOk(s: State, t: State, c: nat)
    requires SameCall(s, t, c) && CallOk(s, c)
    ensures CallOk(t, c)
  {
    assert Kept(t, c) <==> Kept(s, c);
  }

  lemma RequestKeepsOther(s: State, e: RequestEvent, c: nat)
    requires Inv(s) && Enabled(s, Request(e)) && c != e.callID
    ensures CallOk(Apply(s, Request(e)), c)
  {
    assert RouteOk(s, c) && CallOk(s, c);
    var t := Apply(s, Request(e));
    var h := FirstMatch(Kinds(s), e.name);
    if h.Some? && PendingAt(s, h.value, c) && s.requests[c].timestamp < s.now - STALE
       && !s.handlers[h.value].kind.ClientVersion?
    {
      assert !PendingAt(t, h.value, c);
      assert forall i: nat :: PendingAt(t, i, c) ==> PendingAt(s, i, c);
      assert Answered(t, c) <==> Answered(s, c);
      assert Kept(t, c) && c in t.evicted;
    } else {
      assert SameCall(s, t, c);
      SameCallOk(s, t, c);
    }
  }

  lemma RequestKeepsOwn(s: State, e: RequestEvent)
    requires Inv(s) && Enabled(s, Request(e))
    ensures CallOk(Apply(s, Request(e)), e.callID)
  {
    var t, c := Apply(s, Request(e)), e.callID;
    assert RouteOk(s, c) && CallOk(s, c);
    assert !Kept(s, c);
    assert Answered(t, c) <==> Answered(s, c);
    assert forall i: nat :: PendingAt(t, i, c) ==> c in t.routed && t.routed[c] == i;
  }

  lemma RespondKeepsOther(s: State, d: nat, c: nat)
    requires Inv(s) && c != d
    ensures CallOk(Apply(s, Respond(d)), c)
  {
    assert RouteOk(s, c) && CallOk(s, c) && RouteOk(s, d) && CallOk(s, d);
    var t := Apply(s, Respond(d));
    assert forall k :: 0 <= k < |s.published| ==> t.published[k] == s.published[k];
    if |t.published| > |s.published| {
      assert PendingAt(s, s.slots[d], d);
      assert t.published[|s.published|] == KeptRequest(s, d);
    }
    assert Answered(s, c) <==> Answered(t, c);
    SameCallOk(s, t, c);
  }

  lemma RespondKeepsOwn(s: State, c: nat)
    requires Inv(s)
    ensures CallOk(Apply(s, Respond(c)), c)
  {
    assert RouteOk(s, c) && CallOk(s, c);
    var t := Apply(s, Respond(c));
    if c in s.slots && PendingAt(s, s.slots[c], c) {
      assert t.published[|s.published|] == KeptRequest(s, c);
      assert Answered(t, c);
      assert forall i: nat :: PendingAt(t, i, c) ==> PendingAt(s, i, c);
    } else {
      assert t.published == s.published;
      SameCallOk(s, t, c);
    }
  }

  lemma RespondKeepsPublished(s: State, d: nat)
    requires Inv(s)
    ensures PublishedOk(Apply(s, Respond(d)))
  {
    assert RouteOk(s, d) && CallOk(s, d);
    forall k | 0 <= k < |s.published| ensures Answered(s, s.published[k].callID) {
    }
  }

  lemma OtherStepsKeepInv(s: State, step: Step)
    requires Inv(s) && Enabled(s, step) && !step.Request? && !step.Respond?
    ensures Inv(Apply(s, step))
  {
    var t := Apply(s, step);
    forall c: nat ensures RouteOk(t, c) && CallOk(t, c) {
      assert RouteOk(s, c) && CallOk(s, c);
      SameCallOk(s, t, c);
    }
  }

  lemma RequestKeepsPublished(s: State, e: RequestEvent)
    requires Inv(s) && Enabled(s, Request(e))
    ensures PublishedOk(Apply(s, Request(e)))
  {
    forall k | 0 <= k < |s.published| ensures s.published[k].callID != e.callID {
      assert Kept(s, s.published[k].callID);
    }
  }

  lemma RespondKeepsRoute(s: State, d: nat, c: nat)
    requires Inv(s)
    ensures RouteOk(Apply(s, Respond(d)), c)
  {
    assert RouteOk(s, c);
  }

  lemma StepKeepsInv(s: State, step: Step)
    requires Inv(s) && Enabled(s, step)
    ensures Inv(Apply(s, step))
  {
    match step
    case Request(e) =>
      RequestKeepsPublished(s, e);
      forall c: nat ensures RouteOk(Apply(s, step), c) && CallOk(Apply(s, step), c) {
        RequestKeepsRoute(s, e, c);
        if c == e.callID { RequestKeepsOwn(s, e); } else { RequestKeepsOther(s, e, c); }
      }
    case Respond(d) =>
      RespondKeepsPublished(s, d);
      forall c: nat ensures RouteOk(Apply(s, step), c) && CallOk(Apply(s, step), c) {
        RespondKeepsRoute(s, d, c);
        if c == d { RespondKeepsOwn(s, d); } else { RespondKeepsOther(s, d, c); }
      }
    case _ => OtherStepsKeepInv(s, step);
  }

  lemma {:induction false} RunKeepsInv(s: State, steps: seq<Step>)
    requires Inv(s) && Legal(s, steps)
    ensures Inv(Execute(s, steps))
    decreases |steps|
  {
    if steps != [] {
      StepKeepsInv(s, steps[0]);
      RunKeepsInv(Apply(s, steps[0]), steps[1..]);
    }
  }

  lemma ReachableInv(s: State)
    requires Reachable(s)
    ensures Inv(s)
  {
    var now, steps :| Legal(Init(now), steps) && Execute(Init(now), steps) == s;
    RunKeepsInv(Init(now), steps);
  }

  // ----- What holds in every run.

  /** Every request a handler kept is waiting at that handler, answered or evicted, and only one of these. */
  lemma EveryRequestAccounted(s: State, c: nat)
    requires Reachable(s)
    ensures Kept(s, c) <==> (exists i: nat :: PendingAt(s, i, c)) || Answered(s, c) || c in s.evicted
    ensures forall i: nat :: PendingAt(s, i, c) ==> !Answered(s, c) && c !in s.evicted && s.routed[c] == i
    ensures Answered(s, c) ==> c !in s.evicted
  {
    ReachableInv(s);
    assert CallOk(s, c);
  }

  /** However often a call is answered it is published at most once, with what its own request said. */
  lemma PublishedOnce(s: State, j: nat, k: nat)
    requires Reachable(s) && j < |s.published| && k < |s.published|
    ensures j != k ==> s.published[j].callID != s.published[k].callID
    ensures var p := s.published[k];
      && Kept(s, p.callID)
      && var kind, e := s.handlers[s.routed[p.callID]].kind, s.requests[p.callID];
         && e.callID == p.callID && p.timestamp == e.timestamp
         && e.name == Prefix(kind) + p.fields.version
         && p.fields == if kind == GetBlobs then BlobRequest(p.fields.version, e.params)
                        else PayloadRequest(p.fields.version, e.params)
  {
    ReachableInv(s);
    assert RouteOk(s, s.published[k].callID);
  }

  /** After a request its handler holds no older entry past the limit, and it dropped only such entries. */
  lemma NothingStaleAfterRequest(s: State, e: RequestEvent, i: nat, c: nat)
    requires Reachable(s) && Enabled(s, Request(e)) && FirstMatch(Kinds(s), e.name) == Some(i)
    requires c != e.callID && !s.handlers[i].kind.ClientVersion?
    ensures PendingAt(Apply(s, Request(e)), i, c) <==>
            PendingAt(s, i, c) && c in s.requests && s.now - STALE <= s.requests[c].timestamp
    ensures c in Apply(s, Request(e)).evicted <==>
            c in s.evicted || (PendingAt(s, i, c) && c in s.requests && s.requests[c].timestamp < s.now - STALE)
  {
    ReachableInv(s);
    assert CallOk(s, c) && RouteOk(s, c);
  }

  /** The handler stored with a call is the one that took its request, and only its kind matches the method. */
  lemma ResponseFindsItsHandler(s: State, c: nat, i: nat)
    requires Reachable(s) && c in s.slots && i < |s.handlers|
    ensures c in s.requests && s.slots[c] < |s.handlers| && c in s.routed && s.slots[c] == s.routed[c]
    ensures PendingAt(s, i, c) ==> i == s.slots[c]
    ensures Matches(s.handlers[i].kind, s.requests[c].name) <==> s.handlers[i].kind == s.handlers[s.slots[c]].kind
  {
    ReachableInv(s);
    assert RouteOk(s, c) && CallOk(s, c);
    if Matches(s.handlers[i].kind, s.requests[c].name) {
      MatchesOne(s.handlers[i].kind, s.handlers[s.slots[c]].kind, s.requests[c].name);
    }
  }

  /** A first response within 30 s of the request is published with the request's data, once the handler is stored. */
  lemma TimelyResponsePublished(s: State, c: nat)
    requires Inv(s) && c in s.slots && Kept(s, c) && !Answered(s, c)
    requires s.now - STALE <= s.requests[c].timestamp
    ensures Apply(s, Respond(c)).published == s.published + [KeptRequest(s, c)]
  {
    assert RouteOk(s, c) && CallOk(s, c);
  }

  /** What a call has settled stays settled. */
  ghost predicate StaysSettled(s: State, t: State, c: nat) {
    && (c in t.requests <==> c in s.requests) && (c in s.requests ==> t.requests[c] == s.requests[c])
    && (c in t.routed <==> c in s.routed) && (Kept(t, c) <==> Kept(s, c))
    && (Answered(s, c) ==> Answered(t, c)) && (c in s.evicted ==> c in t.evicted)
    && s.now <= t.now
  }

  lemma RequestSettlesNoOther(s: State, e: RequestEvent, c: nat)
    requires Inv(s) && Enabled(s, Request(e)) && e.callID != c
    ensures StaysSettled(s, Apply(s, Request(e)), c)
  {
    assert RouteOk(s, c);
  }

  lemma RespondStaysSettled(s: State, d: nat, c: nat)
    requires Inv(s)
    ensures StaysSettled(s, Apply(s, Respond(d)), c)
  {
    assert RouteOk(s, c);
    if Answered(s, c) {
      var k :| 0 <= k < |s.published| && s.published[k].callID == c;
      assert Apply(s, Respond(d)).published[k].callID == c;
    }
  }

  /** Any step but its own request leaves a call as settled as it was. */
  lemma OtherCallsSettle(s: State, step: Step, c: nat)
    requires Inv(s) && Enabled(s, step) && (step.Request? ==> step.event.callID != c)
    ensures StaysSettled(s, Apply(s, step), c)
  {
    match step
    case Request(e) => RequestSettlesNoOther(s, e, c);
    case Respond(d) => RespondStaysSettled(s, d, c);
    case _ => assert RouteOk(s, c);
  }

  /** A response publishes nothing, or what its own call's request said. */
  lemma PublishedByRespond(s: State, d: nat)
    requires Inv(s)
    ensures var published := Apply(s, Respond(d)).published;
      published == s.published
      || (Kept(s, d) && KeptRequest(s, d).callID == d && published == s.published + [KeptRequest(s, d)])
  {
    assert RouteOk(s, d) && CallOk(s, d);
  }

  lemma OtherStepsPublishNothing(s: State, step: Step)
    requires Enabled(s, step) && !step.Respond?
    ensures Apply(s, step).published == s.published
  {
  }

  /** Only its own response answers a call. */
  lemma OnlyRespondAnswers(s: State, step: Step, c: nat)
    requires Inv(s) && Enabled(s, step) && Answered(Apply(s, step), c) && step != Respond(c)
    ensures Answered(s, c)
  {
    if step.Respond? { PublishedByRespond(s, step.callID); } else { OtherStepsPublishNothing(s, step); }
    var published := Apply(s, step).published;
    var k :| 0 <= k < |published| && published[k].callID == c;
    assert s.published[k].callID == c;
  }

  // ----- What the steps of a run say about its state.

  /** A request of a method some handler is registered for goes to a handler of that kind, and is kept there. */
  lemma RequestIsKept(s: State, e: RequestEvent, k: HandlerKind)
    requires Enabled(s, Request(e)) && k in Kinds(s) && Matches(k, e.name)
    ensures var t, c := Apply(s, Request(e)), e.callID;
      && c in t.routed && t.routed[c] < |t.handlers| && t.handlers[t.routed[c]].kind == k
      && (k != ClientVersion ==> PendingAt(t, t.routed[c], c) && t.handlers[t.routed[c]].pending[c] == WaitingFor(k, e))
  {
    RoutedToKind(Kinds(s), k, e.name);
  }

  ghost predicate Requested(steps: seq<Step>, c: nat) {
    exists e: RequestEvent :: Request(e) in steps && e.callID == c
  }

  function KindsRegistered(steps: seq<Step>): seq<HandlerKind> {
    if steps == [] then []
    else (if steps[0].Register? then [steps[0].kind] else []) + KindsRegistered(steps[1..])
  }

  function TimePassed(steps: seq<Step>): nat {
    if steps == [] then 0 else (if steps[0].Pass? then steps[0].time else 0) + TimePassed(steps[1..])
  }

  lemma StepRecords(s: State, step: Step, c: nat)
    requires Enabled(s, step)
    ensures var t := Apply(s, step);
      && (c in t.slots <==> c in s.slots || step == Remember(c))
      && (c in t.requests <==> c in s.requests || (step.Request? && step.event.callID == c))
      && (c in t.requests ==> (c in s.requests && t.requests[c] == s.requests[c]) || step == Request(t.requests[c]))
      && t.now == s.now + if step.Pass? then step.time else 0
  {
  }

  lemma StepKinds(s: State, step: Step)
    requires Enabled(s, step)
    ensures Kinds(Apply(s, step)) == Kinds(s) + if step.Register? then [step.kind] else []
  {
  }

  lemma InFirst(steps: seq<Step>)
    requires steps != []
    ensures forall step :: step in steps <==> step == steps[0] || step in steps[1..]
  {
    assert steps == [steps[0]] + steps[1..];
  }

  /** A handler is stored with a call exactly if a step stored it. */
  lemma {:induction false} RunSlots(s: State, steps: seq<Step>, c: nat)
    requires Legal(s, steps)
    ensures c in Execute(s, steps).slots <==> c in s.slots || Remember(c) in steps
    decreases |steps|
  {
    if steps != [] {
      StepRecords(s, steps[0], c);
      RunSlots(Apply(s, steps[0]), steps[1..], c);
      InFirst(steps);
    }
  }

  /** A call has a request exactly if a step handled one, and it is that one. */
  lemma {:induction false} RunRequests(s: State, steps: seq<Step>, c: nat)
    requires Legal(s, steps)
    ensures var t := Execute(s, steps).requests;
      && (c in t <==> c in s.requests || Requested(steps, c))
      && (c in t ==> (c in s.requests && t[c] == s.requests[c]) || Request(t[c]) in steps)
    decreases |steps|
  {
    if steps != [] {
      var rest := steps[1..];
      StepRecords(s, steps[0], c);
      RunRequests(Apply(s, steps[0]), rest, c);
      InFirst(steps);
      assert Requested(rest, c) ==> Requested(steps, c);
      assert steps[0].Request? && steps[0].event.callID == c ==> Requested(steps, c) by {
        if steps[0].Request? { assert Request(steps[0].event) in steps; }
      }
    }
  }

  /** The handlers registered are those of the steps, in order. */
  lemma {:induction false} RunKinds(s: State, steps: seq<Step>)
    requires Legal(s, steps)
    ensures Kinds(Execute(s, steps)) == Kinds(s) + KindsRegistered(steps)
    decreases |steps|
  {
    if steps == [] {
      assert Kinds(s) + [] == Kinds(s);
    } else {
      StepKinds(s, steps[0]);
      RunKinds(Apply(s, steps[0]), steps[1..]);
      Bytes.Associative(Kinds(s), if steps[0].Register? then [steps[0].kind] else [], KindsRegistered(steps[1..]));
    }
  }

  lemma {:induction false} RunTime(s: State, steps: seq<Step>)
    requires Legal(s, steps)
    ensures Execute(s, steps).now == s.now + TimePassed(steps)
    decreases |steps|
  {
    if steps != [] {
      StepRecords(s, steps[0], 0);
      RunTime(Apply(s, steps[0]), steps[1..]);
    }
  }
}
