/**
 The Xatu event handlers, the router that picks one by method name, and the module that carries the choice from a
 call's request to its response.
 */
module XatuHandlers {
  import opened Options
  import opened XatuFields
  import opened CallData
  import opened ModuleOrder

  datatype HandlerKind = GetBlobs | NewPayload | ClientVersion

  function Prefix(k: HandlerKind): string {
    match k
    case GetBlobs => "engine_getBlobs"
    case NewPayload => "engine_newPayload"
    case ClientVersion => "engine_getClientVersion"
  }

  predicate Matches(k: HandlerKind, name: string) {
    HasPrefix(name, Prefix(k))
  }

  /** No method belongs to two kinds of handler. */
  lemma MatchesOne(k: HandlerKind, l: HandlerKind, name: string)
    requires Matches(k, name) && Matches(l, name)
    ensures k == l
  {
    assert name[7] == Prefix(k)[7] && name[7] == Prefix(l)[7];
    assert name[10] == Prefix(k)[10] && name[10] == Prefix(l)[10];
  }

  datatype RequestEvent = RequestEvent(callID: nat, timestamp: int, name: string, params: seq<Json>)

  datatype Waiting = Waiting(callID: nat, timestamp: int, fields: Fields)

  function FieldsOf(k: HandlerKind, e: RequestEvent): Fields
    requires !k.ClientVersion?
  {
    var version := MethodVersion(e.name, Prefix(k));
    if k.GetBlobs? then BlobRequest(version, e.params) else PayloadRequest(version, e.params)
  }

  function WaitingFor(k: HandlerKind, e: RequestEvent): Waiting
    requires !k.ClientVersion?
  {
    Waiting(e.callID, e.timestamp, FieldsOf(k, e))
  }

  /** In nanoseconds. */
  const STALE: int := 30_000_000_000

  /** The entries that are not older than 30 s. */
  function Fresh(pending: map<nat, Waiting>, now: int): map<nat, Waiting> {
    map id | id in pending && pending[id].timestamp >= now - STALE :: pending[id]
  }

  function WithRequest(k: HandlerKind, pending: map<nat, Waiting>, e: RequestEvent, now: int): map<nat, Waiting> {
    if k.ClientVersion? then pending else Fresh(pending, now)[e.callID := WaitingFor(k, e)]
  }

  /** A handler. Each publish attempt is recorded in `published`. */
  class EventHandler {
    const kind: HandlerKind
    var pending: map<nat, Waiting>
    var published: seq<Waiting>

    constructor (kind: HandlerKind)
      ensures this.kind == kind && pending == map[] && published == []
    {
      this.kind, pending, published := kind, map[], [];
    }

    method CleanupStale(now: int)
      modifies this`pending
      ensures pending == Fresh(old(pending), now)
      ensures forall id :: id in pending <==>
                id in old(pending) && now - 30_000_000_000 <= old(pending)[id].timestamp
    {
      var todo := pending.Keys;
      while todo != {}
        invariant todo <= pending.Keys <= old(pending).Keys
        invariant forall id <- pending :: pending[id] == old(pending)[id]
        invariant forall id <- todo :: id in pending
        invariant forall id :: id in old(pending) && id !in todo ==>
                    (id in pending <==> old(pending)[id].timestamp >= now - STALE)
        decreases |todo|
      {
        var id :| id in todo;
        if pending[id].timestamp < now - STALE {
          pending := pending - {id};
        }
        todo := todo - {id};
      }
    }

    /** True says that the response is wanted. */
    method HandleRequest(e: RequestEvent, now: int) returns (wanted: bool)
      modifies this`pending
      ensures wanted
      ensures pending == WithRequest(kind, old(pending), e, now)
    {
      if !kind.ClientVersion? {
        CleanupStale(now);
        pending := pending[e.callID := WaitingFor(kind, e)];
      }
      wanted := true;
    }

    method HandleResponse(callID: nat)
      modifies this`pending, this`published
      ensures pending == old(pending) - {callID}
      ensures published == old(published) + if callID in old(pending) then [old(pending)[callID]] else []
    {
      if callID in pending {
        published := published + [pending[callID]];
        pending := pending - {callID};
      }
    }
  }

  /** The first handler that matches. */
  function FirstMatch(kinds: seq<HandlerKind>, name: string): (i: Option<nat>)
    ensures i.Some? ==> i.value < |kinds|
  {
    if kinds == [] then None
    else if Matches(kinds[0], name) then Some(0)
    else
      match FirstMatch(kinds[1..], name)
      case None => None
      case Some(i) => Some(i + 1)
  }

  lemma {:induction false} FirstMatchIs(kinds: seq<HandlerKind>, name: string)
    ensures match FirstMatch(kinds, name)
      case None => forall j :: 0 <= j < |kinds| ==> !Matches(kinds[j], name)
      case Some(i) => Matches(kinds[i], name) && forall j :: 0 <= j < i ==> !Matches(kinds[j], name)
  {
    if kinds != [] {
      FirstMatchIs(kinds[1..], name);
      assert forall j :: 0 < j < |kinds| ==> kinds[j] == kinds[1..][j - 1];
    }
  }

  lemma FirstMatchUnique(kinds: seq<HandlerKind>, name: string, i: nat)
    requires i < |kinds| && Matches(kinds[i], name) && forall j :: 0 <= j < i ==> !Matches(kinds[j], name)
    ensures FirstMatch(kinds, name) == Some(i)
  {
    FirstMatchIs(kinds, name);
  }

  /** Two routers with the same kinds of handlers, registered in any order, pick the same kind for every method. */
  lemma OrderDoesNotMatter(kinds: seq<HandlerKind>, others: seq<HandlerKind>, name: string)
    requires forall k :: k in kinds <==> k in others
    ensures match FirstMatch(kinds, name)
      case None => FirstMatch(others, name) == None
      case Some(i) => FirstMatch(others, name).Some? && others[FirstMatch(others, name).value] == kinds[i]
  {
    FirstMatchIs(kinds, name);
    FirstMatchIs(others, name);
    if FirstMatch(kinds, name).Some? {
      var k := kinds[FirstMatch(kinds, name).value];
      assert k in others;
      MatchesOne(k, others[FirstMatch(others, name).value], name);
    } else {
      forall j | 0 <= j < |others| ensures !Matches(others[j], name) {
        assert others[j] in kinds;
      }
    }
  }

  /** The first match for a method of kind `k`, if such a handler is registered. */
  lemma RoutedToKind(kinds: seq<HandlerKind>, k: HandlerKind, name: string)
    requires Matches(k, name)
    ensures match FirstMatch(kinds, name)
      case None => k !in kinds
      case Some(i) => kinds[i] == k
  {
    FirstMatchIs(kinds, name);
    var i := FirstMatch(kinds, name);
    if i.Some? { MatchesOne(k, kinds[i.value], name); }
  }

  /** Each of the three families of methods goes to its own kind of handler. */
  lemma RouteByMethod(kinds: seq<HandlerKind>, suffix: string)
    ensures match FirstMatch(kinds, "engine_getBlobs" + suffix)
      case None => GetBlobs !in kinds
      case Some(i) => kinds[i] == GetBlobs
    ensures match FirstMatch(kinds, "engine_newPayload" + suffix)
      case None => NewPayload !in kinds
      case Some(i) => kinds[i] == NewPayload
    ensures match FirstMatch(kinds, "engine_getClientVersion" + suffix)
      case None => ClientVersion !in kinds
      case Some(i) => kinds[i] == ClientVersion
  {
    RoutedToKind(kinds, GetBlobs, "engine_getBlobs" + suffix);
    RoutedToKind(kinds, NewPayload, "engine_newPayload" + suffix);
    RoutedToKind(kinds, ClientVersion, "engine_getClientVersion" + suffix);
  }

  /** No other method is routed. */
  lemma OthersNotRouted(kinds: seq<HandlerKind>, name: string)
    requires !("engine_getBlobs" <= name) && !("engine_newPayload" <= name) && !("engine_getClientVersion" <= name)
    ensures FirstMatch(kinds, name) == None
  {
    FirstMatchIs(kinds, name);
  }

  /** What a handler keeps of a request of its family: the version is the suffix, the rest comes from the parameters. */
  lemma KeptOfRequest(callID: nat, timestamp: int, suffix: string, params: seq<Json>)
    ensures WaitingFor(GetBlobs, RequestEvent(callID, timestamp, "engine_getBlobs" + suffix, params))
            == Waiting(callID, timestamp, BlobRequest(suffix, params))
    ensures WaitingFor(NewPayload, RequestEvent(callID, timestamp, "engine_newPayload" + suffix, params))
            == Waiting(callID, timestamp, PayloadRequest(suffix, params))
    ensures BlobRequest(suffix, params).BlobFields? && BlobRequest(suffix, params).version == suffix
    ensures PayloadRequest(suffix, params).PayloadFields? && PayloadRequest(suffix, params).version == suffix
  {
    VersionFollowsPrefix("engine_getBlobs", suffix);
    VersionFollowsPrefix("engine_newPayload", suffix);
  }

  class Router {
    var handlers: seq<EventHandler>

    ghost function Kinds(): seq<HandlerKind>
      reads this
    {
      seq(|handlers|, i requires 0 <= i < |handlers| reads this => handlers[i].kind)
    }

    constructor ()
      ensures handlers == []
    {
      handlers := [];
    }

    method Register(h: EventHandler)
      modifies this
      ensures handlers == old(handlers) + [h]
      ensures Kinds() == old(Kinds()) + [h.kind]
    {
      handlers := handlers + [h];
    }

    /** Exactly the handler found first is told of the request. */
    method RouteRequest(e: RequestEvent, now: int) returns (found: Option<nat>)
      modifies set h <- handlers :: h`pending
      ensures found == FirstMatch(Kinds(), e.name)
      ensures found.Some? ==>
                var h := handlers[found.value];
                h.pending == WithRequest(h.kind, old(h.pending), e, now)
      ensures forall h <- handlers :: (found.Some? && h == handlers[found.value]) || h.pending == old(h.pending)
    {
      ghost var kinds := Kinds();
      var i := 0;
      while i < |handlers| && !Matches(handlers[i].kind, e.name)
        invariant 0 <= i <= |handlers|
        invariant forall j :: 0 <= j < i ==> !Matches(kinds[j], e.name)
      {
        i := i + 1;
      }
      FirstMatchIs(kinds, e.name);
      if i == |handlers| {
        return None;
      }
      FirstMatchUnique(kinds, e.name, i);
      assert handlers[i] in handlers;
      var wanted := handlers[i].HandleRequest(e, now);
      found := None;
      if wanted {
        found := Some(i);
      }
    }
  }

  function MethodOf(body: Json): string {
    if body.Object? then TextAt(body.members, "method") else ""
  }

  function ParamsOf(body: Json): seq<Json> {
    if body.Object? && "params" in body.members && body.members["params"].Array? then body.members["params"].elements
    else []
  }

  /** Method and parameters are read from a body that has them, whatever else it has. */
  lemma RequestBodyRead(others: map<string, Json>, name: string, params: seq<Json>)
    ensures var body := Object(others["method" := Str(name)]["params" := Array(params)]);
      MethodOf(body) == name && ParamsOf(body) == params
    ensures others.Keys !! {"method", "params"} ==> MethodOf(Object(others)) == "" && ParamsOf(Object(others)) == []
  {
    assert |"method"| == 6 && |"params"| == 6 && "method"[0] == 'm' && "params"[0] == 'p';
  }

  /** Handlers are named by their place in the router, which never changes. */
  class XatuModule {
    const id: nat
    const router: Router

    constructor (id: nat, router: Router)
      ensures this.id == id && this.router == router
    {
      this.id, this.router := id, router;
    }

    /** What the call is routed to. A body without a method is not routed at all. */
    ghost function Route(body: Json): Option<nat>
      reads this, router
    {
      if MethodOf(body) == "" then None else FirstMatch(router.Kinds(), MethodOf(body))
    }

    method OnRequest(ctx: CallContext<Datum<Json>>, callID: nat, timestamp: int, body: Json, now: int,
                     ghost d: Data<Json>)
      requires ModuleOrder.Holds(ctx, d)
      modifies ctx, set h <- router.handlers :: h`pending
      ensures var route := old(Route(body));
        && ModuleOrder.Holds(ctx, if route.Some? then d[Entry(id, XatuHandler) := Handler(route.value)] else d)
        && (route.Some? ==>
              var h := router.handlers[route.value];
              h.pending == WithRequest(h.kind, old(h.pending),
                                        RequestEvent(callID, timestamp, MethodOf(body), ParamsOf(body)), now))
        && (forall h <- router.handlers ::
              (route.Some? && h == router.handlers[route.value]) || h.pending == old(h.pending))
    {
      var name := MethodOf(body);
      if name == "" {
        return;
      }
      var found := router.RouteRequest(RequestEvent(callID, timestamp, name, ParamsOf(body)), now);
      if found.Some? {
        Store(ctx, id, XatuHandler, Handler(found.value), d);
      }
    }

    /** The handler stored with the call, and no other, is told of the response. */
    method OnResponse(ctx: CallContext<Datum<Json>>, callID: nat, ghost d: Data<Json>)
      requires ModuleOrder.Holds(ctx, d)
      requires Entry(id, XatuHandler) in d ==>
                 d[Entry(id, XatuHandler)].Handler? && d[Entry(id, XatuHandler)].handler < |router.handlers|
      modifies set h <- router.handlers :: h`pending, set h <- router.handlers :: h`published
      ensures forall h <- router.handlers ::
                if Entry(id, XatuHandler) in d && h == router.handlers[d[Entry(id, XatuHandler)].handler]
                then
                  && h.pending == old(h.pending) - {callID}
                  && h.published ==
                       old(h.published) + if callID in old(h.pending) then [old(h.pending)[callID]] else []
                else h.pending == old(h.pending) && h.published == old(h.published)
    {
      var stored := Fetch(ctx, id, XatuHandler, d);
      if stored.Some? {
        var handler := router.handlers[stored.value.handler];
        assert handler in router.handlers;
        handler.HandleResponse(callID);
      }
    }
  }
}
