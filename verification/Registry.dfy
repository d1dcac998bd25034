/**
 The module registry and the connections that fill it: the operations as the source runs them, each proved against
 a function of the state.
 */
module Registry {
  import opened Options

  datatype Kind = RequestSnooper | ResponseSnooper | RequestCounter | ResponseTracer | XatuModule

  /** `owner` is the connection a module sends to; the Xatu module has none. */
  datatype Module = Module(kind: Kind, owner: Option<nat>)

  datatype Filter<F> = Filter(jsonQuery: string, rest: F)

  datatype FilterConfig<F> = FilterConfig(request: Option<Filter<F>>, response: Option<Filter<F>>)

  /** The shared maps. `closed` lists the IDs of the modules closed so far. */
  datatype Tables<F> = Tables(modules: map<nat, Module>, filters: map<nat, FilterConfig<F>>, counter: nat, closed: seq<nat>)

  function Registered<F>(t: Tables<F>, id: nat, m: Module, filter: Option<FilterConfig<F>>): Tables<F> {
    t.(modules := t.modules[id := m],
       filters := if filter.Some? then t.filters[id := filter.value] else t.filters)
  }

  function Unregistered<F>(t: Tables<F>, id: nat): Tables<F> {
    if id in t.modules then
      t.(modules := t.modules - {id}, filters := t.filters - {id}, closed := t.closed + [id])
    else t
  }

  function TornDown<F>(t: Tables<F>, ids: seq<nat>): Tables<F>
    decreases |ids|
  {
    if ids == [] then t else TornDown(Unregistered(t, ids[0]), ids[1..])
  }

  function RemoveFirst(ids: seq<nat>, id: nat): seq<nat> {
    if ids == [] then []
    else if ids[0] == id then ids[1..]
    else [ids[0]] + RemoveFirst(ids[1..], id)
  }

  ghost predicate Distinct(ids: seq<nat>) {
    forall i, j :: 0 <= i < j < |ids| ==> ids[i] != ids[j]
  }

  /** From a list without repetition, removing the first occurrence removes the ID and keeps the order of the rest. */
  lemma {:induction false} RemoveFirstRemoves(ids: seq<nat>, id: nat)
    requires Distinct(ids)
    ensures Distinct(RemoveFirst(ids, id))
    ensures forall x :: x in RemoveFirst(ids, id) <==> x in ids && x != id
  {
    if ids != [] {
      var rest := ids[1..];
      assert ids == [ids[0]] + rest;
      assert forall x :: x in ids <==> x == ids[0] || x in rest;
      assert ids[0] !in rest;
      if ids[0] != id { RemoveFirstRemoves(rest, id); }
    }
  }

  lemma {:induction false} RemoveFirstAt(ids: seq<nat>, id: nat, i: nat)
    requires i < |ids| && ids[i] == id && id !in ids[..i]
    ensures RemoveFirst(ids, id) == ids[..i] + ids[i + 1..]
  {
    if i > 0 {
      assert ids[..i][0] == ids[0];
      assert ids[1..][..i - 1] == ids[..i][1..];
      RemoveFirstAt(ids[1..], id, i - 1);
    }
  }

  lemma {:induction false} RemoveFirstAbsent(ids: seq<nat>, id: nat)
    requires id !in ids
    ensures RemoveFirst(ids, id) == ids
  {
    if ids != [] { RemoveFirstAbsent(ids[1..], id); }
  }

  lemma UnregisteredRemoves<F>(t: Tables<F>, id: nat)
    ensures Unregistered(t, id).modules == t.modules - {id}
    ensures t.filters.Keys <= t.modules.Keys ==> Unregistered(t, id).filters == t.filters - {id}
  {
  }

  /** Tearing down a list removes exactly its modules and leaves every other module and filter as it is. */
  lemma {:induction false} TornDownRemoves<F>(t: Tables<F>, ids: seq<nat>)
    requires t.filters.Keys <= t.modules.Keys
    ensures TornDown(t, ids).modules == t.modules - set id <- ids
    ensures TornDown(t, ids).filters == t.filters - set id <- ids
    ensures TornDown(t, ids).counter == t.counter
    decreases |ids|
  {
    if ids != [] {
      UnregisteredRemoves(t, ids[0]);
      TornDownRemoves(Unregistered(t, ids[0]), ids[1..]);
      assert (set id <- ids) == {ids[0]} + set id <- ids[1..];
    } else {
      assert (set id <- ids) == {};
    }
  }

  /** Each of the listed modules that was registered is closed once, in the order of the list, and no other is. */
  lemma {:induction false} TornDownCloses<F>(t: Tables<F>, ids: seq<nat>)
    requires Distinct(ids)
    ensures TornDown(t, ids).closed == t.closed + Kept(ids, t.modules.Keys)
    decreases |ids|
  {
    if ids != [] {
      var u := Unregistered(t, ids[0]);
      TornDownCloses(u, ids[1..]);
      assert forall id <- ids[1..] :: id != ids[0];
      KeptSame(ids[1..], u.modules.Keys, t.modules.Keys);
    }
  }

  /** The elements of `ids` that are in `keys`, in order. */
  function Kept(ids: seq<nat>, keys: set<nat>): seq<nat> {
    if ids == [] then []
    else (if ids[0] in keys then [ids[0]] else []) + Kept(ids[1..], keys)
  }

  lemma {:induction false} KeptSame(ids: seq<nat>, keys: set<nat>, others: set<nat>)
    requires forall id <- ids :: id in keys <==> id in others
    ensures Kept(ids, keys) == Kept(ids, others)
  {
    if ids != [] { KeptSame(ids[1..], keys, others); }
  }

  class ModuleManager<F> {
    var modules: map<nat, Module>
    var filters: map<nat, FilterConfig<F>>
    var moduleCounter: nat
    var closed: seq<nat>

    function Contents(): Tables<F>
      reads this
    {
      Tables(modules, filters, moduleCounter, closed)
    }

    constructor ()
      ensures Contents() == Tables(map[], map[], 0, [])
    {
      modules, filters, moduleCounter, closed := map[], map[], 0, [];
    }

    method GenerateModuleID() returns (id: nat)
      modifies this`moduleCounter
      ensures moduleCounter == old(moduleCounter) + 1 == id
    {
      moduleCounter := moduleCounter + 1;
      id := moduleCounter;
    }

    method RegisterModule(id: nat, m: Module, filter: Option<FilterConfig<F>>)
      modifies this`modules, this`filters
      ensures Contents() == Registered(old(Contents()), id, m, filter)
    {
      modules := modules[id := m];
      if filter.Some? {
        filters := filters[id := filter.value];
      }
    }

    method UnregisterModule(id: nat)
      modifies this`modules, this`filters, this`closed
      ensures Contents() == Unregistered(old(Contents()), id)
    {
      if id in modules {
        closed := closed + [id];
        modules := modules - {id};
        filters := filters - {id};
      }
    }
  }

  datatype Reason = InvalidRequest | UnknownType | BadRequestFilter | BadResponseFilter | BadConfiguration

  datatype Reply = Accepted(id: nat) | Rejected(reason: Reason)

  datatype Registration<F> = Malformed | Registration(typeName: string, config: FilterConfig<F>)

  function KindNamed(typeName: string): Option<Kind> {
    match typeName
    case "request_snooper" => Some(RequestSnooper)
    case "response_snooper" => Some(ResponseSnooper)
    case "request_counter" => Some(RequestCounter)
    case "response_tracer" => Some(ResponseTracer)
    case _ => None
  }

  /** A filter that has no query is not compiled. */
  predicate Usable<F>(filter: Option<Filter<F>>, compiles: Filter<F> -> bool) {
    filter.Some? && filter.value.jsonQuery != "" ==> compiles(filter.value)
  }

  /** One connection: its number and the IDs of the modules it registered. */
  class ConnectionManager<F> {
    const manager: ModuleManager<F>
    const number: nat
    var modules: seq<nat>

    constructor (manager: ModuleManager<F>, number: nat)
      ensures this.manager == manager && this.number == number && modules == []
    {
      this.manager, this.number, modules := manager, number, [];
    }

    /**
     `handleModuleRegistration`. A module of the kind named is registered, with both filters, exactly if every check
     passes; otherwise nothing but the counter changes, and that only if the request could be parsed. The first check
     that does not pass gives the reason.
     */
    method HandleRegistration(req: Registration<F>, compiles: Filter<F> -> bool, configures: bool) returns (reply: Reply)
      modifies this`modules, manager`modules, manager`filters, manager`moduleCounter
      ensures reply == Rejected(InvalidRequest) <==> req.Malformed?
      ensures reply == Rejected(UnknownType) <==>
                req.Registration? && req.typeName != "request_snooper" && req.typeName != "response_snooper"
                && req.typeName != "request_counter" && req.typeName != "response_tracer"
      ensures reply == Rejected(BadRequestFilter) <==>
                && req.Registration? && KindNamed(req.typeName).Some?
                && req.config.request.Some? && req.config.request.value.jsonQuery != ""
                && !compiles(req.config.request.value)
      ensures reply == Rejected(BadResponseFilter) <==>
                && req.Registration? && KindNamed(req.typeName).Some? && reply != Rejected(BadRequestFilter)
                && req.config.response.Some? && req.config.response.value.jsonQuery != ""
                && !compiles(req.config.response.value)
      ensures reply == Rejected(BadConfiguration) <==>
                && req.Registration? && KindNamed(req.typeName).Some? && !configures
                && reply != Rejected(BadRequestFilter) && reply != Rejected(BadResponseFilter)
      ensures reply.Accepted? ==>
                && reply.id == old(manager.moduleCounter) + 1
                && modules == old(modules) + [reply.id]
                && reply.id in manager.modules && manager.modules[reply.id].owner == Some(number)
                && var kind := manager.modules[reply.id].kind;
                   && (kind == RequestSnooper <==> req.typeName == "request_snooper")
                   && (kind == ResponseSnooper <==> req.typeName == "response_snooper")
                   && (kind == RequestCounter <==> req.typeName == "request_counter")
                   && (kind == ResponseTracer <==> req.typeName == "response_tracer")
                   && manager.Contents() ==
                        Registered(old(manager.Contents()).(counter := reply.id), reply.id,
                                   Module(kind, Some(number)), Some(req.config))
      ensures reply.Rejected? ==>
                && modules == old(modules)
                && manager.Contents() ==
                     old(manager.Contents()).(counter := old(manager.moduleCounter) + if req.Malformed? then 0 else 1)
    {
      if req.Malformed? {
        return Rejected(InvalidRequest);
      }
      var id := manager.GenerateModuleID();
      var kind := KindNamed(req.typeName);
      if kind == None {
        return Rejected(UnknownType);
      }
      if !Usable(req.config.request, compiles) {
        return Rejected(BadRequestFilter);
      }
      if !Usable(req.config.response, compiles) {
        return Rejected(BadResponseFilter);
      }
      if !configures {
        return Rejected(BadConfiguration);
      }
      manager.RegisterModule(id, Module(kind.value, Some(number)), Some(req.config));
      modules := modules + [id];
      reply := Accepted(id);
    }

    /** `handleModuleUnregistration`, for any ID the client names. */
    method HandleUnregistration(id: nat)
      modifies this`modules, manager`modules, manager`filters, manager`closed
      ensures manager.Contents() == Unregistered(old(manager.Contents()), id)
      ensures modules == RemoveFirst(old(modules), id)
    {
      manager.UnregisterModule(id);
      var i := 0;
      while i < |modules|
        invariant 0 <= i <= |modules|
        invariant modules == old(modules) && id !in modules[..i]
      {
        if modules[i] == id {
          RemoveFirstAt(modules, id, i);
          modules := modules[..i] + modules[i + 1..];
          return;
        }
        i := i + 1;
      }
      assert modules[..i] == modules;
      RemoveFirstAbsent(modules, id);
    }

    /** The deferred loop of `HandleWebSocket`. */
    method TearDown()
      modifies manager`modules, manager`filters, manager`closed
      ensures manager.Contents() == TornDown(old(manager.Contents()), modules)
    {
      var i := 0;
      while i < |modules|
        invariant 0 <= i <= |modules|
        invariant TornDown(manager.Contents(), modules[i..]) == TornDown(old(manager.Contents()), modules)
        invariant manager.moduleCounter == old(manager.moduleCounter)
      {
        assert modules[i..][0] == modules[i] && modules[i..][1..] == modules[i + 1..];
        manager.UnregisterModule(modules[i]);
        i := i + 1;
      }
    }
  }
}
