/**
 Running a call through the registered modules, whose iteration order Go leaves open: what ends up in the call data
 and which modules see the response.
 */
module ModuleOrder {
  import Bytes
  import opened CallData
  import opened Options

  /** Values the core and the built-in modules store. `J` is decoded JSON, handlers are named by number. */
  datatype Datum<J> = Flag | Size(size: nat) | Extracted(json: J) | Handler(handler: nat)

  /** The entries in use. Different ones have different names, see `NameTextInjective`. */
  datatype Name = SkipResponse | WantsResponse | RequestData | XatuHandler | RequestSize

  function NameText(n: Name): string {
    match n
    case SkipResponse => "skip_response"
    case WantsResponse => "wants_response"
    case RequestData => "request_extracted_data"
    case XatuHandler => "xatu_handler"
    case RequestSize => "request_size"
  }

  lemma NameTextInjective(m: Name, n: Name)
    requires NameText(m) == NameText(n)
    ensures m == n
  {
    assert |NameText(m)| == |NameText(n)|;
    assert NameText(m)[0] == NameText(n)[0];
    assert NameText(m)[8] == NameText(n)[8];
  }

  datatype Entry = Entry(id: nat, name: Name)

  type Data<J> = map<Entry, Datum<J>>

  function SlotOf(e: Entry): Slot {
    Slot(e.id, NameText(e.name))
  }

  ghost predicate Injective(slotOf: Entry -> Slot) {
    forall e, f :: slotOf(e) == slotOf(f) ==> e == f
  }

  lemma SlotOfInjective()
    ensures Injective(SlotOf)
  {
    forall e, f | SlotOf(e) == SlotOf(f) ensures e == f {
      NameTextInjective(e.name, f.name);
    }
  }

  /** The call data holds exactly the entries of `d` among those with a name in use. */
  ghost predicate Shows<J>(slots: map<Slot, Datum<J>>, d: Data<J>, slotOf: Entry -> Slot) {
    forall e :: (e in d <==> slotOf(e) in slots) && (e in d ==> d[e] == slots[slotOf(e)])
  }

  lemma ShowsStored<J>(slots: map<Slot, Datum<J>>, d: Data<J>, slotOf: Entry -> Slot, e: Entry, value: Datum<J>)
    requires Injective(slotOf) && Shows(slots, d, slotOf)
    ensures Shows(slots[slotOf(e) := value], d[e := value], slotOf)
  {
  }

  /** A call context whose data, in slots, is `d`. */
  ghost predicate Holds<J>(ctx: CallContext<Datum<J>>, d: Data<J>)
    reads ctx
  {
    ctx.Valid() && Shows(ctx.slots, d, SlotOf)
  }

  method Store<J>(ctx: CallContext<Datum<J>>, id: nat, name: Name, value: Datum<J>, ghost d: Data<J>)
    requires Holds(ctx, d)
    modifies ctx
    ensures Holds(ctx, d[Entry(id, name) := value])
  {
    SlotOfInjective();
    ShowsStored(ctx.slots, d, SlotOf, Entry(id, name), value);
    ctx.SetData(id, NameText(name), value);
  }

  method Fetch<J>(ctx: CallContext<Datum<J>>, id: nat, name: Name, ghost d: Data<J>) returns (value: Option<Datum<J>>)
    requires Holds(ctx, d)
    ensures value == if Entry(id, name) in d then Some(d[Entry(id, name)]) else None
  {
    value := ctx.GetData(id, NameText(name));
    assert Entry(id, name) in d <==> SlotOf(Entry(id, name)) in ctx.slots;
  }

  /** What a filter, if there is one, says about this call. Filters look at the request or response only. */
  datatype Verdict = NoFilter | Accepts | Rejects

  datatype Kind<J> =
    | RequestSnooper
    | ResponseSnooper
    | RequestCounter
    | ResponseTracer(extracted: Option<J>)   // what the request query yields, if it is set and applies
    | Xatu(handler: Option<nat>)             // the handler the router picks, if any

  /** A registered module as this call meets it. `sendFails` says whether writing to its connection fails now. */
  datatype Module<J> = Module(id: nat, kind: Kind<J>, request: Verdict, response: Verdict, sendFails: bool)

  /** The module's `OnRequest` is called and returns an error: it could not send its event. */
  predicate FailsOnRequest<J>(m: Module<J>) {
    m.request != Rejects && (m.kind.RequestSnooper? || m.kind.RequestCounter?) && m.sendFails
  }

  /** What the gate and `OnRequest` store for this module. */
  function Writes<J>(m: Module<J>): (w: Data<J>)
    ensures forall p <- w :: p.id == m.id
  {
    if m.request == Rejects then map[Entry(m.id, SkipResponse) := Flag]
    else
      match m.kind
      case RequestSnooper => map[]
      case RequestCounter => map[]
      case ResponseSnooper => map[Entry(m.id, WantsResponse) := Flag]
      case ResponseTracer(None) => map[Entry(m.id, WantsResponse) := Flag]
      case ResponseTracer(Some(v)) => map[Entry(m.id, WantsResponse) := Flag, Entry(m.id, RequestData) := Extracted(v)]
      case Xatu(None) => map[]
      case Xatu(Some(h)) => map[Entry(m.id, XatuHandler) := Handler(h)]
  }

  /** Calling the modules in this order, up to and including the first that fails. */
  function AfterRequest<J>(modules: seq<Module<J>>, d: Data<J>): Data<J> {
    if modules == [] then d
    else if FailsOnRequest(modules[0]) then d
    else AfterRequest(modules[1..], d + Writes(modules[0]))
  }

  ghost predicate NoneFails<J>(modules: seq<Module<J>>) {
    forall m <- modules :: !FailsOnRequest(m)
  }

  /** The gate of `ProcessRequest` for one module. */
  method ShouldProcessRequest<J>(m: Module<J>, ctx: CallContext<Datum<J>>, ghost d: Data<J>) returns (should: bool)
    requires Holds(ctx, d)
    modifies ctx
    ensures should <==> m.request != Rejects
    ensures Holds(ctx, if should then d else d + Writes(m))
  {
    should := m.request != Rejects;
    if !should {
      Store(ctx, m.id, SkipResponse, Flag, d);
      WritesOne(m, d, Entry(m.id, SkipResponse), Flag);
    }
  }

  lemma WritesOne<J>(m: Module<J>, d: Data<J>, p: Entry, v: Datum<J>)
    requires Writes(m) == map[p := v]
    ensures d + Writes(m) == d[p := v]
  {
  }

  lemma WritesTwo<J>(m: Module<J>, d: Data<J>, p: Entry, v: Datum<J>, q: Entry, w: Datum<J>)
    requires Writes(m) == map[p := v, q := w]
    ensures d + Writes(m) == d[p := v][q := w]
  {
  }

  method OnRequest<J>(m: Module<J>, ctx: CallContext<Datum<J>>, ghost d: Data<J>) returns (ok: bool)
    requires Holds(ctx, d) && m.request != Rejects
    modifies ctx
    ensures Holds(ctx, d + Writes(m))
    ensures ok <==> !(m.sendFails && (m.kind.RequestSnooper? || m.kind.RequestCounter?))
  {
    ok := true;
    assert d + map[] == d;
    match m.kind
    case RequestSnooper => ok := !m.sendFails;
    case RequestCounter => ok := !m.sendFails;
    case ResponseSnooper =>
      Store(ctx, m.id, WantsResponse, Flag, d);
      WritesOne(m, d, Entry(m.id, WantsResponse), Flag);
    case ResponseTracer(extracted) =>
      Store(ctx, m.id, WantsResponse, Flag, d);
      if extracted.Some? {
        Store(ctx, m.id, RequestData, Extracted(extracted.value), d[Entry(m.id, WantsResponse) := Flag]);
        WritesTwo(m, d, Entry(m.id, WantsResponse), Flag, Entry(m.id, RequestData), Extracted(extracted.value));
      } else {
        WritesOne(m, d, Entry(m.id, WantsResponse), Flag);
      }
    case Xatu(handler) =>
      if handler.Some? {
        Store(ctx, m.id, XatuHandler, Handler(handler.value), d);
        WritesOne(m, d, Entry(m.id, XatuHandler), Handler(handler.value));
      }
  }

  /** `ProcessRequest` over the modules in the order the map iteration gave. */
  method ProcessRequest<J>(modules: seq<Module<J>>, ctx: CallContext<Datum<J>>, ghost d: Data<J>) returns (ok: bool)
    requires Holds(ctx, d)
    modifies ctx
    ensures Holds(ctx, AfterRequest(modules, d))
    ensures ok <==> forall m <- modules ::
              m.request == Rejects || !m.sendFails || !(m.kind.RequestSnooper? || m.kind.RequestCounter?)
  {
    ghost var now := d;
    for k := 0 to |modules|
      invariant Holds(ctx, now) && NoneFails(modules[..k])
      invariant AfterRequest(modules[k..], now) == AfterRequest(modules, d)
    {
      ghost var rest := modules[k..];
      assert rest[0] == modules[k] && rest[1..] == modules[k + 1..];
      var should := ShouldProcessRequest(modules[k], ctx, now);
      if should {
        var sent := OnRequest(modules[k], ctx, now);
        if !sent {
          FailedWritesNothing(modules[k], now);
          assert modules[k] in modules;
          return false;
        }
      }
      now := now + Writes(modules[k]);
    }
    assert modules[..|modules|] == modules;
    ok := true;
  }

  lemma FailedWritesNothing<J>(m: Module<J>, d: Data<J>)
    requires FailsOnRequest(m)
    ensures Writes(m) == map[] && d + Writes(m) == d
  {
  }

  // ----- Iteration order.

  ghost predicate DistinctIDs<J>(modules: seq<Module<J>>) {
    forall i, j :: 0 <= i < j < |modules| ==> modules[i].id != modules[j].id
  }

  /** What every order without a failure leaves: each module's entries, and all others as they were. */
  ghost predicate HasWrites<J>(modules: seq<Module<J>>, d: Data<J>, f: Data<J>) {
    forall p: Entry :: Ends(modules, d, f, p)
  }

  ghost predicate WrittenBy<J>(modules: seq<Module<J>>, p: Entry) {
    exists m :: m in modules && p in Writes(m)
  }

  ghost predicate Ends<J>(modules: seq<Module<J>>, d: Data<J>, f: Data<J>, p: Entry) {
    && (forall m <- modules :: p in Writes(m) ==> p in f && f[p] == Writes(m)[p])
    && (!WrittenBy(modules, p) ==> (p in f <==> p in d) && (p in d ==> f[p] == d[p]))
  }

  lemma {:induction false} AfterRequestHasWrites<J>(modules: seq<Module<J>>, d: Data<J>)
    requires DistinctIDs(modules) && NoneFails(modules)
    ensures HasWrites(modules, d, AfterRequest(modules, d))
  {
    if modules != [] {
      var m, rest := modules[0], modules[1..];
      var e := d + Writes(m);
      AfterRequestHasWrites(rest, e);
      forall p: Entry ensures Ends(modules, d, AfterRequest(modules, d), p) {
        FirstThenRest(m, rest, d, AfterRequest(rest, e), p);
        assert modules == [m] + rest;
      }
    }
  }

  lemma FirstThenRest<J>(m: Module<J>, rest: seq<Module<J>>, d: Data<J>, f: Data<J>, p: Entry)
    requires (forall n <- rest :: n.id != m.id) && Ends(rest, d + Writes(m), f, p)
    ensures Ends([m] + rest, d, f, p)
  {
    var all := [m] + rest;
    assert m in all && forall n <- rest :: n in all;
    if p in Writes(m) {
      assert !WrittenBy(rest, p);
    } else if WrittenBy(rest, p) {
      var n :| n in rest && p in Writes(n);
      assert n in all;
    }
  }

  lemma HasWritesUnique<J>(a: seq<Module<J>>, b: seq<Module<J>>, d: Data<J>, f: Data<J>, g: Data<J>)
    requires (forall m :: m in a <==> m in b) && HasWrites(a, d, f) && HasWrites(b, d, g)
    ensures f == g
  {
    forall p: Entry ensures (p in f <==> p in g) && (p in f ==> f[p] == g[p]) {
      assert Ends(a, d, f, p) && Ends(b, d, g, p);
      if WrittenBy(a, p) {
        var m :| m in a && p in Writes(m);
        assert m in b;
      } else {
        assert !WrittenBy(b, p);
      }
    }
  }

  ghost predicate IsOrderOf<J>(a: seq<Module<J>>, modules: seq<Module<J>>) {
    multiset(a) == multiset(modules)
  }

  ghost predicate OrderIndependent<J(!new)>(modules: seq<Module<J>>, d: Data<J>) {
    forall a, b :: IsOrderOf(a, modules) && IsOrderOf(b, modules) ==> AfterRequest(a, d) == AfterRequest(b, d)
  }

  lemma OrderKeeps<J>(a: seq<Module<J>>, modules: seq<Module<J>>)
    requires IsOrderOf(a, modules) && DistinctIDs(modules)
    ensures DistinctIDs(a) && forall m :: m in a <==> m in modules
  {
    forall m ensures m in a <==> m in modules {
      assert m in multiset(a) <==> m in multiset(modules);
    }
    forall i, j | 0 <= i < j < |a| ensures a[i].id != a[j].id {
      OnceInOrder(modules, a[i]);
      assert a == a[..i] + [a[i]] + a[i + 1..j] + [a[j]] + a[j + 1..];
      assert a[i] in modules && a[j] in modules;
    }
  }

  lemma {:induction false} OnceInOrder<J>(modules: seq<Module<J>>, m: Module<J>)
    requires DistinctIDs(modules)
    ensures multiset(modules)[m] <= 1
  {
    if modules != [] {
      assert modules == [modules[0]] + modules[1..];
      OnceInOrder(modules[1..], m);
      assert modules[0] !in modules[1..];
    }
  }

  lemma NoFailureNoOrder<J(!new)>(modules: seq<Module<J>>, d: Data<J>)
    requires DistinctIDs(modules) && NoneFails(modules)
    ensures OrderIndependent(modules, d)
  {
    forall a, b | IsOrderOf(a, modules) && IsOrderOf(b, modules) ensures AfterRequest(a, d) == AfterRequest(b, d) {
      OrderKeeps(a, modules);
      OrderKeeps(b, modules);
      AfterRequestHasWrites(a, d);
      AfterRequestHasWrites(b, d);
      HasWritesUnique(a, b, d, AfterRequest(a, d), AfterRequest(b, d));
    }
  }

  /** No module stores anything the call data does not already hold. */
  ghost predicate NothingNew<J>(modules: seq<Module<J>>, d: Data<J>) {
    forall m <- modules :: d + Writes(m) == d
  }

  lemma {:induction false} NothingNewNothingChanges<J>(modules: seq<Module<J>>, d: Data<J>)
    requires NothingNew(modules, d)
    ensures AfterRequest(modules, d) == d
  {
    if modules != [] {
      assert modules[0] in modules;
      NothingNewNothingChanges(modules[1..], d);
    }
  }

  lemma MoveToFront<J>(modules: seq<Module<J>>, m: Module<J>) returns (rest: seq<Module<J>>)
    requires m in modules
    ensures IsOrderOf([m] + rest, modules)
  {
    var k :| 0 <= k < |modules| && modules[k] == m;
    rest := modules[..k] + modules[k + 1..];
    assert modules == modules[..k] + [m] + modules[k + 1..];
  }

  lemma FailingFirst<J>(e: Module<J>, rest: seq<Module<J>>, d: Data<J>)
    requires FailsOnRequest(e)
    ensures AfterRequest([e] + rest, d) == d
  {
  }

  lemma StoringFirst<J>(w: Module<J>, e: Module<J>, rest: seq<Module<J>>, d: Data<J>)
    requires FailsOnRequest(e) && !FailsOnRequest(w)
    ensures AfterRequest([w] + ([e] + rest), d) == d + Writes(w)
  {
    FailingFirst(e, rest, d + Writes(w));
    var b := [w] + ([e] + rest);
    assert b[1..] == [e] + rest;
  }

  lemma SwapFront<J>(modules: seq<Module<J>>, rest: seq<Module<J>>, others: seq<Module<J>>, e: Module<J>, w: Module<J>)
    requires IsOrderOf([e] + rest, modules) && IsOrderOf([w] + others, rest)
    ensures IsOrderOf([w] + ([e] + others), modules)
  {
    assert multiset([e] + rest) == multiset{e} + multiset(rest);
    assert multiset([w] + others) == multiset{w} + multiset(others);
    assert multiset([w] + ([e] + others)) == multiset{w} + (multiset{e} + multiset(others));
  }

  /** With a failure, calling the failing module first drops what another module would have stored. */
  lemma FailureShowsOrder<J(!new)>(modules: seq<Module<J>>, d: Data<J>, e: Module<J>, w: Module<J>)
    requires e in modules && FailsOnRequest(e) && w in modules && d + Writes(w) != d
    ensures !OrderIndependent(modules, d)
  {
    if FailsOnRequest(w) { FailedWritesNothing(w, d); }
    var rest := MoveToFront(modules, e);
    assert w in multiset([e] + rest);
    var others := MoveToFront(rest, w);
    SwapFront(modules, rest, others, e, w);
    FailingFirst(e, rest, d);
    StoringFirst(w, e, others, d);
  }

  /**
   The order in which the modules are called makes no difference to the call data exactly when none of them fails,
   or when none of them has anything new to store.
   */
  lemma OrderIndependentIff<J(!new)>(modules: seq<Module<J>>, d: Data<J>)
    requires DistinctIDs(modules)
    ensures OrderIndependent(modules, d) <==> NoneFails(modules) || NothingNew(modules, d)
  {
    if NoneFails(modules) {
      NoFailureNoOrder(modules, d);
    } else if NothingNew(modules, d) {
      forall a | IsOrderOf(a, modules) ensures AfterRequest(a, d) == d {
        OrderKeeps(a, modules);
        NothingNewNothingChanges(a, d);
      }
    } else {
      var e :| e in modules && FailsOnRequest(e);
      var w :| w in modules && d + Writes(w) != d;
      FailureShowsOrder(modules, d, e, w);
    }
  }

  // ----- The response phase.

  /** `shouldProcessResponse`. */
  method ShouldProcessResponse<J>(m: Module<J>, ctx: CallContext<Datum<J>>, ghost d: Data<J>) returns (should: bool)
    requires Holds(ctx, d)
    ensures should <==> PassesGate(m, d)
  {
    var wants := Fetch(ctx, m.id, WantsResponse, d);
    if wants == Some(Flag) {
      return true;
    }
    var skip := Fetch(ctx, m.id, SkipResponse, d);
    if skip == Some(Flag) {
      return false;
    }
    should := m.response != Rejects;
  }

  /** The gate of `ProcessResponse`. */
  predicate PassesGate<J>(m: Module<J>, d: Data<J>) {
    || (Entry(m.id, WantsResponse) in d && d[Entry(m.id, WantsResponse)] == Flag)
    || (!(Entry(m.id, SkipResponse) in d && d[Entry(m.id, SkipResponse)] == Flag) && m.response != Rejects)
  }

  /** The modules called before one failed; after that no more are called, and the failed one stored nothing. */
  function BeforeFailure<J>(modules: seq<Module<J>>): seq<Module<J>> {
    if modules == [] || FailsOnRequest(modules[0]) then [] else [modules[0]] + BeforeFailure(modules[1..])
  }

  lemma {:induction false} BeforeFailureDecides<J>(modules: seq<Module<J>>, d: Data<J>)
    ensures BeforeFailure(modules) <= modules && NoneFails(BeforeFailure(modules))
    ensures AfterRequest(modules, d) == AfterRequest(BeforeFailure(modules), d)
  {
    if modules != [] && !FailsOnRequest(modules[0]) {
      var rest := BeforeFailure(modules[1..]);
      BeforeFailureDecides(modules[1..], d + Writes(modules[0]));
      assert ([modules[0]] + rest)[1..] == rest;
    }
  }

  /**
   After a request phase, in any order, the gate lets the response through to a module that was called exactly if its
   request filter let the request through and either it always asks for the response or its response filter accepts it:
   the response filter of a response snooper or tracer is not consulted. For a module that was not called because
   another had failed, the response filter alone decides.
   */
  lemma WhoPassesGate<J>(modules: seq<Module<J>>, d: Data<J>, m: Module<J>)
    requires DistinctIDs(modules) && m in modules
    requires forall p <- d :: p.id == 0
    requires forall n <- modules :: n.id != 0
    ensures PassesGate(m, AfterRequest(modules, d)) <==>
            if m in BeforeFailure(modules) then
              m.request != Rejects && (m.kind.ResponseSnooper? || m.kind.ResponseTracer? || m.response != Rejects)
            else m.response != Rejects
  {
    OwnEntries(modules, d, m, WantsResponse);
    OwnEntries(modules, d, m, SkipResponse);
  }

  /** A module's entries are those it wrote itself, if it was called; the core's entries under ID 0 are left alone. */
  lemma OwnEntries<J>(modules: seq<Module<J>>, d: Data<J>, m: Module<J>, key: Name)
    requires DistinctIDs(modules) && m in modules
    requires forall p <- d :: p.id == 0
    requires forall n <- modules :: n.id != 0
    ensures var f := AfterRequest(modules, d);
            && (Entry(m.id, key) in f <==> m in BeforeFailure(modules) && Entry(m.id, key) in Writes(m))
            && (Entry(m.id, key) in f ==> f[Entry(m.id, key)] == Writes(m)[Entry(m.id, key)])
            && (Entry(0, key) in f <==> Entry(0, key) in d)
            && (Entry(0, key) in d ==> f[Entry(0, key)] == d[Entry(0, key)])
  {
    EntryEnds(modules, d, Entry(0, key));
    assert forall n <- BeforeFailure(modules) :: n in modules;
    assert !WrittenBy(BeforeFailure(modules), Entry(0, key));
    OwnEntry(modules, d, m, Entry(m.id, key));
  }

  /** How one entry ends, failure or not. */
  lemma EntryEnds<J>(modules: seq<Module<J>>, d: Data<J>, p: Entry)
    requires DistinctIDs(modules)
    ensures BeforeFailure(modules) <= modules && Ends(BeforeFailure(modules), d, AfterRequest(modules, d), p)
  {
    BeforeFailureDecides(modules, d);
    AfterRequestHasWrites(BeforeFailure(modules), d);
  }

  lemma OwnEntry<J>(modules: seq<Module<J>>, d: Data<J>, m: Module<J>, p: Entry)
    requires DistinctIDs(modules) && m in modules && p.id == m.id && p !in d
    ensures p in AfterRequest(modules, d) <==> m in BeforeFailure(modules) && p in Writes(m)
    ensures p in AfterRequest(modules, d) ==> AfterRequest(modules, d)[p] == Writes(m)[p]
  {
    var called := BeforeFailure(modules);
    EntryEnds(modules, d, p);
    if WrittenBy(called, p) {
      var n :| n in called && p in Writes(n);
      assert n in modules && n.id == m.id;
      assert n == m;
    }
  }

  lemma OnlyXatuStoresHandlers<J>(m: Module<J>, id: nat)
    ensures Entry(id, XatuHandler) in Writes(m) <==>
            m.id == id && m.request != Rejects && m.kind.Xatu? && m.kind.handler.Some?
    ensures Entry(id, XatuHandler) in Writes(m) ==> Writes(m)[Entry(id, XatuHandler)] == Handler(m.kind.handler.value)
  {
  }

  /** The request size among the core's entries, 0 if there is none. */
  function SizeIn<J>(d: Data<J>): nat {
    if Entry(0, RequestSize) in d && d[Entry(0, RequestSize)].Size? then d[Entry(0, RequestSize)].size else 0
  }

  /** What a tracer stored from the request, as it is found in the call data. */
  function ExtractedIn<J>(m: Module<J>, d: Data<J>): Option<J> {
    var e := Entry(m.id, RequestData);
    if e in d && d[e].Extracted? then Some(d[e].json) else None
  }

  /** A tracer finds what it extracted, if it was called; everybody finds the core's request size. */
  lemma TracerData<J>(modules: seq<Module<J>>, d: Data<J>, m: Module<J>)
    requires DistinctIDs(modules) && m in modules && m.kind.ResponseTracer?
    requires forall p <- d :: p.id == 0
    requires forall n <- modules :: n.id != 0
    ensures ExtractedIn(m, AfterRequest(modules, d)) ==
            if m in BeforeFailure(modules) && m.request != Rejects then m.kind.extracted else None
    ensures SizeIn(AfterRequest(modules, d)) == SizeIn(d)
  {
    OwnEntries(modules, d, m, RequestSize);
    OwnEntries(modules, d, m, RequestData);
  }

  /**
   What a tracer reads in the response phase: the data it extracted from this call's request, if it was called, and
   the request size the core stored before the modules ran, whatever other modules did in between.
   */
  method TracerReads<J>(m: Module<J>, ctx: CallContext<Datum<J>>, ghost modules: seq<Module<J>>, ghost d: Data<J>)
    returns (requestData: Option<J>, requestSize: nat)
    requires Holds(ctx, AfterRequest(modules, d))
    requires DistinctIDs(modules) && m in modules && m.kind.ResponseTracer?
    requires forall p <- d :: p.id == 0
    requires forall n <- modules :: n.id != 0
    ensures requestData == if m in BeforeFailure(modules) && m.request != Rejects then m.kind.extracted else None
    ensures requestSize == SizeIn(d)
  {
    TracerData(modules, d, m);
    var size := Fetch(ctx, 0, RequestSize, AfterRequest(modules, d));
    requestSize := if size.Some? && size.value.Size? then size.value.size else 0;
    var data := Fetch(ctx, m.id, RequestData, AfterRequest(modules, d));
    requestData := if data.Some? && data.value.Extracted? then Some(data.value.json) else None;
  }

  // ----- The response phase.

  /** `OnResponse`, if called, returns an error: it could not send its event. */
  predicate FailsOnResponse<J>(m: Module<J>) {
    (m.kind.ResponseSnooper? || m.kind.ResponseTracer?) && m.sendFails
  }

  /** The loop goes no further than this module. */
  predicate Stops<J>(m: Module<J>, d: Data<J>) {
    PassesGate(m, d) && FailsOnResponse(m)
  }

  /** The modules told of the response: those the gate lets it through to, up to and including the first that fails. */
  function Told<J>(order: seq<Module<J>>, d: Data<J>): seq<Module<J>> {
    if order == [] then []
    else if !PassesGate(order[0], d) then Told(order[1..], d)
    else [order[0]] + if FailsOnResponse(order[0]) then [] else Told(order[1..], d)
  }

  /** Of the built-in modules only the response snooper and the response tracer send something. None stores anything. */
  method OnResponse<J>(m: Module<J>) returns (ok: bool)
    ensures ok <==> !(m.sendFails && (m.kind.ResponseSnooper? || m.kind.ResponseTracer?))
  {
    match m.kind
    case RequestSnooper => ok := true;
    case RequestCounter => ok := true;
    case ResponseSnooper => ok := !m.sendFails;
    case ResponseTracer(_) => ok := !m.sendFails;
    case Xatu(_) => ok := true;
  }

  /** `ProcessResponse` over the modules in the order the map iteration gave. */
  method ProcessResponse<J>(order: seq<Module<J>>, ctx: CallContext<Datum<J>>, ghost d: Data<J>)
    returns (told: seq<Module<J>>, ok: bool)
    requires Holds(ctx, d)
    ensures told == Told(order, d)
    ensures ok <==> forall m <- told :: !m.sendFails || !(m.kind.ResponseSnooper? || m.kind.ResponseTracer?)
  {
    told := [];
    for k := 0 to |order|
      invariant told + Told(order[k..], d) == Told(order, d)
      invariant forall m <- told :: !m.sendFails || !(m.kind.ResponseSnooper? || m.kind.ResponseTracer?)
    {
      var m := order[k];
      assert order[k..][1..] == order[k + 1..];
      var should := ShouldProcessResponse(m, ctx, d);
      if should {
        Bytes.Associative(told, [m], Told(order[k + 1..], d));
        told := told + [m];
        var sent := OnResponse(m);
        if !sent {
          assert m in told;
          return told, false;
        }
      }
    }
    ok := true;
  }

  /** Only modules of the order are told, and only past their gate. */
  lemma {:induction false} ToldPass<J>(order: seq<Module<J>>, d: Data<J>)
    ensures forall m <- Told(order, d) :: m in order && PassesGate(m, d)
  {
    if order != [] { ToldPass(order[1..], d); }
  }

  /**
   A module is told exactly if its gate lets the response through and no module before it passed its gate and is a
   response snooper or tracer that cannot send. Request snoopers, request counters and the Xatu module never end the loop.
   */
  lemma {:induction false} ToldIff<J>(order: seq<Module<J>>, d: Data<J>, k: nat)
    requires DistinctIDs(order) && k < |order|
    ensures order[k] in Told(order, d) <==>
            PassesGate(order[k], d)
            && forall j :: 0 <= j < k ==>
                 !(PassesGate(order[j], d) && order[j].sendFails
                   && (order[j].kind.ResponseSnooper? || order[j].kind.ResponseTracer?))
  {
    var first, rest := order[0], order[1..];
    ToldPass(rest, d);
    if k > 0 {
      ToldIff(rest, d, k - 1);
      assert rest[k - 1] == order[k] && order[k] != first;
      assert forall j :: 0 < j < k ==> order[j] == rest[j - 1];
      if Stops(first, d) {
        assert Told(order, d) == [first];
      } else {
        assert order[k] in Told(order, d) <==> order[k] in Told(rest, d);
        assert (forall j :: 0 <= j < k ==> !Stops(order[j], d)) <==> forall j :: 0 <= j < k - 1 ==> !Stops(rest[j], d);
      }
    } else if !PassesGate(first, d) {
      assert first !in rest;
    }
  }

  /** A module is told in every order exactly if its gate lets the response through and no other module stops. */
  lemma ToldInEveryOrderIff<J(!new)>(modules: seq<Module<J>>, d: Data<J>, m: Module<J>)
    requires DistinctIDs(modules) && m in modules
    ensures (forall order :: IsOrderOf(order, modules) ==> m in Told(order, d)) <==>
            PassesGate(m, d)
            && forall n <- modules :: n != m ==>
                 !(PassesGate(n, d) && n.sendFails && (n.kind.ResponseSnooper? || n.kind.ResponseTracer?))
  {
    if PassesGate(m, d) && forall n <- modules :: n != m ==> !Stops(n, d) {
      forall order | IsOrderOf(order, modules) ensures m in Told(order, d) {
        OrderKeeps(order, modules);
        var k :| 0 <= k < |order| && order[k] == m;
        assert forall j :: 0 <= j < k ==> order[j] in modules && !Stops(order[j], d);
        ToldIff(order, d, k);
      }
    } else if !PassesGate(m, d) {
      ToldPass(modules, d);
      assert IsOrderOf(modules, modules);
    } else {
      var n :| n in modules && n != m && Stops(n, d);
      var rest := MoveToFront(modules, n);
      assert Told([n] + rest, d) == [n];
    }
  }
}
