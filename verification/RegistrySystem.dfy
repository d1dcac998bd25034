/**
 Many connections sharing one registry. A step is what happens between two acquisitions of a lock, so a registration
 is three steps and an unregistration two, and other connections may act in between.
 */
module RegistrySystem {
  import opened Options
  import opened Registry

  /** What the reader of a connection is in the middle of. */
  datatype Phase =
    | Idle
    | Building(id: nat)         // the ID is taken, the module not yet in the maps
    | Listing(id: nat)          // in the maps, not yet in the connection's own list
    | Removing(id: nat)         // out of the maps, still to be taken off the own list
    | Closing(todo: seq<nat>)   // the reader has ended, the deferred loop has `todo` left
    | Gone

  datatype Connection = Connection(phase: Phase, modules: seq<nat>)

  /** `registered` lists the IDs that have been put into the maps so far. */
  datatype State<F> = State(tables: Tables<F>, connections: seq<Connection>, registered: seq<nat>)

  datatype Step<F> =
    | Connect
    | TakeID(c: nat)
    | Refuse(c: nat)                                              // any of the error returns after the ID is taken
    | Register(c: nat, kind: Kind, filter: FilterConfig<F>)
    | List(c: nat)
    | Unregister(c: nat, id: nat)                                 // any ID, whoever registered it
    | Unlist(c: nat)
    | Disconnect(c: nat)
    | TearDownNext(c: nat)
    | Finish(c: nat)

  /** At startup the Xatu module, if it is on, is registered under ID 1 without filters. */
  function Init<F>(xatu: bool): State<F> {
    var empty := Tables(map[], map[], 0, []);
    if xatu then
      State(Registered(empty.(counter := 1), 1, Module(XatuModule, None), None), [], [1])
    else State(empty, [], [])
  }

  function PhaseOf<F>(s: State<F>, c: nat): Phase {
    if c < |s.connections| then s.connections[c].phase else Gone
  }

  predicate Enabled<F>(s: State<F>, step: Step<F>) {
    match step
    case Connect => true
    case TakeID(c) => PhaseOf(s, c).Idle?
    case Refuse(c) => PhaseOf(s, c).Building?
    case Register(c, _, _) => PhaseOf(s, c).Building?
    case List(c) => PhaseOf(s, c).Listing?
    case Unregister(c, _) => PhaseOf(s, c).Idle?
    case Unlist(c) => PhaseOf(s, c).Removing?
    case Disconnect(c) => PhaseOf(s, c).Idle?
    case TearDownNext(c) => PhaseOf(s, c).Closing? && PhaseOf(s, c).todo != []
    case Finish(c) => PhaseOf(s, c).Closing? && PhaseOf(s, c).todo == []
  }

  function SetPhase<F>(s: State<F>, c: nat, p: Phase): State<F>
    requires c < |s.connections|
  {
    s.(connections := s.connections[c := s.connections[c].(phase := p)])
  }

  function Apply<F>(s: State<F>, step: Step<F>): State<F>
    requires Enabled(s, step)
  {
    match step
    case Connect => s.(connections := s.connections + [Connection(Idle, [])])
    case TakeID(c) =>
      var id := s.tables.counter + 1;
      SetPhase(s, c, Building(id)).(tables := s.tables.(counter := id))
    case Refuse(c) => SetPhase(s, c, Idle)
    case Register(c, kind, filter) =>
      var id := PhaseOf(s, c).id;
      SetPhase(s, c, Listing(id))
      .(tables := Registered(s.tables, id, Module(kind, Some(c)), Some(filter)), registered := s.registered + [id])
    case List(c) =>
      var k := s.connections[c];
      s.(connections := s.connections[c := Connection(Idle, k.modules + [k.phase.id])])
    case Unregister(c, id) => SetPhase(s, c, Removing(id)).(tables := Unregistered(s.tables, id))
    case Unlist(c) =>
      var k := s.connections[c];
      s.(connections := s.connections[c := Connection(Idle, RemoveFirst(k.modules, k.phase.id))])
    case Disconnect(c) => SetPhase(s, c, Closing(s.connections[c].modules))
    case TearDownNext(c) =>
      var todo := PhaseOf(s, c).todo;
      SetPhase(s, c, Closing(todo[1..])).(tables := Unregistered(s.tables, todo[0]))
    case Finish(c) => SetPhase(s, c, Gone)
  }

  ghost predicate Legal<F>(s: State<F>, steps: seq<Step<F>>)
    decreases |steps|
  {
    steps == [] || (Enabled(s, steps[0]) && Legal(Apply(s, steps[0]), steps[1..]))
  }

  ghost function Execute<F>(s: State<F>, steps: seq<Step<F>>): State<F>
    requires Legal(s, steps)
    decreases |steps|
  {
    if steps == [] then s else Execute(Apply(s, steps[0]), steps[1..])
  }

  // ----- The invariant.

  /** `id` is in the connection's list, or it is being added to it. */
  predicate Claims(k: Connection, id: nat) {
    id in k.modules || ((k.phase.Building? || k.phase.Listing?) && k.phase.id == id)
  }

  /** The loop that ends the connection has yet to unregister `id`, if it comes to that. */
  predicate WillRemove(k: Connection, id: nat) {
    match k.phase
    case Closing(todo) => id in todo
    case Gone => false
    case _ => Claims(k, id)
  }

  predicate OwnedBy<F>(t: Tables<F>, id: nat, c: nat) {
    id in t.modules && t.modules[id].owner == Some(c)
  }

  /** The maps agree with each other and with what has been registered and closed; `counter` bounds all IDs. */
  ghost predicate TablesOk<F>(s: State<F>) {
    var t := s.tables;
    && (forall id: nat :: id in t.filters <==> id in t.modules && t.modules[id].owner.Some?)
    && Distinct(s.registered) && Distinct(t.closed)
    && (forall id: nat :: id in s.registered <==> id in t.modules || id in t.closed)
    && (forall id: nat :: id in t.closed ==> id !in t.modules)
    && (forall id: nat :: id in s.registered ==> id <= t.counter)
    && (forall id: nat :: id in t.modules && t.modules[id].owner == None ==> id == 1)
  }

  /** The list has no repetitions and holds everything the connection owns that it has still to remove. */
  ghost predicate ConnectionOk<F>(s: State<F>, c: nat)
    requires c < |s.connections|
  {
    var k, t := s.connections[c], s.tables;
    && Distinct(k.modules)
    && (forall id: nat :: Claims(k, id) ==> id <= t.counter && (id in t.modules ==> OwnedBy(t, id, c)))
    && (forall id <- k.modules :: id in s.registered)
    && (k.phase.Building? ==> k.phase.id !in s.registered)
    && (k.phase.Listing? ==> k.phase.id in s.registered && k.phase.id !in k.modules)
    && (k.phase.Removing? ==> !OwnedBy(t, k.phase.id, c))
    && (k.phase.Closing? ==> forall id <- k.phase.todo :: id in k.modules)
    && (forall id: nat :: OwnedBy(t, id, c) ==> WillRemove(k, id))
  }

  /** No two connections claim the same ID. */
  ghost predicate Disjoint<F>(s: State<F>) {
    forall c, d, id :: 0 <= c < d < |s.connections| && Claims(s.connections[c], id) ==> !Claims(s.connections[d], id)
  }

  ghost predicate Inv<F>(s: State<F>) {
    && TablesOk(s)
    && (forall c :: 0 <= c < |s.connections| ==> ConnectionOk(s, c))
    && (forall id: nat, c: nat :: OwnedBy(s.tables, id, c) ==> c < |s.connections|)
    && Disjoint(s)
  }

  // ----- Every step keeps it.

  /** What `d` needs to know did not change for the worse. */
  ghost predicate Undisturbed<F>(s: State<F>, t: State<F>, d: nat) {
    && d < |s.connections| <= |t.connections| && t.connections[d] == s.connections[d]
    && s.tables.counter <= t.tables.counter
    && (forall id <- s.registered :: id in t.registered)
    && (forall id <- t.registered :: Claims(s.connections[d], id) ==> id in s.registered)
    && (forall id <- t.tables.modules :: Claims(s.connections[d], id) ==>
          id in s.tables.modules && s.tables.modules[id] == t.tables.modules[id])
    && (forall id: nat :: OwnedBy(t.tables, id, d) ==> OwnedBy(s.tables, id, d))
  }

  lemma UndisturbedOk<F>(s: State<F>, t: State<F>, d: nat)
    requires Undisturbed(s, t, d) && ConnectionOk(s, d)
    ensures ConnectionOk(t, d)
  {
  }

  /** The connection that takes a step. */
  function Actor<F>(s: State<F>, step: Step<F>): nat {
    if step.Connect? then |s.connections| else step.c
  }

  lemma OthersUndisturbed<F>(s: State<F>, step: Step<F>, d: nat)
    requires Inv(s) && Enabled(s, step) && d < |s.connections| && d != Actor(s, step)
    ensures Undisturbed(s, Apply(s, step), d)
  {
    assert ConnectionOk(s, d);
    if step.Register? {
      assert ConnectionOk(s, step.c);
      assert Claims(s.connections[step.c], PhaseOf(s, step.c).id);
    }
  }

  lemma TablesKept<F>(s: State<F>, step: Step<F>)
    requires Inv(s) && Enabled(s, step)
    ensures TablesOk(Apply(s, step))
  {
    if !step.Connect? { assert ConnectionOk(s, step.c); }
  }

  /** Only registering makes a connection own a module. */
  lemma OwnedBefore<F>(s: State<F>, step: Step<F>, id: nat, c: nat)
    requires Enabled(s, step) && OwnedBy(Apply(s, step).tables, id, c)
    ensures OwnedBy(s.tables, id, c) || (step.Register? && c == step.c && id == PhaseOf(s, c).id)
  {
  }

  lemma UnlistKeepsActor<F>(s: State<F>, c: nat)
    requires Inv(s) && Enabled(s, Unlist(c))
    ensures ConnectionOk(Apply(s, Unlist(c)), c)
  {
    assert ConnectionOk(s, c);
    RemoveFirstRemoves(s.connections[c].modules, s.connections[c].phase.id);
  }

  lemma ListKeepsActor<F>(s: State<F>, c: nat)
    requires Inv(s) && Enabled(s, List(c))
    ensures ConnectionOk(Apply(s, List(c)), c)
  {
    assert ConnectionOk(s, c);
  }

  lemma DisconnectKeepsActor<F>(s: State<F>, c: nat)
    requires Inv(s) && Enabled(s, Disconnect(c))
    ensures ConnectionOk(Apply(s, Disconnect(c)), c)
  {
    assert ConnectionOk(s, c);
    var t := Apply(s, Disconnect(c));
    forall id: nat | OwnedBy(t.tables, id, c) ensures WillRemove(t.connections[c], id) {
      assert OwnedBy(s.tables, id, c);
      assert WillRemove(s.connections[c], id);
    }
  }

  lemma TearDownKeepsActor<F>(s: State<F>, c: nat)
    requires Inv(s) && Enabled(s, TearDownNext(c))
    ensures ConnectionOk(Apply(s, TearDownNext(c)), c)
  {
    assert ConnectionOk(s, c);
    var t, todo := Apply(s, TearDownNext(c)), PhaseOf(s, c).todo;
    forall id: nat | OwnedBy(t.tables, id, c) ensures WillRemove(t.connections[c], id) {
      assert OwnedBy(s.tables, id, c) && id != todo[0];
      assert WillRemove(s.connections[c], id);
      assert todo == [todo[0]] + todo[1..];
    }
  }

  lemma FinishKeepsActor<F>(s: State<F>, c: nat)
    requires Inv(s) && Enabled(s, Finish(c))
    ensures ConnectionOk(Apply(s, Finish(c)), c)
  {
    assert ConnectionOk(s, c);
    forall id: nat ensures !OwnedBy(s.tables, id, c) {
      assert OwnedBy(s.tables, id, c) ==> WillRemove(s.connections[c], id);
    }
  }

  lemma ConnectKeepsActor<F>(s: State<F>)
    requires Inv(s)
    ensures ConnectionOk(Apply(s, Connect), |s.connections|)
  {
    var t, c := Apply(s, Connect), |s.connections|;
    assert forall id: nat :: OwnedBy(t.tables, id, c) ==> OwnedBy(s.tables, id, c);
  }

  lemma RefuseKeepsActor<F>(s: State<F>, c: nat)
    requires Inv(s) && Enabled(s, Refuse(c))
    ensures ConnectionOk(Apply(s, Refuse(c)), c)
  {
    assert ConnectionOk(s, c);
    var t := Apply(s, Refuse(c));
    forall id: nat | OwnedBy(t.tables, id, c) ensures WillRemove(t.connections[c], id) {
      assert OwnedBy(s.tables, id, c);
      assert id in s.registered;
    }
  }

  lemma WorkKeepsActor<F>(s: State<F>, step: Step<F>)
    requires Inv(s) && Enabled(s, step) && (step.TakeID? || step.Register? || step.Unregister?)
    ensures ConnectionOk(Apply(s, step), step.c)
  {
    var t, c := Apply(s, step), step.c;
    assert ConnectionOk(s, c);
    forall id: nat | OwnedBy(t.tables, id, c) ensures WillRemove(t.connections[c], id) {
      OwnedBefore(s, step, id, c);
      assert OwnedBy(s.tables, id, c) ==> WillRemove(s.connections[c], id);
    }
  }

  lemma ActorKept<F>(s: State<F>, step: Step<F>)
    requires Inv(s) && Enabled(s, step)
    ensures ConnectionOk(Apply(s, step), Actor(s, step))
  {
    match step
    case Connect => ConnectKeepsActor(s);
    case Refuse(c) => RefuseKeepsActor(s, c);
    case List(c) => ListKeepsActor(s, c);
    case Unlist(c) => UnlistKeepsActor(s, c);
    case Disconnect(c) => DisconnectKeepsActor(s, c);
    case TearDownNext(c) => TearDownKeepsActor(s, c);
    case Finish(c) => FinishKeepsActor(s, c);
    case _ => WorkKeepsActor(s, step);
  }

  /** Only taking an ID makes a connection claim one it did not claim before, and that ID is new. */
  lemma ClaimsKept<F>(s: State<F>, step: Step<F>, id: nat)
    requires Inv(s) && Enabled(s, step) && Claims(Apply(s, step).connections[Actor(s, step)], id)
    ensures Actor(s, step) < |s.connections|
    ensures Claims(s.connections[step.c], id) || id == s.tables.counter + 1
  {
    if !step.Connect? {
      var k := s.connections[step.c];
      assert ConnectionOk(s, step.c);
      if step.Unlist? { RemoveFirstRemoves(k.modules, k.phase.id); }
    }
  }

  lemma DisjointKept<F>(s: State<F>, step: Step<F>)
    requires Inv(s) && Enabled(s, step)
    ensures Disjoint(Apply(s, step))
  {
    var t := Apply(s, step);
    forall c, d, id | 0 <= c < d < |t.connections| && Claims(t.connections[c], id) ensures !Claims(t.connections[d], id) {
      var a := Actor(s, step);
      if c == a {
        ClaimsKept(s, step, id);
        OthersUndisturbed(s, step, d);
        assert ConnectionOk(s, d);
      } else {
        OthersUndisturbed(s, step, c);
        assert ConnectionOk(s, c);
        if d == a {
          if Claims(t.connections[d], id) { ClaimsKept(s, step, id); }
        } else {
          OthersUndisturbed(s, step, d);
        }
      }
    }
  }

  lemma OwnersExist<F>(s: State<F>, step: Step<F>)
    requires Inv(s) && Enabled(s, step)
    ensures forall id: nat, c: nat :: OwnedBy(Apply(s, step).tables, id, c) ==> c < |Apply(s, step).connections|
  {
    forall id: nat, c: nat | OwnedBy(Apply(s, step).tables, id, c) ensures c < |Apply(s, step).connections| {
      OwnedBefore(s, step, id, c);
    }
  }

  lemma StepKeepsInv<F>(s: State<F>, step: Step<F>)
    requires Inv(s) && Enabled(s, step)
    ensures Inv(Apply(s, step))
  {
    var t := Apply(s, step);
    TablesKept(s, step);
    OwnersExist(s, step);
    DisjointKept(s, step);
    forall d | 0 <= d < |t.connections| ensures ConnectionOk(t, d) {
      if d == Actor(s, step) {
        ActorKept(s, step);
      } else {
        OthersUndisturbed(s, step, d);
        UndisturbedOk(s, t, d);
      }
    }
  }

  lemma {:induction false} RunKeepsInv<F>(s: State<F>, steps: seq<Step<F>>)
    requires Inv(s) && Legal(s, steps)
    ensures Inv(Execute(s, steps))
    decreases |steps|
  {
    if steps != [] {
      StepKeepsInv(s, steps[0]);
      RunKeepsInv(Apply(s, steps[0]), steps[1..]);
    }
  }

  ghost predicate Reachable<F(!new)>(s: State<F>) {
    exists xatu, steps :: Legal(Init<F>(xatu), steps) && Execute(Init(xatu), steps) == s
  }

  lemma ReachableInv<F(!new)>(s: State<F>)
    requires Reachable(s)
    ensures Inv(s)
  {
    var xatu, steps :| Legal(Init<F>(xatu), steps) && Execute(Init(xatu), steps) == s;
    RunKeepsInv(Init(xatu), steps);
  }

  // ----- What holds in every run.

  /** Modules with filters are those a connection registered; their IDs are in its list or about to be. */
  lemma RegistryConsistent<F(!new)>(s: State<F>, id: nat)
    requires Reachable(s)
    ensures id in s.tables.filters ==> id in s.tables.modules
    ensures id in s.tables.modules ==> id <= s.tables.counter
    ensures id in s.tables.modules ==>
              match s.tables.modules[id].owner
              case None => id == 1 && id !in s.tables.filters
              case Some(c) => id in s.tables.filters && c < |s.connections| && Claims(s.connections[c], id)
  {
    ReachableInv(s);
    assert id in s.tables.filters <==> id in s.tables.modules && s.tables.modules[id].owner.Some?;
    if id in s.tables.modules {
      assert id in s.registered;
      match s.tables.modules[id].owner
      case None =>
      case Some(c) =>
        assert OwnedBy(s.tables, id, c);
        assert ConnectionOk(s, c);
        assert WillRemove(s.connections[c], id);
    }
  }

  /** No list repeats an ID and no ID is in two lists. */
  lemma ListsApart<F(!new)>(s: State<F>, c: nat, d: nat)
    requires Reachable(s) && c < |s.connections| && d < |s.connections|
    ensures Distinct(s.connections[c].modules)
    ensures c != d ==> forall id <- s.connections[c].modules :: id !in s.connections[d].modules
  {
    ReachableInv(s);
    assert ConnectionOk(s, c);
    if c != d {
      forall id: nat | id in s.connections[c].modules ensures id !in s.connections[d].modules {
        assert Claims(s.connections[c], id);
        assert id in s.connections[d].modules ==> Claims(s.connections[d], id);
      }
    }
  }

  /** An ID put into the maps has never been there before, and every module is either registered or closed, once. */
  lemma NeverReused<F(!new)>(s: State<F>, step: Step<F>)
    requires Reachable(s) && Enabled(s, step)
    ensures step.Register? ==> PhaseOf(s, step.c).id !in s.registered
    ensures step.TakeID? ==> s.tables.counter + 1 !in s.registered
    ensures Distinct(s.registered) && Distinct(s.tables.closed)
    ensures forall id: nat :: id in s.registered <==> id in s.tables.modules || id in s.tables.closed
    ensures forall id: nat :: id in s.tables.closed ==> id !in s.tables.modules
  {
    ReachableInv(s);
    if step.Register? { assert ConnectionOk(s, step.c); }
  }

  /** Nothing a connection registered is left when its loop is done, whatever others unregistered meanwhile. */
  lemma NothingLeft<F(!new)>(s: State<F>, c: nat)
    requires Reachable(s) && c < |s.connections|
    requires s.connections[c].phase.Gone? || s.connections[c].phase == Closing([])
    ensures forall id: nat :: id in s.tables.modules ==> s.tables.modules[id].owner != Some(c)
  {
    ReachableInv(s);
    assert ConnectionOk(s, c);
    forall id: nat | id in s.tables.modules ensures s.tables.modules[id].owner != Some(c) {
      assert OwnedBy(s.tables, id, c) ==> WillRemove(s.connections[c], id);
    }
  }

  /** With every connection gone only the Xatu module can be left, and no filter. */
  lemma OnlyXatuLeft<F(!new)>(s: State<F>)
    requires Reachable(s) && forall c :: 0 <= c < |s.connections| ==> s.connections[c].phase.Gone?
    ensures s.tables.modules.Keys <= {1} && s.tables.filters == map[]
  {
    forall id: nat ensures id in s.tables.modules ==> id == 1 && s.tables.modules[id].owner == None {
      RegistryConsistent(s, id);
      if id in s.tables.modules && s.tables.modules[id].owner.Some? {
        NothingLeft(s, s.tables.modules[id].owner.value);
      }
    }
    forall id: nat ensures id !in s.tables.filters {
      RegistryConsistent(s, id);
    }
    assert s.tables.filters.Keys == {};
  }

  /** The loop takes away no module of another connection, nor the Xatu module, nor any of their filters. */
  lemma TearDownSparesOthers<F(!new)>(s: State<F>, c: nat, id: nat)
    requires Reachable(s) && Enabled(s, TearDownNext(c)) && id in s.tables.modules
    requires s.tables.modules[id].owner != Some(c)
    ensures var t := Apply(s, TearDownNext(c)).tables;
      && id in t.modules && t.modules[id] == s.tables.modules[id]
      && (id in t.filters <==> id in s.tables.filters)
      && (id in t.filters ==> t.filters[id] == s.tables.filters[id])
  {
    ReachableInv(s);
    assert ConnectionOk(s, c);
    var k := s.connections[c];
    assert k.phase.todo[0] in k.modules;
    assert Claims(k, k.phase.todo[0]);
  }

  // ----- Without interference the steps add up to the operations.

  function Repeat<F>(step: Step<F>, n: nat): seq<Step<F>> {
    if n == 0 then [] else [step] + Repeat(step, n - 1)
  }

  lemma {:induction false} TearDownSteps<F>(s: State<F>, c: nat, ids: seq<nat>)
    requires c < |s.connections| && s.connections[c].phase == Closing(ids)
    ensures var run := Repeat(TearDownNext(c), |ids|);
      && Legal(s, run)
      && Execute(s, run) == SetPhase(s, c, Closing([])).(tables := TornDown(s.tables, ids))
    decreases |ids|
  {
    if ids == [] {
      assert SetPhase(s, c, Closing([])) == s;
    } else {
      var t := Apply(s, TearDownNext(c));
      TearDownSteps(t, c, ids[1..]);
      assert SetPhase(t, c, Closing([])).connections == SetPhase(s, c, Closing([])).connections;
    }
  }

  lemma ThreeSteps<F>(s: State<F>, a: Step<F>, b: Step<F>, c: Step<F>)
    requires Enabled(s, a) && Enabled(Apply(s, a), b) && Enabled(Apply(Apply(s, a), b), c)
    ensures Legal(s, [a, b, c]) && Execute(s, [a, b, c]) == Apply(Apply(Apply(s, a), b), c)
  {
    var t := Apply(s, a);
    var u := Apply(t, b);
    var v := Apply(u, c);
    assert [a, b, c][1..] == [b, c] && [b, c][1..] == [c] && [c][1..] == [];
    assert Legal(v, []) && Execute(v, []) == v;
    assert Legal(u, [c]) && Execute(u, [c]) == v;
    assert Legal(t, [b, c]) && Execute(t, [b, c]) == v;
  }

  lemma RegistrationSteps<F>(s: State<F>, c: nat, kind: Kind, filter: FilterConfig<F>)
    requires c < |s.connections| && s.connections[c].phase.Idle?
    ensures var id := s.tables.counter + 1;
      var run := [TakeID(c), Register(c, kind, filter), List(c)];
      && Legal(s, run)
      && Execute(s, run).tables == Registered(s.tables.(counter := id), id, Module(kind, Some(c)), Some(filter))
      && Execute(s, run).connections ==
           s.connections[c := Connection(Idle, s.connections[c].modules + [id])]
  {
    ThreeSteps(s, TakeID(c), Register(c, kind, filter), List(c));
    var t := Apply(s, TakeID(c));
    var u := Apply(t, Register(c, kind, filter));
    assert u.connections == s.connections[c := s.connections[c].(phase := Listing(s.tables.counter + 1))];
  }

  lemma TwoSteps<F>(s: State<F>, a: Step<F>, b: Step<F>)
    requires Enabled(s, a) && Enabled(Apply(s, a), b)
    ensures Legal(s, [a, b]) && Execute(s, [a, b]) == Apply(Apply(s, a), b)
  {
    var t := Apply(s, a);
    var u := Apply(t, b);
    assert [a, b][1..] == [b] && [b][1..] == [];
    assert Legal(u, []) && Execute(u, []) == u;
    assert Legal(t, [b]) && Execute(t, [b]) == u;
  }

  /** Any connection can unregister any module; only its own list gets shorter, and only if the module is in it. */
  lemma UnregistrationSteps<F>(s: State<F>, c: nat, id: nat)
    requires c < |s.connections| && s.connections[c].phase.Idle?
    ensures var run := [Unregister(c, id), Unlist(c)];
      && Legal(s, run)
      && Execute(s, run).tables == Unregistered(s.tables, id)
      && Execute(s, run).connections ==
           s.connections[c := Connection(Idle, RemoveFirst(s.connections[c].modules, id))]
      && Execute(s, run).registered == s.registered
  {
    TwoSteps(s, Unregister(c, id), Unlist(c));
    var t := Apply(s, Unregister(c, id));
    assert t.connections == s.connections[c := s.connections[c].(phase := Removing(id))];
  }

  /** Whoever comes and goes, the Xatu module stays registered as long as nobody unregisters its ID. */
  lemma {:induction false} XatuStays<F>(s: State<F>, steps: seq<Step<F>>)
    requires Inv(s) && Legal(s, steps) && HasXatu(s.tables)
    requires forall step <- steps :: step.Unregister? ==> step.id != 1
    ensures HasXatu(Execute(s, steps).tables)
    decreases |steps|
  {
    if steps != [] {
      StepKeepsInv(s, steps[0]);
      StepKeepsXatu(s, steps[0]);
      XatuStays(Apply(s, steps[0]), steps[1..]);
    }
  }

  predicate HasXatu<F>(t: Tables<F>) {
    1 in t.modules && t.modules[1] == Module(XatuModule, None) && 1 !in t.filters
  }

  lemma StepKeepsXatu<F>(s: State<F>, step: Step<F>)
    requires Inv(s) && Enabled(s, step) && HasXatu(s.tables) && (step.Unregister? ==> step.id != 1)
    ensures HasXatu(Apply(s, step).tables)
  {
    if !step.Connect? { assert ConnectionOk(s, step.c); }
    if step.Register? { assert Claims(s.connections[step.c], PhaseOf(s, step.c).id); }
    if step.TearDownNext? { assert Claims(s.connections[step.c], PhaseOf(s, step.c).todo[0]); }
  }

  /** It is there from the start, if it is on. */
  lemma XatuFromStart<F>(steps: seq<Step<F>>)
    requires Legal(Init(true), steps) && forall step <- steps :: step.Unregister? ==> step.id != 1
    ensures HasXatu(Execute(Init(true), steps).tables)
  {
    XatuStays(Init(true), steps);
  }

  /** A refusal uses up an ID and changes nothing else. */
  lemma RefusalSteps<F>(s: State<F>, c: nat)
    requires c < |s.connections| && s.connections[c].phase.Idle?
    ensures var run := [TakeID(c), Refuse(c)];
      && Legal(s, run)
      && Execute(s, run) == s.(tables := s.tables.(counter := s.tables.counter + 1))
  {
    TwoSteps(s, TakeID(c), Refuse(c));
    var t := Apply(s, TakeID(c));
    assert Apply(t, Refuse(c)).connections == s.connections;
  }

  lemma {:induction false} LegalAppend<F>(s: State<F>, steps: seq<Step<F>>, step: Step<F>)
    requires Legal(s, steps) && Enabled(Execute(s, steps), step)
    ensures Legal(s, steps + [step]) && Execute(s, steps + [step]) == Apply(Execute(s, steps), step)
    decreases |steps|
  {
    if steps == [] {
      assert steps + [step] == [step];
    } else {
      LegalAppend(Apply(s, steps[0]), steps[1..], step);
      assert (steps + [step])[1..] == steps[1..] + [step];
    }
  }

  /** From the end of its reader to the end of the connection: the modules of its list are torn down. */
  lemma DisconnectSteps<F>(s: State<F>, c: nat) returns (run: seq<Step<F>>)
    requires c < |s.connections| && s.connections[c].phase.Idle?
    ensures Legal(s, run)
    ensures Execute(s, run) == SetPhase(s, c, Gone).(tables := TornDown(s.tables, s.connections[c].modules))
  {
    var ids := s.connections[c].modules;
    var t := Apply(s, Disconnect(c));
    var loop: seq<Step<F>> := Repeat(TearDownNext(c), |ids|);
    TearDownSteps(t, c, ids);
    LegalAppend(t, loop, Finish(c));
    run := [Disconnect(c)] + (loop + [Finish(c)]);
    assert run[1..] == loop + [Finish(c)];
    assert SetPhase(SetPhase(t, c, Closing([])), c, Gone).connections == SetPhase(s, c, Gone).connections;
  }

  /** A new connection is idle and has no modules. */
  lemma ConnectStep<F>(s: State<F>)
    ensures Legal(s, [Connect])
    ensures Execute(s, [Connect]) == s.(connections := s.connections + [Connection(Idle, [])])
  {
    var t := Apply(s, Connect);
    var run: seq<Step<F>> := [Connect];
    assert run[1..] == [];
    assert Legal(t, []) && Execute(t, []) == t;
  }
}
