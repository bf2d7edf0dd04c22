/** src/gateway.js itself: the module's lists are fields that its functions
    update in place. Each method is proved against the specification in
    `Gateways`, so everything proved about that holds of it. */
module GatewayControl {
  import opened Sequences
  import opened Documents
  import opened Resources
  import opened Updaters
  import opened Gateways
  import opened Reconfiguration
  import opened Views

  /** Emptying routers once more changes nothing. */
  lemma EmptyingAgain(c: Control)
    requires NewestArmed(c)
    ensures var c' := c.(routers := EmptiedRouters(c)); NewestArmed(c') && EmptiedRouters(c') == EmptiedRouters(c)
  {
    var c' := c.(routers := EmptiedRouters(c));
    EmptyingKeepsArmed(c);
    forall id | id in c.routers
      ensures id in c'.routers && c'.routers[id].key == c.routers[id].key
      ensures EmptiedRouters(c')[id] == EmptiedRouters(c)[id]
    {
      assert IsArmed(c', id) == IsArmed(c, id);
    }
  }

  lemma EmptyingDone(c: Control, routers: map<nat, Router>)
    requires Emptying(c, routers, {})
    ensures routers == EmptiedRouters(c) && Except(c.armed, {}) == c.armed
  {
  }

  /** The lists of the keys that are not to run any more. */
  function Except(m: ListMap<RouterKey, Callback>, todo: set<RouterKey>): ListMap<RouterKey, Callback> {
    map key | key in m && key !in todo :: m[key]
  }

  lemma RearmOne(c: Control, todo: set<RouterKey>, key: RouterKey)
    requires NewestArmed(c) && key in c.armed && key !in todo
    ensures var cb := c.armed[key][0];
      SetIn(Except(c.armed, todo + {key}), cb.routerKey, Some(cb)) == Except(c.armed, todo)
  {
    assert c.armed[key] == [c.armed[key][0]];
  }

  /** One callback of a key recompiles its router and registers again. */
  lemma EmptyOne(c: Control, routers: map<nat, Router>, todo: set<RouterKey>, key: RouterKey)
    requires NewestArmed(c) && key in c.armed && key !in todo && Emptying(c, routers, todo + {key})
    ensures var cb := c.armed[key][0];
      cb.routerKey == key && Emptying(c, routers[cb.router := Router(cb.routerKey, EMPTIED)], todo)
  {
    var cb := c.armed[key][0];
    assert c.armed[key] == [cb];
    forall id | id in c.routers && c.routers[id].key == key && id != cb.router
      ensures !IsArmed(c, id)
    {
    }
  }

  /** The routers while the callbacks of some keys are still to run. */
  ghost predicate Emptying(c: Control, routers: map<nat, Router>, todo: set<RouterKey>) {
    && routers.Keys == c.routers.Keys
    && forall id :: id in c.routers ==>
         routers[id] == if IsArmed(c, id) && c.routers[id].key !in todo then c.routers[id].(view := EMPTIED)
           else c.routers[id]
  }

  /** The view holds exactly the routes that belong to the listener. */
  ghost predicate HasRoutes(view: RouterView, log: Log, gateway: string, l: Listener) {
    forall r :: r in view.routes <==> Belongs(log, gateway, l, r)
  }

  class Watcher {
    const store: ResourceStore
    var currentListeners: seq<ListenerKey>
    var dirtyGateways: seq<string>
    var dirtyRouters: seq<ParentRef>
    var made: nat
    var routers: map<nat, Router>
    var armed: ListMap<RouterKey, Callback>
    var open: map<ListenerKey, nat>
    var captured: map<nat, RouterView>
    var documents: seq<Notice>

    function State(): Control
      reads this
    {
      Control(currentListeners, dirtyGateways, dirtyRouters, made, routers, armed, open, captured, documents)
    }

    constructor (store: ResourceStore)
      ensures this.store == store && State() == INITIAL
    {
      this.store := store;
      currentListeners, dirtyGateways, dirtyRouters := [], [], [];
      made, routers, armed, open, captured, documents := 0, map[], map[], map[], map[], [];
    }

    // ------------------------------------------------------ marking as dirty

    method AddDirtyGateway(name: string)
      modifies this
      ensures State() == Gateways.AddDirtyGateway(old(State()), name)
    {
      if name !in dirtyGateways {
        dirtyGateways := dirtyGateways + [name];
        dirtyRouters := Filter(dirtyRouters, (d: ParentRef) => d.kind != Some(Gateway) || d.name != name);
      }
    }

    method AddDirtyRouters(refs: seq<ParentRef>)
      modifies this
      ensures State() == Gateways.AddDirtyRouters(old(State()), refs)
    {
      for i := 0 to |refs|
        invariant State() == Gateways.AddDirtyRouters(old(State()), refs[..i])
      {
        assert refs[..i + 1][..i] == refs[..i];
        if refs[i] !in dirtyRouters {
          dirtyRouters := dirtyRouters + [refs[i]];
        }
      }
      assert refs[..|refs|] == refs;
    }

    method AddDirtyRoutersByPolicy(policy: Resource)
      requires store.Valid()
      modifies this
      ensures State() == Gateways.AddDirtyRoutersByPolicy(old(State()), policy, ListAll(store.log, ALL_ROUTE_KINDS))
    {
      var routes := ListKinds(ALL_ROUTE_KINDS);
      for i := 0 to |routes|
        invariant State() == Gateways.AddDirtyRoutersByPolicy(old(State()), policy, routes[..i])
      {
        assert routes[..i + 1][..i] == routes[..i];
        if Governs(policy, routes[i]) {
          AddDirtyRouters(routes[i].doc.parentRefs);
        }
      }
      assert routes[..|routes|] == routes;
    }

    /** The part of onResourceChange done for the new and for the old resource alike. */
    method MarkDependents(kind: Option<Kind>, r: Resource)
      requires store.Valid()
      modifies this
      ensures State() == Gateways.MarkDependents(old(State()), store.log, kind, r)
    {
      match kind
      case Some(Gateway) =>
        if r.doc.name != "" { AddDirtyGateway(r.doc.name); }
      case Some(HTTPRoute) | Some(GRPCRoute) | Some(TCPRoute) | Some(TLSRoute) | Some(UDPRoute) =>
        AddDirtyRouters(r.doc.parentRefs);
      case Some(BackendLBPolicy) | Some(BackendTLSPolicy) =>
        AddDirtyRoutersByPolicy(r);
      case _ =>
    }

    method OnResourceChange(n: Notice)
      requires store.Valid()
      modifies this
      ensures State() == Notified(old(State()), store.log, n)
    {
      var res := if n.newResource.Some? then n.newResource else n.oldResource;
      if res.Some? && res.value.doc.kind == Some(OtherKind("Route")) {
        documents := documents + [n];
      } else if res.Some? {
        MarkDependents(res.value.doc.kind, res.value);
        if n.oldResource.Some? && res != n.oldResource {
          MarkDependents(res.value.doc.kind, n.oldResource.value);
        }
      }
    }

    // ------------------------------------------------------- compiling routers

    method ListKinds(kinds: seq<Kind>) returns (rs: seq<Resource>)
      requires store.Valid()
      ensures rs == ListAll(store.log, kinds)
    {
      rs := [];
      for i := 0 to |kinds|
        invariant rs == ListAll(store.log, kinds[..i])
      {
        assert kinds[..i + 1][..i] == kinds[..i];
        rs := rs + store.List(kinds[i]);
      }
      assert kinds[..|kinds|] == kinds;
    }

    method FindRouteResources(gateway: string, l: Listener) returns (routes: seq<Resource>)
      requires store.Valid()
      ensures routes == Gateways.FindRouteResources(store.log, gateway, l)
      ensures forall r :: r in routes <==> Belongs(store.log, gateway, l, r)
    {
      var routeKinds: seq<Kind> := [];
      match l.protocol {
        case HTTP | HTTPS => routeKinds := routeKinds + [HTTPRoute, GRPCRoute];
        case TLSTerminate => routeKinds := routeKinds + [TCPRoute];
        case TLSPassthrough => routeKinds := routeKinds + [TLSRoute];
        case TLSOtherMode | UnknownProtocol =>
        case TCP => routeKinds := routeKinds + [TCPRoute];
        case UDP => routeKinds := routeKinds + [UDPRoute];
        case Dubbo => routeKinds := routeKinds + [DubboRoute];
      }
      assert routeKinds == RouteKinds(l.protocol);
      var candidates := ListKinds(routeKinds);
      routes := Filter(candidates, r => AttachedTo(r, gateway, l));
      assert routes == View(store.log, gateway, l).routes;
      forall r
        ensures r in routes <==> Belongs(store.log, gateway, l, r)
      {
        RouteBelongsExactly(store.log, gateway, l, r);
      }
    }

    /** What compiling a router reads. */
    method Compile(gateway: string, l: Listener) returns (view: RouterView)
      requires store.Valid()
      ensures view == View(store.log, gateway, l) && HasRoutes(view, store.log, gateway, l)
    {
      var routes := FindRouteResources(gateway, l);
      var policies := ListKinds([BackendLBPolicy, BackendTLSPolicy]);
      policies := Filter(policies, p => exists r :: r in routes && Governs(p, r));
      var names := BackendNames(routes);
      var resolved := [];
      ghost var log := store.log;
      for i := 0 to |names|
        invariant resolved == Filter(names[..i], name => Bound(log, Backend, name).Some?)
      {
        assert names[..i + 1][..i] == names[..i];
        if store.Find(Backend, names[i]).Some? {
          resolved := resolved + [names[i]];
        }
      }
      assert names[..|names|] == names;
      view := RouterView(l, routes, policies, resolved);
    }

    /** `runUpdaters('Route', key, ...)`: the list is detached before it is run. */
    method RunRouteUpdaters(key: RouterKey, view: RouterView) returns (ran: bool)
      modifies this
      ensures ran == (key in old(armed))
      ensures State() == Gateways.RunRouteUpdaters(old(State()), key, view)
    {
      ran := key in armed;
      if ran {
        var list := armed[key];
        armed := armed - {key};
        ghost var detached := State();
        for i := 0 to |list|
          invariant State() == RunCallbacks(detached, list[..i], view)
        {
          assert list[..i + 1][..i] == list[..i];
          routers := routers[list[i].router := Router(list[i].routerKey, view)];
          armed := SetIn(armed, list[i].routerKey, Some(list[i]));
        }
        assert list[..|list|] == list;
      }
    }

    method MakeListenerKey(l: Listener) returns (key: ListenerKey)
      ensures key == Gateways.MakeListenerKey(l)
      ensures (l.address != "" ==> key.address == l.address) && (l.address == "" ==> key.address == "0.0.0.0")
      ensures key.port == None <==> l.port.NoPort?
      ensures key.port.Some? ==> key.port.value == l.port.n
      ensures key.udp <==> l.protocol == UDP
    {
      var address := if l.address != "" then l.address else "0.0.0.0";
      var port := if l.port.NoPort? then None else Some(l.port.n);
      key := ListenerKey(address, port, l.protocol == UDP);
    }

    method MakeListener(gateway: string, l: Listener) returns (key: ListenerKey)
      requires store.Valid() && Opens(l)
      modifies this
      ensures key == Gateways.MakeListenerKey(l)
      ensures State() == Gateways.MakeListener(old(State()), store.log, gateway, l)
    {
      key := MakeListenerKey(l);
      var routerKey := RouterKey(key, gateway);
      var view := Compile(gateway, l);
      routers := routers[made := Router(routerKey, view)];
      armed := SetIn(armed, routerKey, Some(RouteUpdate(made, routerKey)));
      open := open[key := made];
      captured := captured[made := view];
      made := made + 1;
    }

    method StartGateway(gw: Resource)
      requires store.Valid()
      modifies this
      ensures State() == Started(old(State()), store.log, gw.doc.name, gw.doc.listeners)
    {
      var ls := gw.doc.listeners;
      for i := 0 to |ls|
        invariant State() == Started(old(State()), store.log, gw.doc.name, ls[..i])
      {
        assert ls[..i + 1][..i] == ls[..i];
        if Opens(ls[i]) {
          var key := MakeListener(gw.doc.name, ls[i]);
          if key !in currentListeners {
            currentListeners := currentListeners + [key];
          }
        }
      }
      assert ls[..|ls|] == ls;
    }

    // ------------------------------------------------------------- the flush

    /** One dirty entry: the first listener it resolves to, of the first gateway it names. */
    method RefreshDirtyRouter(d: ParentRef)
      requires store.Valid()
      modifies this
      ensures State() == RefreshRouter(old(State()), store.log, d)
    {
      if d.kind == Some(Gateway) {
        var gw := First(store.List(Gateway), (g: Resource) => g.doc.name == d.name);
        if gw.Some? {
          var l := First(gw.value.doc.listeners, (x: Listener) =>
            (x.name == d.sectionName && d.sectionName != "") || x.port == d.port);
          FirstSame(gw.value.doc.listeners, (x: Listener) =>
            (x.name == d.sectionName && d.sectionName != "") || x.port == d.port, (x: Listener) => Resolves(x, d));
          if l.Some? {
            var view := Compile(gw.value.doc.name, l.value);
            var ran := RunRouteUpdaters(MakeRouterKey(gw.value.doc.name, l.value), view);
          }
        }
      }
    }

    method RefreshDirtyRouters()
      requires store.Valid()
      modifies this
      ensures State() == RefreshRouters(old(State()), store.log, old(dirtyRouters))
    {
      var ds := dirtyRouters;
      for i := 0 to |ds|
        invariant State() == RefreshRouters(old(State()), store.log, ds[..i])
      {
        assert ds[..i + 1][..i] == ds[..i];
        RefreshDirtyRouter(ds[i]);
      }
      assert ds[..|ds|] == ds;
    }

    /** One gateway of the sweep, extending `updatedListeners`. */
    method SweepGateway(gw: Resource, updatedListeners: seq<ListenerKey>) returns (updated: seq<ListenerKey>)
      requires store.Valid()
      modifies this
      ensures currentListeners == old(currentListeners)
      ensures Sweep(State(), updated) ==
        SweptListeners(Sweep(old(State()), updatedListeners), store.log, gw.doc.name, gw.doc.listeners)
    {
      var ls := gw.doc.listeners;
      updated := updatedListeners;
      for i := 0 to |ls|
        invariant currentListeners == old(currentListeners)
        invariant Sweep(State(), updated) ==
          SweptListeners(Sweep(old(State()), updatedListeners), store.log, gw.doc.name, ls[..i])
      {
        assert ls[..i + 1][..i] == ls[..i];
        var isUpdated := gw.doc.name in dirtyGateways;
        if !isUpdated || Opens(ls[i]) {
          var key := MakeListenerKey(ls[i]);
          if isUpdated { key := MakeListener(gw.doc.name, ls[i]); }
          if key !in updated { updated := updated + [key]; }
        }
      }
      assert ls[..|ls|] == ls;
    }

    method CloseStaleListeners(updated: seq<ListenerKey>)
      modifies this`open
      ensures open == CloseStale(old(open), currentListeners, updated)
    {
      var current := currentListeners;
      for i := 0 to |current|
        invariant open == CloseStale(old(open), current[..i], updated)
      {
        assert forall k :: k in current[..i + 1] <==> k in current[..i] || k == current[i];
        if current[i] !in updated { open := open - {current[i]}; }
      }
      assert current[..|current|] == current;
    }

    method SweepGateways() returns (updated: seq<ListenerKey>)
      requires store.Valid()
      modifies this
      ensures currentListeners == old(currentListeners)
      ensures Sweep(State(), updated) == Swept(Sweep(old(State()), []), store.log, Survivors(store.log, Gateway))
    {
      var gws := store.List(Gateway);
      updated := [];
      for i := 0 to |gws|
        invariant currentListeners == old(currentListeners)
        invariant Sweep(State(), updated) == Swept(Sweep(old(State()), []), store.log, gws[..i])
      {
        assert gws[..i + 1][..i] == gws[..i];
        if gws[i].doc.name != "" { updated := SweepGateway(gws[i], updated); }
      }
      assert gws[..|gws|] == gws;
    }

    method ReconcileListeners()
      requires store.Valid()
      modifies this
      ensures State() == Reconciled(old(State()), store.log)
    {
      if |dirtyGateways| > 0 {
        var updated := SweepGateways();
        CloseStaleListeners(updated);
        currentListeners := updated;
      }
    }

    /** The watcher's part of src/main.js: opens every named gateway of the loaded files. */
    method StartGateways()
      requires store.Valid() && State() == INITIAL
      modifies this
      ensures System(store.log, State()) == Boot(store.log)
    {
      var gws := store.List(Gateway);
      for i := 0 to |gws|
        invariant State() == StartedAll(INITIAL, store.log, gws[..i])
      {
        assert gws[..i + 1][..i] == gws[..i];
        if gws[i].doc.name != "" { StartGateway(gws[i]); }
      }
      assert gws[..|gws|] == gws;
    }

    /** `runUpdaters('Route', undefined, ...)`: the whole kind is detached, and
        every callback recompiles its router and registers again. */
    method RunAllRouteUpdaters()
      requires NewestArmed(State())
      modifies this`routers, this`armed
      ensures armed == old(armed) && routers == EmptiedRouters(old(State()))
    {
      var listMap, todo := armed, armed.Keys;
      ghost var c := State();
      armed := map[];
      while todo != {}
        invariant todo <= listMap.Keys && armed == Except(listMap, todo) && Emptying(c, routers, todo)
        decreases todo
      {
        var key :| key in todo;
        assert todo - {key} + {key} == todo;
        todo := todo - {key};
        var cb := listMap[key][0];
        EmptyOne(c, routers, todo, key);
        RearmOne(c, todo, key);
        routers := routers[cb.router := Router(cb.routerKey, EMPTIED)];
        armed := SetIn(armed, cb.routerKey, Some(cb));
      }
      EmptyingDone(c, routers);
    }

    method RunDocuments()
      requires NewestArmed(State())
      modifies this`routers, this`armed, this`documents
      ensures State() == AfterDocuments(old(State()))
    {
      ghost var c := State();
      for i := 0 to |documents|
        invariant documents == old(documents) && armed == old(armed) && NewestArmed(State())
        invariant State() == if i == 0 then c else c.(routers := EmptiedRouters(c))
      {
        RunAllRouteUpdaters();
        EmptyingAgain(c);
      }
      documents := [];
    }

    method UpdateDirtyResources()
      requires store.Valid() && NewestArmed(State())
      modifies this
      ensures State() == Flushed(old(State()), store.log)
    {
      FlushKeepsArmed(State(), store.log);
      ghost var c1 := RefreshRouters(State(), store.log, dirtyRouters);
      RefreshKeepsArmed(State(), store.log, dirtyRouters);
      ReconciledKeepsArmed(c1, store.log);
      RefreshDirtyRouters();
      ReconcileListeners();
      RunDocuments();
      dirtyGateways, dirtyRouters := [], [];
    }

    // --------------------------------------------------------- wired together

    /** A changed file goes through the store and its notifications through the
        watcher; the two together make one step of the system. */
    method FileChanged(path: string, data: Option<Document>)
      requires store.Valid()
      modifies this, store
      ensures store.Valid()
      ensures System(store.log, State()) == Step(old(System(store.log, State())), Event.ChangeFile(Change(path, data)))
    {
      var notices := store.ChangeFile(path, data);
      for i := 0 to |notices|
        invariant store.Valid() && store.log == old(store.log) + [Change(path, data)]
        invariant State() == NotifiedAll(old(State()), store.log, notices[..i])
        modifies this
      {
        assert notices[..i + 1][..i] == notices[..i];
        OnResourceChange(notices[i]);
      }
      assert notices[..|notices|] == notices;
    }
  }
}
