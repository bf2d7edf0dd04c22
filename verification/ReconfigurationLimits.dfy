/** Where incremental rebuilding falls short of a full rebuild: the exact
    condition for a batch of changes, and runs that go stale. */
module ReconfigurationLimits {
  import opened Sequences
  import opened Documents
  import opened Resources
  import opened Updaters
  import opened Gateways
  import opened Reconfiguration
  import opened Views

  /** Nothing is dirty and everything is fresh, as after a flush. */
  ghost predicate Settled(s: System) {
    NewestArmed(s.c) && AllFresh(s) && s.c.dirtyGateways == [] && s.c.dirtyRouters == [] && s.c.documents == []
  }

  function ChangedAndFlushed(s: System, e: Change): System {
    Step(Step(s, ChangeFile(e)), Flush)
  }

  /** The state after a batch of changes, as they gather until the flush. */
  function Changed(s: System, es: seq<Change>): System {
    if es == [] then s else Step(Changed(s, es[..|es| - 1]), ChangeFile(es[|es| - 1]))
  }

  /** A batch of changes only adds marks; a gateway that it does not mark was
      there before. */
  lemma {:induction false} BatchMarks(s: System, es: seq<Change>, gw: Resource, l: Listener)
    ensures MarksGrew(s.c, Changed(s, es).c)
    ensures Watched(Changed(s, es).log, gw, l) && gw.doc.name !in Changed(s, es).c.dirtyGateways ==>
      Watched(s.log, gw, l)
  {
    if es != [] {
      var s1, e := Changed(s, es[..|es| - 1]), es[|es| - 1];
      BatchMarks(s, es[..|es| - 1], gw, l);
      ChangeMarks(s1, e);
      if Watched(s1.log + [e], gw, l) && gw.doc.name !in Changed(s, es).c.dirtyGateways {
        StaysWatched(s1, e, gw, l);
        assert gw.doc.name !in s1.c.dirtyGateways;
      }
    }
  }

  /** One router after any batch of changes and a flush, if it was fresh before
      the batch: it is fresh exactly when no document of kind `Route` changed, and
      its gateway or a dirty entry for it is marked or the whole batch left its view
      as it was. */
  lemma BatchThenFlushExact(s: System, es: seq<Change>, gw: Resource, l: Listener)
    requires NewestArmed(s.c) && (Watched(s.log, gw, l) ==> Fresh(s, gw, l))
    requires GatewaysDistinct(Changed(s, es).log) && Watched(Changed(s, es).log, gw, l)
    ensures var marked := Changed(s, es);
      Fresh(Step(marked, Flush), gw, l) <==>
        && marked.c.documents == []
        && (|| gw.doc.name in marked.c.dirtyGateways
            || Covered(marked.c.dirtyRouters, gw, l)
            || View(marked.log, gw.doc.name, l) == View(s.log, gw.doc.name, l))
  {
    var s1, key := Changed(s, es), KeyOf(gw, l);
    BatchMarks(s, es, gw, l);
    GrowthKeepsViews(s.c, s1.c, key);
    FlushExact(s1.c, s1.log, gw, l);
    if gw.doc.name !in s1.c.dirtyGateways { assert Fresh(s, gw, l) && key in s1.c.armed; }
  }

  lemma GrowthKeepsViews(c: Control, c': Control, key: RouterKey)
    requires NewestArmed(c) && MarksGrew(c, c')
    ensures NewestArmed(c') && ArmedView(c', key) == ArmedView(c, key) && c'.armed == c.armed
  {
  }

  /** The same for a single change. */
  lemma ChangeThenFlushExact(s: System, e: Change, gw: Resource, l: Listener)
    requires Settled(s) && GatewaysDistinct(s.log + [e]) && Watched(s.log + [e], gw, l)
    ensures var marked := Step(s, ChangeFile(e)).c;
      Fresh(ChangedAndFlushed(s, e), gw, l) <==>
        && marked.documents == []
        && (|| gw.doc.name in marked.dirtyGateways
            || Covered(marked.dirtyRouters, gw, l)
            || View(s.log + [e], gw.doc.name, l) == View(s.log, gw.doc.name, l))
  {
    assert [e][..0] == [] && Changed(s, []) == s && Changed(s, [e]) == Step(s, ChangeFile(e));
    BatchThenFlushExact(s, [e], gw, l);
  }

  lemma OneNotice(s: System, e: Change, n: Notice)
    requires NoticesOf(s.log, e) == [n]
    ensures Step(s, ChangeFile(e)).c == Notified(s.c, s.log + [e], n)
  {
    assert NotifiedAll(s.c, s.log + [e], [n][..0]) == s.c;
  }

  /** A file that held an attached route and now parses to a document without a
      kind: the route leaves the store, no router is marked, and the listener's
      router keeps the route. */
  lemma KindlessOverwriteGoesStale(s: System, e: Change, gw: Resource, l: Listener, r: Resource)
    requires Settled(s) && GatewaysDistinct(s.log + [e]) && Watched(s.log, gw, l) && gw.doc.kind == Some(Gateway)
    requires FileAt(s.log, e.path) == Some(r) && e.data.Some? && e.data.value.kind == None
    requires r.doc.kind.Some? && r.doc.kind.value in RouteKinds(l.protocol) && AttachedTo(r, gw.doc.name, l)
    ensures !Fresh(ChangedAndFlushed(s, e), gw, l)
  {
    var s1, kinds := Step(s, ChangeFile(e)), RouteKinds(l.protocol);
    var p := (x: Resource) => AttachedTo(x, gw.doc.name, l);
    var n := Notice(Loaded(s1.log), None);
    assert NoticesOf(s.log, e) == [n];
    OneNotice(s, e, n);
    assert s1.c == s.c;
    SurvivorsStepMember(s.log, e, Gateway, gw);
    ChangeThenFlushExact(s, e, gw, l);
    TouchedIsListed(s.log, e, r);
    ListAllMember(s.log, kinds, r);
    ListAllMember(s1.log, kinds, r);
    forall k
      ensures r !in Survivors(s1.log, k)
    {
      SurvivorsStepMember(s.log, e, k, r);
    }
    FilterMember(ListAll(s.log, kinds), p, r);
    FilterMember(ListAll(s1.log, kinds), p, r);
  }

  /** A new route file whose references attach to a listener, none of which
      stands for that listener when it is flushed: the router never gets it. */
  lemma UntargetedRouteGoesStale(s: System, e: Change, gw: Resource, l: Listener)
    requires Settled(s) && GatewaysDistinct(s.log + [e]) && Watched(s.log, gw, l)
    requires FileAt(s.log, e.path) == None && e.data.Some?
    requires e.data.value.kind.Some? && e.data.value.kind.value in RouteKinds(l.protocol)
    requires exists ref :: ref in e.data.value.parentRefs && Attaches(ref, gw.doc.name, l)
    requires forall ref :: ref in e.data.value.parentRefs ==> !Marks(ref, gw, l)
    ensures !Fresh(ChangedAndFlushed(s, e), gw, l)
  {
    UntargetedMarksNothing(s, e, gw, l);
    SurvivorsStepMember(s.log, e, Gateway, gw);
    AttachedRouteChangesView(s.log, e, gw.doc.name, l);
    ChangeThenFlushExact(s, e, gw, l);
  }

  lemma UntargetedMarksNothing(s: System, e: Change, gw: Resource, l: Listener)
    requires s.c.dirtyGateways == [] && s.c.dirtyRouters == [] && l.protocol != Dubbo
    requires FileAt(s.log, e.path) == None && e.data.Some?
    requires e.data.value.kind.Some? && e.data.value.kind.value in RouteKinds(l.protocol)
    requires forall ref :: ref in e.data.value.parentRefs ==> !Marks(ref, gw, l)
    ensures var c := Step(s, ChangeFile(e)).c; c.dirtyGateways == [] && !Covered(c.dirtyRouters, gw, l)
  {
    var s1 := Step(s, ChangeFile(e));
    var r := Loaded(s1.log).value;
    var n := Notice(Some(r), None);
    assert NoticesOf(s.log, e) == [n];
    OneNotice(s, e, n);
    assert s1.c == AddDirtyRouters(s.c, r.doc.parentRefs);
    AddDirtyRoutersOnly(s.c, r.doc.parentRefs);
  }

  lemma AttachedRouteChangesView(log: Log, e: Change, gateway: string, l: Listener)
    requires e.data.Some? && e.data.value.kind.Some? && e.data.value.kind.value in RouteKinds(l.protocol)
    requires exists ref :: ref in e.data.value.parentRefs && Attaches(ref, gateway, l)
    ensures View(log + [e], gateway, l) != View(log, gateway, l)
  {
    var kinds, p := RouteKinds(l.protocol), (x: Resource) => AttachedTo(x, gateway, l);
    var r := Loaded(log + [e]).value;
    TouchedIsListed(log, e, r);
    ListAllMember(log + [e], kinds, r);
    ListAllMember(log, kinds, r);
    forall k
      ensures r !in Survivors(log, k)
    {
      SurvivorsAreFiles(log, k, |log|, r);
    }
    FilterMember(ListAll(log, kinds), p, r);
    FilterMember(ListAll(log + [e], kinds), p, r);
  }

  lemma {:induction false} AddDirtyRoutersOnly(c: Control, refs: seq<ParentRef>)
    ensures var c' := AddDirtyRouters(c, refs);
      c'.dirtyGateways == c.dirtyGateways && forall d :: d in c'.dirtyRouters ==> d in c.dirtyRouters || d in refs
  {
    if refs != [] {
      AddDirtyRoutersOnly(c, refs[..|refs| - 1]);
      assert forall d :: d in refs[..|refs| - 1] ==> d in refs;
    }
  }

  // ------------------------------------------------------------ concrete runs

  const TCP_PORT := Listener("a", "", Number(53), TCP)
  const UDP_PORT := Listener("b", "", Number(53), UDP)
  const GATEWAY := BLANK.(kind := Some(Gateway), name := "gw", listeners := [TCP_PORT, UDP_PORT])

  function RouteTo(kind: Kind, ref: ParentRef): Document {
    BLANK.(kind := Some(kind), parentRefs := [ref])
  }

  lemma OneGatewayIsDistinct(log: Log)
    requires Survivors(log, Gateway) == [Resource(0, GATEWAY)]
    ensures GatewaysDistinct(log) && Watched(log, Resource(0, GATEWAY), TCP_PORT) &&
      Watched(log, Resource(0, GATEWAY), UDP_PORT)
  {
    assert GATEWAY.listeners[0] == TCP_PORT && GATEWAY.listeners[1] == UDP_PORT;
  }

  lemma OneGatewaySettles(log: Log)
    requires Survivors(log, Gateway) == [Resource(0, GATEWAY)]
    ensures Settled(Boot(log))
  {
    OneGatewayIsDistinct(log);
    BootIsFresh(log);
    StartedAllMarksNothing(log, Survivors(log, Gateway));
  }

  lemma GatewayAlone()
    ensures Survivors([Change("gw", Some(GATEWAY))], Gateway) == [Resource(0, GATEWAY)]
  {
    var boot := [Change("gw", Some(GATEWAY))];
    assert Live(boot, 0);
    assert SurvivorsUpTo(boot, Gateway, 0) == [];
  }

  lemma {:induction false} StartedMarksNothing(c: Control, log: Log, gateway: string, ls: seq<Listener>)
    ensures var c' := Started(c, log, gateway, ls);
      c'.dirtyGateways == c.dirtyGateways && c'.dirtyRouters == c.dirtyRouters
  {
    if ls != [] { StartedMarksNothing(c, log, gateway, ls[..|ls| - 1]); }
  }

  lemma {:induction false} StartedAllMarksNothing(log: Log, gws: seq<Resource>)
    ensures var c := StartedAll(INITIAL, log, gws); c.dirtyGateways == [] && c.dirtyRouters == []
  {
    if gws != [] {
      StartedAllMarksNothing(log, gws[..|gws| - 1]);
      StartedMarksNothing(StartedAll(INITIAL, log, gws[..|gws| - 1]), log, gws[|gws| - 1].doc.name,
        gws[|gws| - 1].doc.listeners);
    }
  }

  /** Adding one route file to the running gateway above and flushing. */
  function AfterAdding(route: Document): System {
    ChangedAndFlushed(Boot([Change("gw", Some(GATEWAY))]), Change("route", Some(route)))
  }

  lemma AddedToGateway(route: Document)
    requires route.kind.Some? && route.kind != Some(Gateway)
    ensures var boot, e := [Change("gw", Some(GATEWAY))], Change("route", Some(route));
      Survivors(boot + [e], Gateway) == [Resource(0, GATEWAY)] && FileAt(boot, e.path) == None
  {
    var boot, e := [Change("gw", Some(GATEWAY))], Change("route", Some(route));
    GatewayAlone();
    assert FileAt(boot[..0], e.path) == None;
    SurvivorsStep(boot, e, Gateway);
  }

  lemma StaleAfterAddingTo(boot: Log, route: Document, ref: ParentRef, gw: Resource, l: Listener)
    requires gw.doc == GATEWAY && (l == TCP_PORT || l == UDP_PORT) && Settled(Boot(boot)) && Watched(boot, gw, l)
    requires GatewaysDistinct(boot + [Change("route", Some(route))]) && FileAt(boot, "route") == None
    requires route.kind.Some? && route.kind.value in RouteKinds(l.protocol) && route.parentRefs == [ref]
    requires Attaches(ref, "gw", l) && !Marks(ref, gw, l)
    ensures !Fresh(ChangedAndFlushed(Boot(boot), Change("route", Some(route))), gw, l)
  {
    assert route.parentRefs[0] == ref;
    UntargetedRouteGoesStale(Boot(boot), Change("route", Some(route)), gw, l);
  }

  lemma GatewayIsReady(boot: Log)
    requires boot == [Change("gw", Some(GATEWAY))]
    ensures Settled(Boot(boot))
    ensures Watched(boot, Resource(0, GATEWAY), TCP_PORT) && Watched(boot, Resource(0, GATEWAY), UDP_PORT)
  {
    GatewayAlone();
    OneGatewayIsDistinct(boot);
    OneGatewaySettles(boot);
  }

  lemma StaleAfterAdding(kind: Kind, ref: ParentRef, l: Listener)
    requires (l == TCP_PORT || l == UDP_PORT) && kind in RouteKinds(l.protocol)
    requires Attaches(ref, "gw", l) && !Marks(ref, Resource(0, GATEWAY), l)
    ensures !Fresh(AfterAdding(RouteTo(kind, ref)), Resource(0, GATEWAY), l)
  {
    var boot, route := [Change("gw", Some(GATEWAY))], RouteTo(kind, ref);
    AddedToGateway(route);
    GatewayIsReady(boot);
    OneGatewayIsDistinct(boot + [Change("route", Some(route))]);
    StaleAfterAddingTo(boot, route, ref, Resource(0, GATEWAY), l);
  }

  /** A reference that omits its kind attaches the route at start-up, but a flush
      skips its dirty entry. */
  lemma ReferenceWithoutKindGoesStale()
    ensures !Fresh(AfterAdding(RouteTo(TCPRoute, ParentRef(None, "gw", NoPort, "a"))), Resource(0, GATEWAY), TCP_PORT)
  {
    StaleAfterAdding(TCPRoute, ParentRef(None, "gw", NoPort, "a"), TCP_PORT);
  }

  /** A port written as a string attaches the route, but is not found by the
      strict comparison of the flush. */
  lemma SpelledPortGoesStale()
    ensures !Fresh(AfterAdding(RouteTo(TCPRoute, ParentRef(Some(Gateway), "gw", Spelled(53), ""))),
      Resource(0, GATEWAY), TCP_PORT)
  {
    StaleAfterAdding(TCPRoute, ParentRef(Some(Gateway), "gw", Spelled(53), ""), TCP_PORT);
  }

  /** A port shared by a TCP and a UDP listener: the route attaches to the UDP
      one, but the flush refreshes only the first listener of that port. */
  lemma SharedPortGoesStale()
    ensures !Fresh(AfterAdding(RouteTo(UDPRoute, ParentRef(Some(Gateway), "gw", Number(53), ""))),
      Resource(0, GATEWAY), UDP_PORT)
  {
    var ref := ParentRef(Some(Gateway), "gw", Number(53), "");
    assert FindListener(Resource(0, GATEWAY), ref) == Some(TCP_PORT);
    StaleAfterAdding(UDPRoute, ref, UDP_PORT);
  }

  /** The view of a router whose reference to the backend now resolves. */
  lemma LateBackendChangesView(log: Log, e: Change, gateway: string, l: Listener)
    requires e.data.Some? && e.data.value.kind == Some(Backend) && e.data.value.name != ""
    requires FileAt(log, e.path) == None && Bound(log, Backend, e.data.value.name) == None
    requires e.data.value.name in BackendNames(FindRouteResources(log, gateway, l))
    ensures View(log + [e], gateway, l) != View(log, gateway, l)
  {
    var log', name := log + [e], e.data.value.name;
    assert log'[..|log|] == log;
    assert Bound(log', Backend, name) == Loaded(log');
    FilteredListsUnchanged(log, e, RouteKinds(l.protocol), r => AttachedTo(r, gateway, l));
    var routes := FindRouteResources(log, gateway, l);
    assert FindRouteResources(log', gateway, l) == routes;
    FilterMember(BackendNames(routes), x => Bound(log, Backend, x).Some?, name);
    FilterMember(BackendNames(routes), x => Bound(log', Backend, x).Some?, name);
    assert name in ResolvedBackends(log', routes) && name !in ResolvedBackends(log, routes);
  }

  /** A backend file that arrives after a route that names it: no router is
      marked, and the reference stays unresolved, answered with status 500,
      until something else rebuilds the router. */
  lemma LateBackendGoesStale(s: System, e: Change, gw: Resource, l: Listener)
    requires Settled(s) && GatewaysDistinct(s.log + [e]) && Watched(s.log, gw, l) && gw.doc.kind == Some(Gateway)
    requires e.data.Some? && e.data.value.kind == Some(Backend) && e.data.value.name != ""
    requires FileAt(s.log, e.path) == None && Bound(s.log, Backend, e.data.value.name) == None
    requires e.data.value.name in BackendNames(FindRouteResources(s.log, gw.doc.name, l))
    ensures !Fresh(ChangedAndFlushed(s, e), gw, l)
  {
    BackendMarksNothing(s, e);
    SurvivorsStepMember(s.log, e, Gateway, gw);
    LateBackendChangesView(s.log, e, gw.doc.name, l);
    ChangeThenFlushExact(s, e, gw, l);
  }

  lemma BackendMarksNothing(s: System, e: Change)
    requires FileAt(s.log, e.path) == None && e.data.Some? && e.data.value.kind == Some(Backend)
    ensures Step(s, ChangeFile(e)).c == s.c
  {
    var n := Notice(Loaded(s.log + [e]), None);
    assert NoticesOf(s.log, e) == [n];
    OneNotice(s, e, n);
  }

  const ROUTE_TO_B := RouteTo(TCPRoute, ParentRef(Some(Gateway), "gw", NoPort, "a")).(backendNames := ["b"])
  const BACKEND_B := BLANK.(kind := Some(Backend), name := "b")

  lemma RouteToBLoaded(log: Log)
    requires Survivors(log, Gateway) == [Resource(0, GATEWAY)] && FileAt(log, "route") == None
    ensures var log' := log + [Change("route", Some(ROUTE_TO_B))];
      Survivors(log', Gateway) == [Resource(0, GATEWAY)] && Resource(|log|, ROUTE_TO_B) in Survivors(log', TCPRoute)
  {
    var e := Change("route", Some(ROUTE_TO_B));
    SurvivorsStep(log, e, Gateway);
    SurvivorsStepMember(log, e, TCPRoute, Resource(|log|, ROUTE_TO_B));
  }

  /** What the store holds after starting with the gateway and the route. */
  lemma StoreWithRouteToB()
    ensures var boot := [Change("gw", Some(GATEWAY)), Change("route", Some(ROUTE_TO_B))];
      && Survivors(boot, Gateway) == [Resource(0, GATEWAY)]
      && Resource(1, ROUTE_TO_B) in Survivors(boot, TCPRoute)
      && FileAt(boot, "backend") == None && Bound(boot, Backend, "b") == None
  {
    var boot1 := [Change("gw", Some(GATEWAY))];
    var boot := boot1 + [Change("route", Some(ROUTE_TO_B))];
    assert boot == [Change("gw", Some(GATEWAY)), Change("route", Some(ROUTE_TO_B))];
    assert boot[..1] == boot1 && boot1[..0] == [];
    assert FileAt(boot1[..0], "backend") == None && FileAt(boot1[..0], "route") == None;
    assert FileAt(boot1, "backend") == None && FileAt(boot1, "route") == None && Bound(boot1, Backend, "b") == None;
    GatewayAlone();
    RouteToBLoaded(boot1);
  }

  lemma BackendLeavesGateway(log: Log)
    requires Survivors(log, Gateway) == [Resource(0, GATEWAY)] && FileAt(log, "backend") == None
    ensures Survivors(log + [Change("backend", Some(BACKEND_B))], Gateway) == [Resource(0, GATEWAY)]
  {
    SurvivorsStep(log, Change("backend", Some(BACKEND_B)), Gateway);
  }

  lemma RouteToBNamesBackend(log: Log, r: Resource)
    requires r in Survivors(log, TCPRoute) && r.doc == ROUTE_TO_B
    ensures "b" in BackendNames(FindRouteResources(log, "gw", TCP_PORT))
  {
    RouteToBAttached(log, r);
    assert ROUTE_TO_B.backendNames[0] == "b";
    BackendNamesMember(FindRouteResources(log, "gw", TCP_PORT), "b");
  }

  /** The same on a concrete run: start with gateway and route, then add the backend. */
  lemma LateBackendRun()
    ensures var boot := [Change("gw", Some(GATEWAY)), Change("route", Some(ROUTE_TO_B))];
      !Fresh(ChangedAndFlushed(Boot(boot), Change("backend", Some(BACKEND_B))), Resource(0, GATEWAY), TCP_PORT)
  {
    var boot := [Change("gw", Some(GATEWAY)), Change("route", Some(ROUTE_TO_B))];
    StoreWithRouteToB();
    OneGatewaySettles(boot);
    OneGatewayIsDistinct(boot);
    BackendLeavesGateway(boot);
    OneGatewayIsDistinct(boot + [Change("backend", Some(BACKEND_B))]);
    RouteToBNamesBackend(boot, Resource(1, ROUTE_TO_B));
    LateBackendGoesStale(Boot(boot), Change("backend", Some(BACKEND_B)), Resource(0, GATEWAY), TCP_PORT);
  }

  /** A batch that loads a route, targeted at the listener, and then anything
      else: the flush rebuilds the router. */
  lemma RouteInBatchIsFresh(s: System, e1: Change, e2: Change, gw: Resource, l: Listener, ref: ParentRef)
    requires NewestArmed(s.c) && Fresh(s, gw, l) && e1.data.Some?
    requires s.c.documents == [] && RouteKindFree(s.log + [e1] + [e2])
    requires IsWatchedRoute(Resource(|s.log|, e1.data.value)) && ref in e1.data.value.parentRefs && Marks(ref, gw, l)
    requires GatewaysDistinct(s.log + [e1] + [e2]) && Watched(s.log + [e1] + [e2], gw, l)
    ensures Fresh(Step(Changed(s, [e1, e2]), Flush), gw, l)
  {
    var s1 := Step(s, ChangeFile(e1));
    var s2, r := Step(s1, ChangeFile(e2)), Resource(|s.log|, e1.data.value);
    assert [e1, e2][..1] == [e1] && [e1][..0] == [] && Changed(s, []) == s && Changed(s, [e1]) == s1;
    assert Changed(s, [e1, e2]) == s2;
    ChangeMarks(s, e1);
    LoadedKindedIsNoticed(s.log, e1, r);
    assert RouteMarked(s1.c, r) && Marked(s1.c, ref);
    ChangeMarks(s1, e2);
    assert Marked(s2.c, ref);
    assert forall i :: 0 <= i < |s.log + [e1]| ==> (s.log + [e1])[i] == (s.log + [e1] + [e2])[i];
    ChangeAddsNoDocument(s, e1);
    ChangeAddsNoDocument(s1, e2);
    BatchThenFlushExact(s, [e1, e2], gw, l);
  }

  lemma RouteToBIsTargeted()
    ensures var ref := ROUTE_TO_B.parentRefs[0];
      ref in ROUTE_TO_B.parentRefs && Marks(ref, Resource(0, GATEWAY), TCP_PORT)
  {
  }

  lemma BatchStore(log: Log, e1: Change, e2: Change)
    requires Survivors(log, Gateway) == [Resource(0, GATEWAY)] && RouteKindFree(log)
    requires e1 == Change("route", Some(ROUTE_TO_B)) && e2 == Change("backend", Some(BACKEND_B))
    requires FileAt(log, "route") == None && FileAt(log, "backend") == None
    ensures Survivors(log + [e1] + [e2], Gateway) == [Resource(0, GATEWAY)] && RouteKindFree(log + [e1] + [e2])
  {
    RouteToBLoaded(log);
    BackendLeavesGateway(log + [e1]);
  }

  lemma GatewayAloneHasNoOther(path: string)
    requires path != "gw"
    ensures var boot := [Change("gw", Some(GATEWAY))]; FileAt(boot, path) == None && RouteKindFree(boot)
  {
    assert FileAt([Change("gw", Some(GATEWAY))][..0], path) == None;
  }

  /** In one batch with the route, the backend is found. */
  lemma RouteThenBackendIsFresh()
    ensures var es := [Change("route", Some(ROUTE_TO_B)), Change("backend", Some(BACKEND_B))];
      Fresh(Step(Changed(Boot([Change("gw", Some(GATEWAY))]), es), Flush), Resource(0, GATEWAY), TCP_PORT)
  {
    var boot := [Change("gw", Some(GATEWAY))];
    var e1, e2 := Change("route", Some(ROUTE_TO_B)), Change("backend", Some(BACKEND_B));
    GatewayAlone();
    GatewayAloneHasNoOther("route");
    GatewayAloneHasNoOther("backend");
    BatchStore(boot, e1, e2);
    OneGatewayIsDistinct(boot);
    OneGatewayIsDistinct(boot + [e1] + [e2]);
    OneGatewaySettles(boot);
    RouteToBIsTargeted();
    assert Fresh(Boot(boot), Resource(0, GATEWAY), TCP_PORT);
    RouteInBatchIsFresh(Boot(boot), e1, e2, Resource(0, GATEWAY), TCP_PORT, ROUTE_TO_B.parentRefs[0]);
  }

  // ------------------------------------------------ documents of kind `Route`

  const DOCUMENT := BLANK.(kind := Some(ROUTE))

  /** A change or removal of a document of kind `Route` leaves the router of every
      served listener without routes, if it was armed before or its gateway is
      dirty. That is what happens when all listeners are TCP or UDP, whose updaters
      take a document in place of the list of routes without an exception. */
  lemma RouteDocumentEmpties(s: System, e: Change, gw: Resource, l: Listener)
    requires NewestArmed(s.c) && GatewaysDistinct(s.log + [e]) && Served(s.log + [e], gw, l)
    requires KeyOf(gw, l) in s.c.armed && KindOf(FileAt(s.log, e.path)) == Some(ROUTE)
    requires e.data.Some? ==> e.data.value.kind == Some(ROUTE)
    ensures ArmedView(ChangedAndFlushed(s, e).c, KeyOf(gw, l)) == Some(EMPTIED) && EMPTIED.routes == []
    ensures !RoutesFresh(ChangedAndFlushed(s, e), gw, l)
  {
    var s1, ns := Step(s, ChangeFile(e)), NoticesOf(s.log, e);
    ChangeMarks(s, e);
    assert |ns| == 1 && NotifiedAll(s.c, s1.log, ns[..0]) == s.c;
    assert s1.c == s.c.(documents := s.c.documents + ns);
    GrowthKeepsViews(s.c, s1.c, KeyOf(gw, l));
    FlushExact(s1.c, s1.log, gw, l);
  }

  lemma DocumentLoaded(log: Log)
    requires Survivors(log, Gateway) == [Resource(0, GATEWAY)] && Resource(1, ROUTE_TO_B) in Survivors(log, TCPRoute)
    requires FileAt(log, "doc") == None
    ensures var log', e := log + [Change("doc", Some(DOCUMENT))], Change("doc", None);
      && Survivors(log', Gateway) == Survivors(log' + [e], Gateway) == [Resource(0, GATEWAY)]
      && KindOf(FileAt(log', "doc")) == Some(ROUTE) && Resource(1, ROUTE_TO_B) in Survivors(log' + [e], TCPRoute)
  {
    var e1, e2, r := Change("doc", Some(DOCUMENT)), Change("doc", None), Resource(1, ROUTE_TO_B);
    var log' := log + [e1];
    SurvivorsStep(log, e1, Gateway);
    SurvivorsStep(log', e2, Gateway);
    SurvivorsStepMember(log, e1, TCPRoute, r);
    SurvivorsStepMember(log', e2, TCPRoute, r);
  }

  lemma DocumentRunOn(s: System, e: Change, gw: Resource, l: Listener)
    requires Settled(s) && GatewaysDistinct(s.log + [e]) && Watched(s.log, gw, l) && Watched(s.log + [e], gw, l)
    requires e.data == None && KindOf(FileAt(s.log, e.path)) == Some(ROUTE)
    ensures ArmedView(ChangedAndFlushed(s, e).c, KeyOf(gw, l)) == Some(EMPTIED)
  {
    assert Fresh(s, gw, l);
    RouteDocumentEmpties(s, e, gw, l);
  }

  lemma StoreHasNoDocument()
    ensures FileAt([Change("gw", Some(GATEWAY)), Change("route", Some(ROUTE_TO_B))], "doc") == None
  {
    var boot := [Change("gw", Some(GATEWAY)), Change("route", Some(ROUTE_TO_B))];
    assert boot[..1] == [Change("gw", Some(GATEWAY))];
    GatewayAloneHasNoOther("doc");
  }

  /** As a concrete run: the gateway, the route and such a document at start. When
      the document goes, the TCP router loses the route that is still attached. */
  lemma RouteDocumentRun()
    ensures var boot0 := [Change("gw", Some(GATEWAY)), Change("route", Some(ROUTE_TO_B))];
      var boot := boot0 + [Change("doc", Some(DOCUMENT))];
      var s := ChangedAndFlushed(Boot(boot), Change("doc", None));
      && ArmedView(s.c, KeyOf(Resource(0, GATEWAY), TCP_PORT)) == Some(EMPTIED)
      && Resource(1, ROUTE_TO_B) in FindRouteResources(s.log, "gw", TCP_PORT)
  {
    var boot0 := [Change("gw", Some(GATEWAY)), Change("route", Some(ROUTE_TO_B))];
    var boot, e := boot0 + [Change("doc", Some(DOCUMENT))], Change("doc", None);
    StoreWithRouteToB();
    StoreHasNoDocument();
    DocumentLoaded(boot0);
    OneGatewayIsDistinct(boot);
    OneGatewayIsDistinct(boot + [e]);
    OneGatewaySettles(boot);
    DocumentRunOn(Boot(boot), e, Resource(0, GATEWAY), TCP_PORT);
    RouteToBAttached(boot + [e], Resource(1, ROUTE_TO_B));
  }

  lemma RouteToBAttached(log: Log, r: Resource)
    requires r in Survivors(log, TCPRoute) && r.doc == ROUTE_TO_B
    ensures r in FindRouteResources(log, "gw", TCP_PORT)
  {
    ListAllMember(log, RouteKinds(TCP), r);
    assert ROUTE_TO_B.parentRefs[0] in r.doc.parentRefs && Attaches(ROUTE_TO_B.parentRefs[0], "gw", TCP_PORT);
    FilterMember(ListAll(log, RouteKinds(TCP)), x => AttachedTo(x, "gw", TCP_PORT), r);
  }
}
