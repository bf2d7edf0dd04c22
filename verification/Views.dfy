/** What a full rebuild compiles a router from, in the terms of the documents:
    which routes, policies and backends a view holds, without the kinds and
    attachment tests that compute it. */
module Views {
  import opened Sequences
  import opened Documents
  import opened Resources
  import opened Gateways
  import opened Reconfiguration

  /** The list of a kind, as far as it is attached to the listener. */
  function Attached(log: Log, kind: Kind, gateway: string, l: Listener): seq<Resource> {
    Filter(Survivors(log, kind), (r: Resource) => AttachedTo(r, gateway, l))
  }

  lemma ListTwo(log: Log, a: Kind, b: Kind)
    ensures ListAll(log, [a]) == Survivors(log, a)
    ensures ListAll(log, [a, b]) == Survivors(log, a) + Survivors(log, b)
  {
    assert [a][..0] == [] && [a, b][..1] == [a];
    assert ListAll(log, []) + Survivors(log, a) == Survivors(log, a);
  }

  lemma AttachedOfTwo(log: Log, a: Kind, b: Kind, gateway: string, l: Listener)
    ensures var p := (r: Resource) => AttachedTo(r, gateway, l);
      && Filter(ListAll(log, [a]), p) == Attached(log, a, gateway, l)
      && Filter(ListAll(log, [a, b]), p) == Attached(log, a, gateway, l) + Attached(log, b, gateway, l)
  {
    var p := (r: Resource) => AttachedTo(r, gateway, l);
    ListTwo(log, a, b);
    FilterConcat(Survivors(log, a), Survivors(log, b), p);
    FilterSame(Survivors(log, a), p, (r: Resource) => AttachedTo(r, gateway, l));
    FilterSame(Survivors(log, b), p, (r: Resource) => AttachedTo(r, gateway, l));
  }

  /** The routes of a router are those of the kinds its listener takes, kind by
      kind, as far as they are attached. */
  lemma RoutesByKind(log: Log, gateway: string, l: Listener)
    ensures View(log, gateway, l).routes ==
      match l.protocol
      case HTTP | HTTPS => Attached(log, HTTPRoute, gateway, l) + Attached(log, GRPCRoute, gateway, l)
      case TCP | TLSTerminate => Attached(log, TCPRoute, gateway, l)
      case TLSPassthrough => Attached(log, TLSRoute, gateway, l)
      case UDP => Attached(log, UDPRoute, gateway, l)
      case Dubbo => Attached(log, DubboRoute, gateway, l)
      case TLSOtherMode | UnknownProtocol => []
  {
    var kinds, p := RouteKinds(l.protocol), (r: Resource) => AttachedTo(r, gateway, l);
    FilterSame(ListAll(log, kinds), r => AttachedTo(r, gateway, l), p);
    if l.protocol == HTTP || l.protocol == HTTPS {
      AttachedOfTwo(log, HTTPRoute, GRPCRoute, gateway, l);
    } else if kinds != [] {
      assert kinds == [kinds[0]];
      AttachedOfTwo(log, kinds[0], kinds[0], gateway, l);
    }
  }

  /** The resource is in the store: some file holds it. */
  ghost predicate Stored(log: Log, r: Resource) {
    r.id < |log| && Live(log, r.id) && log[r.id].data == Some(r.doc)
  }

  /** The reference names the gateway and there the listener, by its name or by its
      port, where ports agree if both are absent or have the same number. */
  ghost predicate PointsAt(ref: ParentRef, gateway: string, l: Listener) {
    && (ref.kind == None || ref.kind == Some(Gateway)) && ref.name == gateway
    && (|| (l.name != "" && ref.sectionName == l.name)
        || (ref.port.NoPort? && l.port.NoPort?)
        || (!ref.port.NoPort? && !l.port.NoPort? && ref.port.n == l.port.n))
  }

  /** The route is of a kind that the protocol takes. */
  ghost predicate Takes(p: Protocol, kind: Option<Kind>) {
    match p
    case HTTP | HTTPS => kind == Some(HTTPRoute) || kind == Some(GRPCRoute)
    case TCP | TLSTerminate => kind == Some(TCPRoute)
    case TLSPassthrough => kind == Some(TLSRoute)
    case UDP => kind == Some(UDPRoute)
    case Dubbo => kind == Some(DubboRoute)
    case TLSOtherMode | UnknownProtocol => false
  }

  ghost predicate Belongs(log: Log, gateway: string, l: Listener, r: Resource) {
    && Stored(log, r) && Takes(l.protocol, r.doc.kind)
    && exists ref :: ref in r.doc.parentRefs && PointsAt(ref, gateway, l)
  }

  lemma AttachedMember(log: Log, kind: Kind, gateway: string, l: Listener, r: Resource)
    ensures r in Attached(log, kind, gateway, l) <==>
      && Stored(log, r) && r.doc.kind == Some(kind)
      && exists ref :: ref in r.doc.parentRefs && PointsAt(ref, gateway, l)
  {
    FilterMember(Survivors(log, kind), (r: Resource) => AttachedTo(r, gateway, l), r);
    SurvivorsAreFiles(log, kind, |log|, r);
    forall ref | ref in r.doc.parentRefs
      ensures PointsAt(ref, gateway, l) <==> Attaches(ref, gateway, l)
    {
    }
  }

  /** A stored route is compiled into the router of a listener exactly when its kind
      and one of its references say so. */
  lemma RouteBelongsExactly(log: Log, gateway: string, l: Listener, r: Resource)
    ensures r in View(log, gateway, l).routes <==> Belongs(log, gateway, l, r)
  {
    RoutesByKind(log, gateway, l);
    forall kind
      ensures r in Attached(log, kind, gateway, l) <==>
        && Stored(log, r) && r.doc.kind == Some(kind)
        && exists ref :: ref in r.doc.parentRefs && PointsAt(ref, gateway, l)
    {
      AttachedMember(log, kind, gateway, l, r);
    }
  }

  /** The policies are the load-balancing and TLS policies in the store that target a
      backend of one of the routes by name. */
  lemma PolicyAppliesExactly(log: Log, gateway: string, l: Listener, p: Resource)
    ensures p in View(log, gateway, l).policies <==>
      && Stored(log, p) && (p.doc.kind == Some(BackendLBPolicy) || p.doc.kind == Some(BackendTLSPolicy))
      && exists r, ref :: r in View(log, gateway, l).routes && ref in p.doc.targetRefs
           && ref.kind == Backend && ref.name in r.doc.backendNames
  {
    var routes, kinds := View(log, gateway, l).routes, [BackendLBPolicy, BackendTLSPolicy];
    FilterMember(ListAll(log, kinds), p => exists r :: r in routes && Governs(p, r), p);
    ListAllMember(log, kinds, p);
    forall k
      ensures p in Survivors(log, k) <==> Stored(log, p) && p.doc.kind == Some(k)
    {
      SurvivorsAreFiles(log, k, |log|, p);
    }
    assert kinds[0] == BackendLBPolicy && kinds[1] == BackendTLSPolicy;
  }

  lemma {:induction false} ReferencesMarked(c: Control, refs: seq<ParentRef>, d: ParentRef)
    ensures d in AddDirtyRouters(c, refs).dirtyRouters <==> d in c.dirtyRouters || d in refs
  {
    if refs != [] {
      ReferencesMarked(c, refs[..|refs| - 1], d);
      assert d in refs <==> d in refs[..|refs| - 1] || d == refs[|refs| - 1];
    }
  }

  lemma {:induction false} PolicyMarks(c: Control, policy: Resource, routes: seq<Resource>, d: ParentRef)
    ensures d in AddDirtyRoutersByPolicy(c, policy, routes).dirtyRouters <==>
      d in c.dirtyRouters || exists r :: r in routes && Governs(policy, r) && d in r.doc.parentRefs
  {
    if routes != [] {
      var init, last := routes[..|routes| - 1], routes[|routes| - 1];
      PolicyMarks(c, policy, init, d);
      ReferencesMarked(AddDirtyRoutersByPolicy(c, policy, init), last.doc.parentRefs, d);
      assert forall r :: r in routes <==> r in init || r == last;
    }
  }

  ghost predicate IsRoute(kind: Option<Kind>) {
    || kind == Some(HTTPRoute) || kind == Some(GRPCRoute) || kind == Some(TCPRoute)
    || kind == Some(TLSRoute) || kind == Some(UDPRoute) || kind == Some(DubboRoute)
  }

  lemma ListedRoute(log: Log, r: Resource)
    ensures r in ListAll(log, ALL_ROUTE_KINDS) <==> Stored(log, r) && IsRoute(r.doc.kind)
  {
    ListAllMember(log, ALL_ROUTE_KINDS, r);
    forall k
      ensures r in Survivors(log, k) <==> Stored(log, r) && r.doc.kind == Some(k)
    {
      SurvivorsAreFiles(log, k, |log|, r);
    }
    assert ALL_ROUTE_KINDS == [HTTPRoute, GRPCRoute, TCPRoute, TLSRoute, UDPRoute, DubboRoute];
  }

  /** A changed policy marks the references of exactly the stored routes, of any of
      the six kinds, that name a backend which it targets. */
  lemma PolicyMarksExactly(c: Control, log: Log, p: Resource, d: ParentRef)
    requires p.doc.kind == Some(BackendLBPolicy) || p.doc.kind == Some(BackendTLSPolicy)
    ensures d in MarkDependents(c, log, p.doc.kind, p).dirtyRouters <==>
      || d in c.dirtyRouters
      || exists r, ref :: Stored(log, r) && IsRoute(r.doc.kind) && d in r.doc.parentRefs &&
           ref in p.doc.targetRefs && ref.kind == Backend && ref.name in r.doc.backendNames
  {
    PolicyMarks(c, p, ListAll(log, ALL_ROUTE_KINDS), d);
    forall r
      ensures r in ListAll(log, ALL_ROUTE_KINDS) <==> Stored(log, r) && IsRoute(r.doc.kind)
    {
      ListedRoute(log, r);
    }
  }

  lemma {:induction false} BackendNamesMember(routes: seq<Resource>, name: string)
    ensures name in BackendNames(routes) <==> exists r :: r in routes && name in r.doc.backendNames
  {
    if routes != [] {
      BackendNamesMember(routes[..|routes| - 1], name);
      assert forall r :: r in routes <==> r in routes[..|routes| - 1] || r == routes[|routes| - 1];
    }
  }

  /** The resolved names are those that some route refers to and the index of
      backends holds. */
  lemma BackendResolvesExactly(log: Log, gateway: string, l: Listener, name: string)
    ensures name in View(log, gateway, l).resolved <==>
      && Bound(log, Backend, name).Some?
      && exists r :: r in View(log, gateway, l).routes && name in r.doc.backendNames
  {
    var routes := View(log, gateway, l).routes;
    FilterMember(BackendNames(routes), name => Bound(log, Backend, name).Some?, name);
    BackendNamesMember(routes, name);
  }

  /** The newest router of the listener was last compiled from the route. */
  ghost predicate IsCompiled(s: System, gw: Resource, l: Listener, r: Resource) {
    var view := ArmedView(s.c, KeyOf(gw, l));
    view.Some? && r in view.value.routes
  }

  /** The main theorem on single routes: after any allowed run that ends in a flush,
      the newest router of a watched listener was compiled from exactly the routes
      that belong to the listener. */
  lemma CompiledExactly(boot: Log, events: seq<Event>, gw: Resource, l: Listener, r: Resource)
    requires AllowedRun(boot, events) && events != [] && events[|events| - 1] == Flush
    requires Watched(Run(boot, events).log, gw, l)
    ensures var s := Run(boot, events);
      IsCompiled(s, gw, l, r) <==> Belongs(s.log, gw.doc.name, l, r)
  {
    IncrementalRoutesEqualFull(boot, events);
    RouteBelongsExactly(Run(boot, events).log, gw.doc.name, l, r);
  }
}
