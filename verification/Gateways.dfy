/** Live reconfiguration: the specification of src/gateway.js.

    File changes only mark gateways and routers dirty; a flush rebuilds what is
    marked. `View` is what a full rebuild would give a router. */
module Gateways {
  import opened Sequences
  import opened Documents
  import opened Resources
  import opened Updaters

  // ------------------------------------------------------------------- keys

  /** The pair `[port, protocol]` of makeListenerKey, with the port text split
      into address and number. */
  datatype ListenerKey = ListenerKey(address: string, port: Option<nat>, udp: bool)

  datatype RouterKey = RouterKey(listener: ListenerKey, gateway: string)

  function MakeListenerKey(l: Listener): ListenerKey {
    ListenerKey(
      if l.address == "" then "0.0.0.0" else l.address,
      if l.port.NoPort? then None else Some(l.port.n),
      l.protocol == UDP)
  }

  function MakeRouterKey(gateway: string, l: Listener): RouterKey {
    RouterKey(MakeListenerKey(l), gateway)
  }

  /** makeListener accepts the protocol and TLS mode, that is, does not throw. */
  predicate Opens(l: Listener) {
    l.protocol != TLSOtherMode && l.protocol != UnknownProtocol
  }

  // -------------------------------------------------- what a router is built from

  const WATCHED_ROUTE_KINDS := [HTTPRoute, GRPCRoute, TCPRoute, TLSRoute, UDPRoute]
  const ALL_ROUTE_KINDS := WATCHED_ROUTE_KINDS + [DubboRoute]

  function RouteKinds(p: Protocol): seq<Kind> {
    match p
    case HTTP | HTTPS => [HTTPRoute, GRPCRoute]
    case TLSTerminate => [TCPRoute]
    case TLSPassthrough => [TLSRoute]
    case TCP => [TCPRoute]
    case UDP => [UDPRoute]
    case Dubbo => [DubboRoute]
    case TLSOtherMode | UnknownProtocol => []
  }

  /** The reference picks the listener of the gateway, as findRouteResources tests it. */
  predicate Attaches(ref: ParentRef, gateway: string, l: Listener) {
    && (ref.kind == None || ref.kind == Some(Gateway))
    && ref.name == gateway
    && ((ref.sectionName == l.name && l.name != "") || LooselyEqual(ref.port, l.port))
  }

  predicate AttachedTo(r: Resource, gateway: string, l: Listener) {
    exists ref :: ref in r.doc.parentRefs && Attaches(ref, gateway, l)
  }

  /** The lists of several kinds, one after the other. */
  function ListAll(log: Log, kinds: seq<Kind>): seq<Resource> {
    if kinds == [] then [] else ListAll(log, kinds[..|kinds| - 1]) + Survivors(log, kinds[|kinds| - 1])
  }

  function FindRouteResources(log: Log, gateway: string, l: Listener): seq<Resource> {
    Filter(ListAll(log, RouteKinds(l.protocol)), r => AttachedTo(r, gateway, l))
  }

  /** The policy targets a backend that the route names. */
  predicate Governs(policy: Resource, route: Resource) {
    exists ref :: ref in policy.doc.targetRefs && ref.kind == Backend && ref.name in route.doc.backendNames
  }

  function PoliciesFor(log: Log, routes: seq<Resource>): seq<Resource> {
    Filter(ListAll(log, [BackendLBPolicy, BackendTLSPolicy]), p => exists r :: r in routes && Governs(p, r))
  }

  /** The backend names of all routes, in the order of the rules. */
  function BackendNames(routes: seq<Resource>): seq<string> {
    if routes == [] then [] else BackendNames(routes[..|routes| - 1]) + routes[|routes| - 1].doc.backendNames
  }

  /** The backend references that find a resource when the router is compiled;
      the others become a fixed 500 response. */
  function ResolvedBackends(log: Log, routes: seq<Resource>): seq<string> {
    Filter(BackendNames(routes), name => Bound(log, Backend, name).Some?)
  }

  /** Everything a router is compiled from: its listener, its routes in order,
      the load-balancing and TLS policies that apply to their backends, and
      which of their backend references resolve. */
  datatype RouterView = RouterView(
    listener: Listener, routes: seq<Resource>, policies: seq<Resource>, resolved: seq<string>)

  function View(log: Log, gateway: string, l: Listener): RouterView {
    var routes := FindRouteResources(log, gateway, l);
    RouterView(l, routes, PoliciesFor(log, routes), ResolvedBackends(log, routes))
  }

  // ---------------------------------------------------------- control state

  /** A router's `update` closure with the variables it captured. */
  datatype Callback = RouteUpdate(router: nat, routerKey: RouterKey)

  datatype Router = Router(key: RouterKey, view: RouterView)

  datatype Control = Control(
    currentListeners: seq<ListenerKey>,
    dirtyGateways: seq<string>,
    dirtyRouters: seq<ParentRef>,
    /** How many routers were ever made; routers are named by number. */
    made: nat,
    routers: map<nat, Router>,
    /** The `Route` updaters. */
    armed: ListMap<RouterKey, Callback>,
    /** Which router serves each open port. */
    open: map<ListenerKey, nat>,
    /** What each router was compiled from when its pipeline was built. */
    captured: map<nat, RouterView>,
    /** The notices in `dirtyResources` that are about documents of kind `Route`;
        no updaters are registered for other kinds that get there. */
    documents: seq<Notice>)

  const INITIAL := Control([], [], [], 0, map[], map[], map[], map[], [])

  // ------------------------------------------------------- marking as dirty

  function AddDirtyGateway(c: Control, name: string): Control {
    if name in c.dirtyGateways then c
    else c.(
      dirtyGateways := c.dirtyGateways + [name],
      dirtyRouters := Filter(c.dirtyRouters, (d: ParentRef) => d.kind != Some(Gateway) || d.name != name))
  }

  function AddDirtyRouters(c: Control, refs: seq<ParentRef>): Control {
    if refs == [] then c
    else
      var c' := AddDirtyRouters(c, refs[..|refs| - 1]);
      var ref := refs[|refs| - 1];
      if ref in c'.dirtyRouters then c' else c'.(dirtyRouters := c'.dirtyRouters + [ref])
  }

  /** addDirtyRoutersByPolicy, over the given routes. */
  function AddDirtyRoutersByPolicy(c: Control, policy: Resource, routes: seq<Resource>): Control {
    if routes == [] then c
    else
      var c' := AddDirtyRoutersByPolicy(c, policy, routes[..|routes| - 1]);
      var r := routes[|routes| - 1];
      if Governs(policy, r) then AddDirtyRouters(c', r.doc.parentRefs) else c'
  }

  /** What onResourceChange marks on behalf of one resource, in the branch of
      its switch for a kind. */
  function MarkDependents(c: Control, log: Log, kind: Option<Kind>, r: Resource): Control {
    match kind
    case Some(Gateway) =>
      if r.doc.name != "" then AddDirtyGateway(c, r.doc.name) else c
    case Some(HTTPRoute) | Some(GRPCRoute) | Some(TCPRoute) | Some(TLSRoute) | Some(UDPRoute) =>
      AddDirtyRouters(c, r.doc.parentRefs)
    case Some(BackendLBPolicy) | Some(BackendTLSPolicy) =>
      AddDirtyRoutersByPolicy(c, r, ListAll(log, ALL_ROUTE_KINDS))
    case _ => c
  }

  /** onResourceChange. The log is the store's, with the change already made. */
  function Notified(c: Control, log: Log, n: Notice): Control {
    var res := if n.newResource.Some? then n.newResource else n.oldResource;
    if res.None? then c
    else if res.value.doc.kind == Some(ROUTE) then c.(documents := c.documents + [n])
    else
      var c' := MarkDependents(c, log, res.value.doc.kind, res.value);
      if n.oldResource.Some? && n.oldResource != res
      then MarkDependents(c', log, res.value.doc.kind, n.oldResource.value)
      else c'
  }

  function NotifiedAll(c: Control, log: Log, ns: seq<Notice>): Control {
    if ns == [] then c else Notified(NotifiedAll(c, log, ns[..|ns| - 1]), log, ns[|ns| - 1])
  }

  // --------------------------------------------------------------- rebuilding

  /** One armed `update(listener, routeResources)`: the router is recompiled and
      the callback registers itself again. */
  function RunCallbacks(c: Control, cbs: seq<Callback>, view: RouterView): Control {
    if cbs == [] then c
    else
      var c' := RunCallbacks(c, cbs[..|cbs| - 1], view);
      var cb := cbs[|cbs| - 1];
      c'.(routers := c'.routers[cb.router := Router(cb.routerKey, view)],
          armed := SetIn(c'.armed, cb.routerKey, Some(cb)))
  }

  /** What such a callback registers. */
  function Rearms(): Callback -> seq<Registration<RouterKey, Callback>> {
    (cb: Callback) => [SetUpdater("Route", cb.routerKey, Some(cb))]
  }

  /** So the armed callbacks develop as in any registry that runs these. */
  lemma {:induction false} RunCallbacksRegister(
      c: Control, cbs: seq<Callback>, view: RouterView, t: Table<RouterKey, Callback>)
    requires OfKind(t, "Route") == c.armed
    ensures OfKind(RegisteredAll(t, Made(cbs, Rearms())), "Route") == RunCallbacks(c, cbs, view).armed
  {
    if cbs != [] {
      var init, cb := cbs[..|cbs| - 1], cbs[|cbs| - 1];
      RunCallbacksRegister(c, init, view, t);
      RegisteredConcat(t, Made(init, Rearms()), [SetUpdater("Route", cb.routerKey, Some(cb))]);
      var r: Registration<RouterKey, Callback> := SetUpdater("Route", cb.routerKey, Some(cb));
      assert [r][..0] == [];
    }
  }

  /** `runUpdaters('Route', key, listener, routeResources)`. */
  function RunRouteUpdaters(c: Control, key: RouterKey, view: RouterView): Control {
    if key in c.armed then RunCallbacks(c.(armed := c.armed - {key}), c.armed[key], view) else c
  }

  function FindGateway(log: Log, name: string): Option<Resource> {
    First(Survivors(log, Gateway), (gw: Resource) => gw.doc.name == name)
  }

  /** The listener that a dirty entry stands for when it is flushed. */
  predicate Resolves(l: Listener, d: ParentRef) {
    (l.name == d.sectionName && d.sectionName != "") || l.port == d.port
  }

  function FindListener(gw: Resource, d: ParentRef): Option<Listener> {
    First(gw.doc.listeners, (l: Listener) => Resolves(l, d))
  }

  function RefreshRouter(c: Control, log: Log, d: ParentRef): Control {
    if d.kind != Some(Gateway) then c
    else
      var gw := FindGateway(log, d.name);
      if gw.None? then c
      else
        var l := FindListener(gw.value, d);
        if l.None? then c
        else RunRouteUpdaters(c, MakeRouterKey(gw.value.doc.name, l.value), View(log, gw.value.doc.name, l.value))
  }

  function RefreshRouters(c: Control, log: Log, ds: seq<ParentRef>): Control {
    if ds == [] then c else RefreshRouter(RefreshRouters(c, log, ds[..|ds| - 1]), log, ds[|ds| - 1])
  }

  /** makeListener, for a listener it accepts: a new router, armed in place of
      the previous one of the same key, and bound to the port. */
  function MakeListener(c: Control, log: Log, gateway: string, l: Listener): Control {
    var key := MakeRouterKey(gateway, l);
    c.(made := c.made + 1,
       routers := c.routers[c.made := Router(key, View(log, gateway, l))],
       armed := SetIn(c.armed, key, Some(RouteUpdate(c.made, key))),
       open := c.open[key.listener := c.made],
       captured := c.captured[c.made := View(log, gateway, l)])
  }

  function AddKey(keys: seq<ListenerKey>, key: ListenerKey): seq<ListenerKey> {
    if key in keys then keys else keys + [key]
  }

  /** startGateway over a prefix of the gateway's listeners. */
  function Started(c: Control, log: Log, gateway: string, ls: seq<Listener>): Control {
    if ls == [] then c
    else
      var c' := Started(c, log, gateway, ls[..|ls| - 1]);
      var l := ls[|ls| - 1];
      if Opens(l)
      then MakeListener(c', log, gateway, l).(currentListeners := AddKey(c'.currentListeners, MakeListenerKey(l)))
      else c'
  }

  function StartedAll(c: Control, log: Log, gws: seq<Resource>): Control {
    if gws == [] then c
    else
      var c' := StartedAll(c, log, gws[..|gws| - 1]);
      var gw := gws[|gws| - 1];
      if gw.doc.name != "" then Started(c', log, gw.doc.name, gw.doc.listeners) else c'
  }

  /** The sweep over all gateways, with the list `updatedListeners` it collects. */
  datatype Sweep = Sweep(c: Control, updated: seq<ListenerKey>)

  function SweptListeners(s: Sweep, log: Log, gateway: string, ls: seq<Listener>): Sweep {
    if ls == [] then s
    else
      var s' := SweptListeners(s, log, gateway, ls[..|ls| - 1]);
      var l := ls[|ls| - 1];
      if gateway !in s'.c.dirtyGateways then Sweep(s'.c, AddKey(s'.updated, MakeListenerKey(l)))
      else if Opens(l) then Sweep(MakeListener(s'.c, log, gateway, l), AddKey(s'.updated, MakeListenerKey(l)))
      else s'
  }

  function Swept(s: Sweep, log: Log, gws: seq<Resource>): Sweep {
    if gws == [] then s
    else
      var s' := Swept(s, log, gws[..|gws| - 1]);
      var gw := gws[|gws| - 1];
      if gw.doc.name != "" then SweptListeners(s', log, gw.doc.name, gw.doc.listeners) else s'
  }

  /** Close every current listener that the sweep did not meet. */
  function CloseStale(
      open: map<ListenerKey, nat>, current: seq<ListenerKey>, updated: seq<ListenerKey>): map<ListenerKey, nat> {
    map k | k in open && !(k in current && k !in updated) :: open[k]
  }

  function Reconciled(c: Control, log: Log): Control {
    if c.dirtyGateways == [] then c
    else
      var s := Swept(Sweep(c, []), log, Survivors(log, Gateway));
      s.c.(open := CloseStale(s.c.open, c.currentListeners, s.updated), currentListeners := s.updated)
  }

  predicate IsArmed(c: Control, id: nat)
    requires id in c.routers
  {
    c.routers[id].key in c.armed && RouteUpdate(id, c.routers[id].key) in c.armed[c.routers[id].key]
  }

  /** What a TCP or UDP router is compiled from when its updater gets a document in
      place of the listener and another in place of the list of routes: nothing
      that comes from a listener or a route. */
  const EMPTIED := RouterView(Listener("", "", NoPort, UnknownProtocol), [], [], [])

  /** `runUpdaters(kind, undefined, newResource, oldResource)` for the documents of
      kind `Route`: every armed router is recompiled and armed again. This is what
      it does if no updater throws, as those of TCP and UDP listeners do not when
      there is an old document. */
  function AfterDocuments(c: Control): Control {
    if c.documents == [] then c else c.(routers := EmptiedRouters(c), documents := [])
  }

  function EmptiedRouters(c: Control): map<nat, Router> {
    map id | id in c.routers :: if IsArmed(c, id) then c.routers[id].(view := EMPTIED) else c.routers[id]
  }

  /** updateDirtyResources. */
  function Flushed(c: Control, log: Log): Control {
    var c' := AfterDocuments(Reconciled(RefreshRouters(c, log, c.dirtyRouters), log));
    c'.(dirtyGateways := [], dirtyRouters := [])
  }

  // --------------------------------------------------------------------- runs

  datatype System = System(log: Log, c: Control)

  datatype Event = ChangeFile(e: Change) | Flush

  /** The process has loaded its files and opened its gateways. */
  function Boot(log: Log): System {
    System(log, StartedAll(INITIAL, log, Survivors(log, Gateway)))
  }

  function Step(s: System, event: Event): System {
    match event
    case ChangeFile(e) => System(s.log + [e], NotifiedAll(s.c, s.log + [e], NoticesOf(s.log, e)))
    case Flush => System(s.log, Flushed(s.c, s.log))
  }

  function Run(boot: Log, events: seq<Event>): System {
    if events == [] then Boot(boot) else Step(Run(boot, events[..|events| - 1]), events[|events| - 1])
  }
}
