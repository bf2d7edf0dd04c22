/** Incremental rebuild equals full rebuild: after any run of file changes and
    flushes that ends in a flush, every router of every gateway is what a full
    rebuild from the current store would make it. */
module Reconfiguration {
  import opened Sequences
  import opened Documents
  import opened Resources
  import opened Updaters
  import opened Gateways

  // ------------------------------------------------------- the armed updaters

  /** Every router key ever used has exactly one armed callback, its newest. */
  ghost predicate NewestArmed(c: Control) {
    && (forall id :: id in c.routers ==> id < c.made && c.routers[id].key in c.armed)
    && (forall key :: key in c.armed ==>
          && |c.armed[key]| == 1
          && c.armed[key][0].routerKey == key
          && c.armed[key][0].router in c.routers
          && c.routers[c.armed[key][0].router].key == key)
    && (forall id :: id in c.routers ==> id <= c.armed[c.routers[id].key][0].router)
  }

  /** The view of the router that is armed under a key. */
  function ArmedView(c: Control, key: RouterKey): Option<RouterView> {
    if key in c.armed && |c.armed[key]| == 1 && c.armed[key][0].router in c.routers
    then Some(c.routers[c.armed[key][0].router].view) else None
  }

  /** What that router was compiled from when its pipeline was built. */
  function CapturedView(c: Control, key: RouterKey): Option<RouterView> {
    if key in c.armed && |c.armed[key]| == 1 && c.armed[key][0].router in c.captured
    then Some(c.captured[c.armed[key][0].router]) else None
  }

  lemma RunOne(c: Control, key: RouterKey, view: RouterView)
    requires NewestArmed(c) && key in c.armed
    ensures var cb := c.armed[key][0];
      RunRouteUpdaters(c, key, view) == c.(routers := c.routers[cb.router := Router(key, view)])
  {
    var cbs := c.armed[key];
    assert cbs == [cbs[0]] && cbs[..0] == [];
    var c0 := c.(armed := c.armed - {key});
    assert RunCallbacks(c0, cbs[..0], view) == c0;
    assert (c.armed - {key})[key := cbs] == c.armed;
  }

  predicate OnlyViewsChanged(c: Control, c': Control) {
    c' == c.(routers := c'.routers)
  }

  lemma RunRouteUpdatersEffect(c: Control, key: RouterKey, view: RouterView)
    requires NewestArmed(c)
    ensures var c' := RunRouteUpdaters(c, key, view);
      && NewestArmed(c') && OnlyViewsChanged(c, c')
      && (forall k :: ArmedView(c', k) == if k == key && key in c.armed then Some(view) else ArmedView(c, k))
  {
    if key in c.armed { RunOne(c, key, view); }
  }

  /** A new router takes over its key. */
  lemma InstallEffect(c: Control, c': Control, key: RouterKey, view: RouterView)
    requires NewestArmed(c)
    requires c'.made == c.made + 1 && c'.routers == c.routers[c.made := Router(key, view)]
    requires c'.armed == c.armed[key := [RouteUpdate(c.made, key)]]
    ensures NewestArmed(c')
    ensures forall k :: ArmedView(c', k) == if k == key then Some(view) else ArmedView(c, k)
  {
    forall k | k in c'.armed && k != key
      ensures c'.armed[k] == c.armed[k] && c.armed[k][0].router < c.made
    {
    }
    forall id | id in c'.routers
      ensures id < c'.made && c'.routers[id].key in c'.armed
      ensures id <= c'.armed[c'.routers[id].key][0].router
    {
    }
  }

  lemma InstallCaptures(c: Control, c': Control, key: RouterKey, view: RouterView)
    requires NewestArmed(c)
    requires c'.armed == c.armed[key := [RouteUpdate(c.made, key)]] && c'.captured == c.captured[c.made := view]
    ensures forall k :: CapturedView(c', k) == if k == key then Some(view) else CapturedView(c, k)
  {
    forall k | k != key
      ensures CapturedView(c', k) == CapturedView(c, k)
    {
      if k in c.armed { assert c.armed[k][0].router < c.made; }
    }
  }

  lemma MakeListenerEffect(c: Control, log: Log, gateway: string, l: Listener)
    requires NewestArmed(c)
    ensures var c' := MakeListener(c, log, gateway, l);
      && NewestArmed(c')
      && (forall k :: ArmedView(c', k) ==
            if k == MakeRouterKey(gateway, l) then Some(View(log, gateway, l)) else ArmedView(c, k))
      && (forall k :: CapturedView(c', k) ==
            if k == MakeRouterKey(gateway, l) then Some(View(log, gateway, l)) else CapturedView(c, k))
  {
    InstallEffect(c, MakeListener(c, log, gateway, l), MakeRouterKey(gateway, l), View(log, gateway, l));
    InstallCaptures(c, MakeListener(c, log, gateway, l), MakeRouterKey(gateway, l), View(log, gateway, l));
  }

  // -------------------------------------------------- what one flush rebuilds

  /** A listener that a named gateway in the store declares and makeListener accepts. */
  predicate Served(log: Log, gw: Resource, l: Listener) {
    gw in Survivors(log, Gateway) && gw.doc.name != "" && l in gw.doc.listeners && Opens(l)
  }

  function KeyOf(gw: Resource, l: Listener): RouterKey {
    MakeRouterKey(gw.doc.name, l)
  }

  /** Gateway names are unique and no gateway declares one key twice. */
  ghost predicate GatewaysDistinct(log: Log) {
    && (forall a, b ::
          a in Survivors(log, Gateway) && b in Survivors(log, Gateway) && a.doc.name == b.doc.name != "" ==> a == b)
    && (forall gw, i, j :: gw in Survivors(log, Gateway) && 0 <= i < j < |gw.doc.listeners| ==>
          MakeListenerKey(gw.doc.listeners[i]) != MakeListenerKey(gw.doc.listeners[j]))
  }

  /** The dirty entry stands for this listener of this gateway. */
  predicate Marks(d: ParentRef, gw: Resource, l: Listener) {
    d.kind == Some(Gateway) && d.name == gw.doc.name && FindListener(gw, d) == Some(l)
  }

  ghost predicate Covered(ds: seq<ParentRef>, gw: Resource, l: Listener) {
    exists d :: d in ds && Marks(d, gw, l)
  }

  lemma KeysDistinct(log: Log, gw: Resource, l: Listener, gw': Resource, l': Listener)
    requires GatewaysDistinct(log) && Served(log, gw, l)
    requires gw' in Survivors(log, Gateway) && l' in gw'.doc.listeners && KeyOf(gw', l') == KeyOf(gw, l)
    ensures gw' == gw && l' == l
  {
    var i :| 0 <= i < |gw.doc.listeners| && gw.doc.listeners[i] == l;
    var j :| 0 <= j < |gw.doc.listeners| && gw.doc.listeners[j] == l';
  }

  /** Exactly the routers that some dirty entry stands for are recompiled. */
  lemma {:induction false} RefreshExact(c: Control, log: Log, ds: seq<ParentRef>, gw: Resource, l: Listener)
    requires NewestArmed(c) && GatewaysDistinct(log) && Served(log, gw, l)
    ensures var c' := RefreshRouters(c, log, ds);
      && NewestArmed(c') && OnlyViewsChanged(c, c')
      && ArmedView(c', KeyOf(gw, l)) ==
           if Covered(ds, gw, l) && KeyOf(gw, l) in c.armed then Some(View(log, gw.doc.name, l))
           else ArmedView(c, KeyOf(gw, l))
  {
    if ds != [] {
      var init, d := ds[..|ds| - 1], ds[|ds| - 1];
      var c1 := RefreshRouters(c, log, init);
      RefreshExact(c, log, init, gw, l);
      assert forall x :: x in ds <==> x in init || x == d;
      assert Covered(ds, gw, l) <==> Covered(init, gw, l) || Marks(d, gw, l);
      RefreshOneExact(c1, log, d, gw, l);
    }
  }

  lemma RefreshOneExact(c: Control, log: Log, d: ParentRef, gw: Resource, l: Listener)
    requires NewestArmed(c) && GatewaysDistinct(log) && Served(log, gw, l)
    ensures var c' := RefreshRouter(c, log, d);
      && NewestArmed(c') && OnlyViewsChanged(c, c')
      && ArmedView(c', KeyOf(gw, l)) ==
           if Marks(d, gw, l) && KeyOf(gw, l) in c.armed then Some(View(log, gw.doc.name, l))
           else ArmedView(c, KeyOf(gw, l))
  {
    var found := FindGateway(log, d.name);
    if d.kind == Some(Gateway) && found.Some? {
      var target := FindListener(found.value, d);
      if target.Some? {
        var gw', l' := found.value, target.value;
        RunRouteUpdatersEffect(c, KeyOf(gw', l'), View(log, gw'.doc.name, l'));
        if KeyOf(gw', l') == KeyOf(gw, l) { KeysDistinct(log, gw, l, gw', l'); }
        if Marks(d, gw, l) { assert gw' == gw; }
      }
    }
  }

  lemma {:induction false} SweptListenersExact(
      s: Sweep, log: Log, gw': Resource, ls: seq<Listener>, gw: Resource, l: Listener)
    requires NewestArmed(s.c) && GatewaysDistinct(log) && Served(log, gw, l)
    requires gw' in Survivors(log, Gateway) && forall x :: x in ls ==> x in gw'.doc.listeners
    ensures var s' := SweptListeners(s, log, gw'.doc.name, ls);
      && NewestArmed(s'.c) && s'.c.dirtyGateways == s.c.dirtyGateways && s'.c.documents == s.c.documents
      && (forall k :: k in s.c.armed ==> k in s'.c.armed)
      && ArmedView(s'.c, KeyOf(gw, l)) == (
           if gw' == gw && l in ls && gw.doc.name in s.c.dirtyGateways then Some(View(log, gw.doc.name, l))
           else ArmedView(s.c, KeyOf(gw, l)))
      && CapturedView(s'.c, KeyOf(gw, l)) == (
           if gw' == gw && l in ls && gw.doc.name in s.c.dirtyGateways then Some(View(log, gw.doc.name, l))
           else CapturedView(s.c, KeyOf(gw, l)))
  {
    if ls != [] {
      var init, l' := ls[..|ls| - 1], ls[|ls| - 1];
      SweptListenersExact(s, log, gw', init, gw, l);
      var s1 := SweptListeners(s, log, gw'.doc.name, init);
      assert forall x :: x in ls <==> x in init || x == l';
      if gw'.doc.name in s1.c.dirtyGateways && Opens(l') {
        MakeListenerEffect(s1.c, log, gw'.doc.name, l');
        if KeyOf(gw', l') == KeyOf(gw, l) { KeysDistinct(log, gw, l, gw', l'); }
      }
    }
  }

  /** Exactly the listeners of dirty gateways are made anew. */
  lemma {:induction false} SweptExact(s: Sweep, log: Log, gws: seq<Resource>, gw: Resource, l: Listener)
    requires NewestArmed(s.c) && GatewaysDistinct(log) && Served(log, gw, l)
    requires forall g :: g in gws ==> g in Survivors(log, Gateway)
    ensures var s' := Swept(s, log, gws);
      && NewestArmed(s'.c) && s'.c.dirtyGateways == s.c.dirtyGateways && s'.c.documents == s.c.documents
      && (forall k :: k in s.c.armed ==> k in s'.c.armed)
      && ArmedView(s'.c, KeyOf(gw, l)) == (
           if gw in gws && gw.doc.name in s.c.dirtyGateways then Some(View(log, gw.doc.name, l))
           else ArmedView(s.c, KeyOf(gw, l)))
      && CapturedView(s'.c, KeyOf(gw, l)) == (
           if gw in gws && gw.doc.name in s.c.dirtyGateways then Some(View(log, gw.doc.name, l))
           else CapturedView(s.c, KeyOf(gw, l)))
  {
    if gws != [] {
      var init, gw' := gws[..|gws| - 1], gws[|gws| - 1];
      SweptExact(s, log, init, gw, l);
      assert forall x :: x in gws <==> x in init || x == gw';
      if gw'.doc.name != "" {
        SweptListenersExact(Swept(s, log, init), log, gw', gw'.doc.listeners, gw, l);
      }
    }
  }

  lemma EmptyingKeepsArmed(c: Control)
    requires NewestArmed(c)
    ensures NewestArmed(c.(routers := EmptiedRouters(c)))
  {
    assert forall id :: id in c.routers ==> EmptiedRouters(c)[id].key == c.routers[id].key;
  }

  lemma EmptyingEmpties(c: Control, key: RouterKey)
    requires NewestArmed(c)
    ensures ArmedView(c.(routers := EmptiedRouters(c)), key) == if key in c.armed then Some(EMPTIED) else None
  {
    if key in c.armed { assert IsArmed(c, c.armed[key][0].router); }
  }

  /** Documents of kind `Route` empty every armed router, and change nothing else. */
  lemma DocumentsEmptyArmed(c: Control)
    requires NewestArmed(c)
    ensures var c' := AfterDocuments(c);
      && NewestArmed(c') && c'.documents == [] && OnlyViewsChanged(c, c'.(documents := c.documents))
      && (forall k :: CapturedView(c', k) == CapturedView(c, k))
      && (forall k :: ArmedView(c', k) == if c.documents != [] && k in c.armed then Some(EMPTIED) else ArmedView(c, k))
  {
    if c.documents != [] {
      EmptyingKeepsArmed(c);
      forall k
        ensures ArmedView(AfterDocuments(c), k) == if k in c.armed then Some(EMPTIED) else ArmedView(c, k)
      {
        EmptyingEmpties(c, k);
      }
    }
  }

  /** The sweep makes exactly the routers of dirty gateways anew. */
  lemma ReconciledExact(c: Control, log: Log, gw: Resource, l: Listener)
    requires NewestArmed(c) && GatewaysDistinct(log) && Served(log, gw, l)
    ensures var c', dirty, view := Reconciled(c, log), gw.doc.name in c.dirtyGateways, View(log, gw.doc.name, l);
      && NewestArmed(c') && c'.documents == c.documents
      && ArmedView(c', KeyOf(gw, l)) == (if dirty then Some(view) else ArmedView(c, KeyOf(gw, l)))
      && CapturedView(c', KeyOf(gw, l)) == (if dirty then Some(view) else CapturedView(c, KeyOf(gw, l)))
  {
    if c.dirtyGateways != [] {
      SweptExact(Sweep(c, []), log, Survivors(log, Gateway), gw, l);
    }
  }

  lemma ArmedHasView(c: Control, key: RouterKey)
    requires NewestArmed(c)
    ensures key in c.armed <==> ArmedView(c, key).Some?
  {
  }

  /** What a flush does to one served router: rebuilt if its gateway is dirty or
      a dirty entry stands for it, untouched otherwise; and then emptied if some
      document of kind `Route` changed. */
  lemma FlushExact(c: Control, log: Log, gw: Resource, l: Listener)
    requires NewestArmed(c) && GatewaysDistinct(log) && Served(log, gw, l)
    ensures var c', key, view := Flushed(c, log), KeyOf(gw, l), View(log, gw.doc.name, l);
      var dirty := gw.doc.name in c.dirtyGateways;
      && NewestArmed(c') && c'.documents == []
      && ArmedView(c', key) == (
           if c.documents != [] && (dirty || key in c.armed) then Some(EMPTIED)
           else if dirty || (Covered(c.dirtyRouters, gw, l) && key in c.armed) then Some(view)
           else ArmedView(c, key))
      && CapturedView(c', key) == if dirty then Some(view) else CapturedView(c, key)
  {
    var c1, key := RefreshRouters(c, log, c.dirtyRouters), KeyOf(gw, l);
    var c2 := Reconciled(c1, log);
    RefreshExact(c, log, c.dirtyRouters, gw, l);
    ReconciledExact(c1, log, gw, l);
    DocumentsEmptyArmed(c2);
    ArmedHasView(c, key);
    ArmedHasView(c2, key);
    ClearingKeepsViews(AfterDocuments(c2), key);
  }

  lemma ClearingKeepsViews(c: Control, key: RouterKey)
    requires NewestArmed(c)
    ensures var c' := c.(dirtyGateways := [], dirtyRouters := []);
      NewestArmed(c') && ArmedView(c', key) == ArmedView(c, key) && CapturedView(c', key) == CapturedView(c, key)
  {
  }

  lemma {:induction false} RefreshKeepsArmed(c: Control, log: Log, ds: seq<ParentRef>)
    requires NewestArmed(c)
    ensures NewestArmed(RefreshRouters(c, log, ds))
  {
    if ds != [] {
      var c1, d := RefreshRouters(c, log, ds[..|ds| - 1]), ds[|ds| - 1];
      RefreshKeepsArmed(c, log, ds[..|ds| - 1]);
      var gw := FindGateway(log, d.name);
      if gw.Some? {
        var l := FindListener(gw.value, d);
        if l.Some? { RunRouteUpdatersEffect(c1, KeyOf(gw.value, l.value), View(log, gw.value.doc.name, l.value)); }
      }
    }
  }

  lemma {:induction false} SweptListenersKeepsArmed(s: Sweep, log: Log, gateway: string, ls: seq<Listener>)
    requires NewestArmed(s.c)
    ensures NewestArmed(SweptListeners(s, log, gateway, ls).c)
  {
    if ls != [] {
      SweptListenersKeepsArmed(s, log, gateway, ls[..|ls| - 1]);
      MakeListenerEffect(SweptListeners(s, log, gateway, ls[..|ls| - 1]).c, log, gateway, ls[|ls| - 1]);
    }
  }

  lemma {:induction false} SweptKeepsArmed(s: Sweep, log: Log, gws: seq<Resource>)
    requires NewestArmed(s.c)
    ensures NewestArmed(Swept(s, log, gws).c)
  {
    if gws != [] {
      SweptKeepsArmed(s, log, gws[..|gws| - 1]);
      var gw := gws[|gws| - 1];
      SweptListenersKeepsArmed(Swept(s, log, gws[..|gws| - 1]), log, gw.doc.name, gw.doc.listeners);
    }
  }

  /** Callbacks that register again while they run stay armed, once each, under
      the key of their router. */
  lemma FlushKeepsArmed(c: Control, log: Log)
    requires NewestArmed(c)
    ensures NewestArmed(Flushed(c, log))
  {
    RefreshKeepsArmed(c, log, c.dirtyRouters);
    var c1 := RefreshRouters(c, log, c.dirtyRouters);
    ReconciledKeepsArmed(c1, log);
    DocumentsEmptyArmed(Reconciled(c1, log));
  }

  lemma ReconciledKeepsArmed(c: Control, log: Log)
    requires NewestArmed(c)
    ensures NewestArmed(Reconciled(c, log))
  {
    SweptKeepsArmed(Sweep(c, []), log, Survivors(log, Gateway));
  }

  // --------------------------------------------------- what one change marks

  /** The entry is in the list, or its gateway will be rebuilt anyway. */
  predicate Marked(c: Control, d: ParentRef) {
    d in c.dirtyRouters || (d.kind == Some(Gateway) && d.name in c.dirtyGateways)
  }

  /** Only marks changed between the two states, and none was lost. */
  ghost predicate MarksGrew(c: Control, c': Control) {
    && c' == c.(dirtyGateways := c'.dirtyGateways, dirtyRouters := c'.dirtyRouters, documents := c'.documents)
    && (forall name :: name in c.dirtyGateways ==> name in c'.dirtyGateways)
    && (forall d :: Marked(c, d) ==> Marked(c', d))
  }

  lemma AddDirtyGatewayMarks(c: Control, name: string)
    ensures MarksGrew(c, AddDirtyGateway(c, name)) && name in AddDirtyGateway(c, name).dirtyGateways
    ensures AddDirtyGateway(c, name).documents == c.documents
  {
    forall d | Marked(c, d)
      ensures Marked(AddDirtyGateway(c, name), d)
    {
      FilterMember(c.dirtyRouters, (d: ParentRef) => d.kind != Some(Gateway) || d.name != name, d);
    }
  }

  lemma {:induction false} AddDirtyRoutersMarks(c: Control, refs: seq<ParentRef>)
    ensures MarksGrew(c, AddDirtyRouters(c, refs)) && AddDirtyRouters(c, refs).documents == c.documents
    ensures forall d :: d in refs ==> Marked(AddDirtyRouters(c, refs), d)
  {
    if refs != [] {
      AddDirtyRoutersMarks(c, refs[..|refs| - 1]);
      assert forall d :: d in refs <==> d in refs[..|refs| - 1] || d == refs[|refs| - 1];
    }
  }

  /** All references of the route are marked. */
  ghost predicate RouteMarked(c: Control, route: Resource) {
    forall d :: d in route.doc.parentRefs ==> Marked(c, d)
  }

  /** All routes that the policy governs are marked. */
  ghost predicate GovernedMarked(c: Control, policy: Resource, routes: seq<Resource>) {
    forall r :: r in routes && Governs(policy, r) ==> RouteMarked(c, r)
  }

  lemma MarksGrewKeepsGoverned(c: Control, c': Control, policy: Resource, routes: seq<Resource>)
    requires MarksGrew(c, c') && GovernedMarked(c, policy, routes)
    ensures GovernedMarked(c', policy, routes)
  {
    forall r | r in routes && Governs(policy, r)
      ensures RouteMarked(c', r)
    {
      assert RouteMarked(c, r);
    }
  }

  lemma {:induction false} AddDirtyRoutersByPolicyMarks(c: Control, policy: Resource, routes: seq<Resource>)
    ensures MarksGrew(c, AddDirtyRoutersByPolicy(c, policy, routes))
    ensures AddDirtyRoutersByPolicy(c, policy, routes).documents == c.documents
    ensures GovernedMarked(AddDirtyRoutersByPolicy(c, policy, routes), policy, routes)
  {
    if routes != [] {
      var init, r := routes[..|routes| - 1], routes[|routes| - 1];
      var c1 := AddDirtyRoutersByPolicy(c, policy, init);
      AddDirtyRoutersByPolicyMarks(c, policy, init);
      assert forall x :: x in routes <==> x in init || x == r;
      if Governs(policy, r) {
        AddDirtyRoutersMarks(c1, r.doc.parentRefs);
        MarksGrewKeepsGoverned(c1, AddDirtyRouters(c1, r.doc.parentRefs), policy, init);
      }
    }
  }

  predicate IsPolicy(r: Resource) {
    r.doc.kind == Some(BackendLBPolicy) || r.doc.kind == Some(BackendTLSPolicy)
  }

  predicate IsWatchedRoute(r: Resource) {
    r.doc.kind.Some? && r.doc.kind.value in WATCHED_ROUTE_KINDS
  }

  /** Everything that depends on this resource is marked. */
  ghost predicate DependentsMarked(c: Control, log: Log, r: Resource) {
    && (r.doc.kind == Some(Gateway) && r.doc.name != "" ==> r.doc.name in c.dirtyGateways)
    && (IsWatchedRoute(r) ==> RouteMarked(c, r))
    && (IsPolicy(r) ==> GovernedMarked(c, r, ListAll(log, ALL_ROUTE_KINDS)))
  }

  lemma MarkGatewayMarks(c: Control, log: Log, r: Resource)
    requires r.doc.kind == Some(Gateway)
    ensures var c' := MarkDependents(c, log, r.doc.kind, r);
      MarksGrew(c, c') && DependentsMarked(c', log, r) && c'.documents == c.documents
  {
    AddDirtyGatewayMarks(c, r.doc.name);
  }

  lemma MarkRouteMarks(c: Control, log: Log, r: Resource)
    requires IsWatchedRoute(r)
    ensures var c' := MarkDependents(c, log, r.doc.kind, r);
      MarksGrew(c, c') && DependentsMarked(c', log, r) && c'.documents == c.documents
  {
    AddDirtyRoutersMarks(c, r.doc.parentRefs);
  }

  lemma MarkPolicyMarks(c: Control, log: Log, r: Resource)
    requires IsPolicy(r)
    ensures var c' := MarkDependents(c, log, r.doc.kind, r);
      MarksGrew(c, c') && DependentsMarked(c', log, r) && c'.documents == c.documents
  {
    AddDirtyRoutersByPolicyMarks(c, r, ListAll(log, ALL_ROUTE_KINDS));
  }

  lemma MarkDependentsMarks(c: Control, log: Log, r: Resource)
    ensures var c' := MarkDependents(c, log, r.doc.kind, r);
      MarksGrew(c, c') && DependentsMarked(c', log, r) && c'.documents == c.documents
  {
    if r.doc.kind == Some(Gateway) { MarkGatewayMarks(c, log, r); }
    else if IsWatchedRoute(r) { MarkRouteMarks(c, log, r); }
    else if IsPolicy(r) { MarkPolicyMarks(c, log, r); }
  }

  lemma MarksGrewKeepsDependents(c: Control, c': Control, log: Log, r: Resource)
    requires MarksGrew(c, c') && DependentsMarked(c, log, r)
    ensures DependentsMarked(c', log, r)
  {
    if IsPolicy(r) { MarksGrewKeepsGoverned(c, c', r, ListAll(log, ALL_ROUTE_KINDS)); }
  }

  predicate Carries(n: Notice, r: Resource) {
    n.newResource == Some(r) || n.oldResource == Some(r)
  }

  /** A notification about one kind marks all dependents of the resources it carries. */
  lemma NotifiedMarks(c: Control, log: Log, n: Notice)
    requires n.newResource.Some? && n.oldResource.Some? ==> KindOf(n.newResource) == KindOf(n.oldResource)
    ensures MarksGrew(c, Notified(c, log, n))
    ensures !(exists r :: Carries(n, r) && r.doc.kind == Some(ROUTE)) ==> Notified(c, log, n).documents == c.documents
    ensures forall r :: Carries(n, r) ==> DependentsMarked(Notified(c, log, n), log, r)
  {
    var res := if n.newResource.Some? then n.newResource else n.oldResource;
    if res.Some? { assert Carries(n, res.value); }
    if res.Some? && res.value.doc.kind != Some(ROUTE) {
      var c1 := MarkDependents(c, log, res.value.doc.kind, res.value);
      MarkDependentsMarks(c, log, res.value);
      if n.oldResource.Some? && n.oldResource != res {
        MarkDependentsMarks(c1, log, n.oldResource.value);
        MarksGrewKeepsDependents(c1, Notified(c, log, n), log, res.value);
      }
    }
  }

  /** The resource is the one that the change replaces or the one that it loads. */
  predicate Touched(log: Log, e: Change, r: Resource) {
    FileAt(log, e.path) == Some(r) || Loaded(log + [e]) == Some(r)
  }

  /** Some notification of the change carries the resource. */
  ghost predicate Noticed(log: Log, e: Change, r: Resource) {
    exists n :: n in NoticesOf(log, e) && Carries(n, r)
  }

  /** A change loses no mark and marks every dependent of the resources its
      notifications carry. */
  lemma ChangeMarks(s: System, e: Change)
    ensures var s' := Step(s, ChangeFile(e));
      MarksGrew(s.c, s'.c) && forall r :: Noticed(s.log, e, r) ==> DependentsMarked(s'.c, s'.log, r)
  {
    var log' := s.log + [e];
    var ns := NoticesOf(s.log, e);
    if |ns| == 1 {
      assert NotifiedAll(s.c, log', ns[..0]) == s.c;
      NotifiedMarks(s.c, log', ns[0]);
    } else if |ns| == 2 {
      assert ns[..1] == [ns[0]];
      assert NotifiedAll(s.c, log', ns[..1][..0]) == s.c;
      var c1 := Notified(s.c, log', ns[0]);
      NotifiedMarks(s.c, log', ns[0]);
      NotifiedMarks(c1, log', ns[1]);
      assert NotifiedAll(s.c, log', ns) == Notified(c1, log', ns[1]);
      forall r | Carries(ns[0], r)
        ensures DependentsMarked(Notified(c1, log', ns[1]), log', r)
      {
        MarksGrewKeepsDependents(c1, Notified(c1, log', ns[1]), log', r);
      }
    }
  }

  /** Documents of kind `Route` are only noted down when one changes. */
  lemma ChangeAddsNoDocument(s: System, e: Change)
    requires RouteKindFree(s.log + [e])
    ensures Step(s, ChangeFile(e)).c.documents == s.c.documents
  {
    var log', ns, old' := s.log + [e], NoticesOf(s.log, e), FileAt(s.log, e.path);
    if old'.Some? { FileAtIsLive(s.log, e.path, old'.value); assert NotOfKindRoute(log'[old'.value.id]); }
    assert NotOfKindRoute(log'[|s.log|]);
    assert forall i :: 0 <= i < |ns| ==> !(exists r :: Carries(ns[i], r) && r.doc.kind == Some(ROUTE));
    if |ns| == 1 {
      assert NotifiedAll(s.c, log', ns[..0]) == s.c;
      NotifiedMarks(s.c, log', ns[0]);
    } else if |ns| == 2 {
      assert ns[..1] == [ns[0]] && NotifiedAll(s.c, log', ns[..1][..0]) == s.c;
      NotifiedMarks(s.c, log', ns[0]);
      NotifiedMarks(Notified(s.c, log', ns[0]), log', ns[1]);
      assert NotifiedAll(s.c, log', ns) == Notified(Notified(s.c, log', ns[0]), log', ns[1]);
    }
  }

  /** Files that parse to kinded resources or to nothing go unnoticed by nobody. */
  lemma KindedIsNoticed(log: Log, e: Change, r: Resource)
    requires AllKinded(log) && Kinded(e) && Touched(log, e, r)
    ensures Noticed(log, e, r)
  {
    var ns, old', cur := NoticesOf(log, e), FileAt(log, e.path), Loaded(log + [e]);
    if old'.Some? { FileAtIsLive(log, e.path, old'.value); assert Kinded(log[old'.value.id]); }
    if old' == Some(r) { assert Carries(ns[0], r); } else { assert Carries(ns[|ns| - 1], r); }
  }

  // --------------------------------------------- what one change does to views

  lemma FilteredListUnchanged(log: Log, e: Change, kind: Kind, p: Resource -> bool)
    requires forall r :: Touched(log, e, r) && r.doc.kind == Some(kind) ==> !p(r)
    ensures Filter(Survivors(log + [e], kind), p) == Filter(Survivors(log, kind), p)
  {
    var old', cur := FileAt(log, e.path), Loaded(log + [e]);
    SurvivorsStep(log, e, kind);
    var kept := if HasKind(old', kind) then Without(Survivors(log, kind), old'.value) else Survivors(log, kind);
    if HasKind(old', kind) {
      assert Touched(log, e, old'.value);
      FilterWithout(Survivors(log, kind), old'.value, p);
    }
    if HasKind(cur, kind) {
      assert Touched(log, e, cur.value);
      assert (kept + [cur.value])[..|kept|] == kept;
    } else {
      assert kept + [] == kept;
    }
  }

  /** A filtered list of kinds is unchanged when the filter drops whatever the
      change touches among those kinds. */
  lemma {:induction false} FilteredListsUnchanged(log: Log, e: Change, kinds: seq<Kind>, p: Resource -> bool)
    requires forall r :: Touched(log, e, r) && r.doc.kind.Some? && r.doc.kind.value in kinds ==> !p(r)
    ensures Filter(ListAll(log + [e], kinds), p) == Filter(ListAll(log, kinds), p)
  {
    if kinds != [] {
      var init, kind := kinds[..|kinds| - 1], kinds[|kinds| - 1];
      assert forall k :: k in kinds <==> k in init || k == kind;
      FilteredListsUnchanged(log, e, init, p);
      FilteredListUnchanged(log, e, kind, p);
      FilterConcat(ListAll(log, init), Survivors(log, kind), p);
      FilterConcat(ListAll(log + [e], init), Survivors(log + [e], kind), p);
    }
  }

  /** The change can alter the router's routes: it touches a route of the
      listener's kinds that refers to the listener. */
  ghost predicate RoutesAffected(log: Log, e: Change, gateway: string, l: Listener) {
    exists r :: Touched(log, e, r) && r.doc.kind.Some? && r.doc.kind.value in RouteKinds(l.protocol) &&
      AttachedTo(r, gateway, l)
  }

  /** The change can alter the router's policies: it touches a policy that
      governs one of the router's routes. */
  ghost predicate PoliciesAffected(log: Log, e: Change, gateway: string, l: Listener) {
    exists p, r :: Touched(log, e, p) && IsPolicy(p) && r in FindRouteResources(log + [e], gateway, l) && Governs(p, r)
  }

  /** The change makes a backend that the router refers to appear or disappear. */
  ghost predicate BackendsAffected(log: Log, e: Change, gateway: string, l: Listener) {
    exists name :: name in BackendNames(FindRouteResources(log + [e], gateway, l)) &&
      Bound(log + [e], Backend, name).Some? != Bound(log, Backend, name).Some?
  }

  lemma RoutesUnchanged(log: Log, e: Change, gateway: string, l: Listener)
    requires !RoutesAffected(log, e, gateway, l) && !PoliciesAffected(log, e, gateway, l)
    ensures FindRouteResources(log + [e], gateway, l) == FindRouteResources(log, gateway, l)
    ensures var routes := FindRouteResources(log, gateway, l);
      PoliciesFor(log + [e], routes) == PoliciesFor(log, routes)
  {
    FilteredListsUnchanged(log, e, RouteKinds(l.protocol), r => AttachedTo(r, gateway, l));
    var routes := FindRouteResources(log + [e], gateway, l);
    FilteredListsUnchanged(log, e, [BackendLBPolicy, BackendTLSPolicy], p => exists r :: r in routes && Governs(p, r));
  }

  lemma ViewUnchanged(log: Log, e: Change, gateway: string, l: Listener)
    requires !RoutesAffected(log, e, gateway, l) && !PoliciesAffected(log, e, gateway, l)
    requires !BackendsAffected(log, e, gateway, l)
    ensures View(log + [e], gateway, l) == View(log, gateway, l)
  {
    RoutesUnchanged(log, e, gateway, l);
    FilterSame(
      BackendNames(FindRouteResources(log + [e], gateway, l)),
      name => Bound(log + [e], Backend, name).Some?, name => Bound(log, Backend, name).Some?);
  }

  // ------------------------------------------------------------ the invariant

  predicate Watched(log: Log, gw: Resource, l: Listener) {
    Served(log, gw, l) && l.protocol != Dubbo
  }

  predicate Fresh(s: System, gw: Resource, l: Listener) {
    ArmedView(s.c, KeyOf(gw, l)) == Some(View(s.log, gw.doc.name, l))
  }

  /** Every watched router of every gateway is what a full rebuild would make it. */
  ghost predicate AllFresh(s: System) {
    forall gw, l :: Watched(s.log, gw, l) ==> Fresh(s, gw, l)
  }

  /** The router has the listener, the routes in order and the policies of a full
      rebuild, whatever its backend references resolved to when it was compiled. */
  predicate RoutesFresh(s: System, gw: Resource, l: Listener) {
    var view, routes := ArmedView(s.c, KeyOf(gw, l)), FindRouteResources(s.log, gw.doc.name, l);
    view.Some? && view.value.listener == l && view.value.routes == routes &&
      view.value.policies == PoliciesFor(s.log, routes)
  }

  ghost predicate AllRoutesFresh(s: System) {
    forall gw, l :: Watched(s.log, gw, l) ==> RoutesFresh(s, gw, l)
  }

  /** The references that resolved when the router was last compiled are those
      that resolve now. */
  predicate ResolvesAsCompiled(s: System, gw: Resource, l: Listener) {
    var view := ArmedView(s.c, KeyOf(gw, l));
    view.Some? && view.value.resolved == ResolvedBackends(s.log, FindRouteResources(s.log, gw.doc.name, l))
  }

  /** The next flush leaves the router alone. */
  ghost predicate LeftAlone(s: System, gw: Resource, l: Listener) {
    Watched(s.log, gw, l) && gw.doc.name !in s.c.dirtyGateways && !Covered(s.c.dirtyRouters, gw, l)
  }

  /** Every router is armed, and fresh in its routes unless the next flush
      rebuilds it. */
  ghost predicate Invariant(s: System) {
    && AllKinded(s.log) && RouteKindFree(s.log) && NewestArmed(s.c) && s.c.documents == []
    && (forall gw, l :: Watched(s.log, gw, l) && gw.doc.name !in s.c.dirtyGateways ==> KeyOf(gw, l) in s.c.armed)
    && (forall gw, l :: LeftAlone(s, gw, l) ==> RoutesFresh(s, gw, l))
  }

  /** The routers that the next flush leaves alone resolve as they did. */
  ghost predicate ResolutionKept(s: System) {
    forall gw, l :: LeftAlone(s, gw, l) ==> ResolvesAsCompiled(s, gw, l)
  }

  /** Every route reference that attaches to a listener of a clean gateway says
      kind Gateway and stands for that very listener when it is flushed. */
  ghost predicate Targeted(s: System) {
    forall gw, l, r, ref ::
      Watched(s.log, gw, l) && gw.doc.name !in s.c.dirtyGateways &&
      r in ListAll(s.log, RouteKinds(l.protocol)) && ref in r.doc.parentRefs && Attaches(ref, gw.doc.name, l) ==>
        Marks(ref, gw, l)
  }

  /** The assumptions on a step: files parse to kinded resources or to nothing, none
      of kind `Route`, references are targeted, and at a flush gateway names and
      keys are distinct. */
  ghost predicate Allowed(s: System, event: Event) {
    match event
    case ChangeFile(e) => Kinded(e) && NotOfKindRoute(e) && Targeted(s) && Targeted(Step(s, event))
    case Flush => GatewaysDistinct(s.log)
  }

  /** No backend that a router refers to appears or disappears, unless the router
      is going to be rebuilt anyway. */
  ghost predicate BackendsSteady(s: System, event: Event) {
    match event
    case ChangeFile(e) =>
      forall gw, l :: LeftAlone(Step(s, event), gw, l) ==> !BackendsAffected(s.log, e, gw.doc.name, l)
    case Flush => true
  }

  lemma {:induction false} ListAllMember(log: Log, kinds: seq<Kind>, r: Resource)
    ensures r in ListAll(log, kinds) <==> exists k :: k in kinds && r in Survivors(log, k)
  {
    if kinds != [] {
      ListAllMember(log, kinds[..|kinds| - 1], r);
      assert forall k :: k in kinds <==> k in kinds[..|kinds| - 1] || k == kinds[|kinds| - 1];
    }
  }

  /** A touched resource is in its kind's list before or after the change. */
  lemma TouchedIsListed(log: Log, e: Change, r: Resource)
    requires Touched(log, e, r) && r.doc.kind.Some?
    ensures FileAt(log, e.path) == Some(r) ==> r in Survivors(log, r.doc.kind.value)
    ensures Loaded(log + [e]) == Some(r) ==> r in Survivors(log + [e], r.doc.kind.value)
  {
    FileAtIsLive(log, e.path, r);
    SurvivorsAreFiles(log, r.doc.kind.value, |log|, r);
    SurvivorsStepMember(log, e, r.doc.kind.value, r);
  }

  /** Marking an attached route covers the router, if its references are targeted
      in some state that lists it. */
  lemma MarkedRouteCovers(t: System, c: Control, gw: Resource, l: Listener, r: Resource)
    requires Targeted(t) && Watched(t.log, gw, l) && gw.doc.name !in t.c.dirtyGateways
    requires r in ListAll(t.log, RouteKinds(l.protocol)) && AttachedTo(r, gw.doc.name, l)
    requires RouteMarked(c, r) && gw.doc.name !in c.dirtyGateways
    ensures Covered(c.dirtyRouters, gw, l)
  {
    var ref :| ref in r.doc.parentRefs && Attaches(ref, gw.doc.name, l);
    assert Marks(ref, gw, l);
    assert Marked(c, ref);
  }

  lemma AffectedByRoute(s: System, e: Change, gw: Resource, l: Listener)
    requires AllKinded(s.log) && Allowed(s, ChangeFile(e))
    requires Watched(s.log, gw, l) && gw.doc.name !in s.c.dirtyGateways
    requires var s' := Step(s, ChangeFile(e)); Watched(s'.log, gw, l) && gw.doc.name !in s'.c.dirtyGateways
    requires RoutesAffected(s.log, e, gw.doc.name, l)
    ensures Covered(Step(s, ChangeFile(e)).c.dirtyRouters, gw, l)
  {
    var s' := Step(s, ChangeFile(e));
    var r :| Touched(s.log, e, r) && r.doc.kind.Some? && r.doc.kind.value in RouteKinds(l.protocol) &&
      AttachedTo(r, gw.doc.name, l);
    ChangeMarks(s, e);
    KindedIsNoticed(s.log, e, r);
    assert RouteMarked(s'.c, r);
    TouchedIsListed(s.log, e, r);
    if FileAt(s.log, e.path) == Some(r) {
      ListAllMember(s.log, RouteKinds(l.protocol), r);
      MarkedRouteCovers(s, s'.c, gw, l, r);
    } else {
      ListAllMember(s'.log, RouteKinds(l.protocol), r);
      MarkedRouteCovers(s', s'.c, gw, l, r);
    }
  }

  lemma AffectedByPolicy(s: System, e: Change, gw: Resource, l: Listener)
    requires AllKinded(s.log) && Allowed(s, ChangeFile(e))
    requires var s' := Step(s, ChangeFile(e)); Watched(s'.log, gw, l) && gw.doc.name !in s'.c.dirtyGateways
    requires PoliciesAffected(s.log, e, gw.doc.name, l)
    ensures Covered(Step(s, ChangeFile(e)).c.dirtyRouters, gw, l)
  {
    var s' := Step(s, ChangeFile(e));
    var p, r :| Touched(s.log, e, p) && IsPolicy(p) && r in FindRouteResources(s'.log, gw.doc.name, l) && Governs(p, r);
    ChangeMarks(s, e);
    KindedIsNoticed(s.log, e, p);
    FilterMember(ListAll(s'.log, RouteKinds(l.protocol)), r => AttachedTo(r, gw.doc.name, l), r);
    ListAllMember(s'.log, RouteKinds(l.protocol), r);
    var k :| k in RouteKinds(l.protocol) && r in Survivors(s'.log, k);
    assert k in ALL_ROUTE_KINDS;
    ListAllMember(s'.log, ALL_ROUTE_KINDS, r);
    assert RouteMarked(s'.c, r);
    MarkedRouteCovers(s', s'.c, gw, l, r);
  }

  /** An affected router of a clean gateway is covered after the change. */
  lemma AffectedIsCovered(s: System, e: Change, gw: Resource, l: Listener)
    requires AllKinded(s.log) && Allowed(s, ChangeFile(e))
    requires Watched(s.log, gw, l) && gw.doc.name !in s.c.dirtyGateways
    requires var s' := Step(s, ChangeFile(e)); Watched(s'.log, gw, l) && gw.doc.name !in s'.c.dirtyGateways
    requires RoutesAffected(s.log, e, gw.doc.name, l) || PoliciesAffected(s.log, e, gw.doc.name, l)
    ensures Covered(Step(s, ChangeFile(e)).c.dirtyRouters, gw, l)
  {
    if RoutesAffected(s.log, e, gw.doc.name, l) {
      AffectedByRoute(s, e, gw, l);
    } else {
      AffectedByPolicy(s, e, gw, l);
    }
  }

  /** A router that a flush would leave alone after the change was left alone
      before it, and nothing touched its routes or policies. */
  lemma LeftAloneIsUntouched(s: System, e: Change, gw: Resource, l: Listener)
    requires AllKinded(s.log) && Allowed(s, ChangeFile(e)) && LeftAlone(Step(s, ChangeFile(e)), gw, l)
    ensures LeftAlone(s, gw, l)
    ensures !RoutesAffected(s.log, e, gw.doc.name, l) && !PoliciesAffected(s.log, e, gw.doc.name, l)
  {
    ChangeMarks(s, e);
    StaysWatched(s, e, gw, l);
    if Covered(s.c.dirtyRouters, gw, l) {
      var d :| d in s.c.dirtyRouters && Marks(d, gw, l);
      assert Marked(s.c, d);
    }
    if RoutesAffected(s.log, e, gw.doc.name, l) || PoliciesAffected(s.log, e, gw.doc.name, l) {
      AffectedIsCovered(s, e, gw, l);
    }
  }

  lemma LoadedKindedIsNoticed(log: Log, e: Change, r: Resource)
    requires Loaded(log + [e]) == Some(r) && r.doc.kind.Some?
    ensures Noticed(log, e, r)
  {
    var ns := NoticesOf(log, e);
    assert Carries(ns[|ns| - 1], r);
  }

  /** A served gateway that a change does not mark was there before. */
  lemma StaysWatched(s: System, e: Change, gw: Resource, l: Listener)
    requires Watched(s.log + [e], gw, l) && gw.doc.name !in Step(s, ChangeFile(e)).c.dirtyGateways
    ensures Watched(s.log, gw, l)
  {
    ChangeMarks(s, e);
    SurvivorsStepMember(s.log, e, Gateway, gw);
    if Loaded(s.log + [e]) == Some(gw) && HasKind(Some(gw), Gateway) { LoadedKindedIsNoticed(s.log, e, gw); }
  }

  lemma ChangeKeepsInvariant(s: System, e: Change)
    requires Invariant(s) && Allowed(s, ChangeFile(e))
    ensures Invariant(Step(s, ChangeFile(e)))
  {
    var s' := Step(s, ChangeFile(e));
    ChangeMarks(s, e);
    ChangeAddsNoDocument(s, e);
    forall gw, l | Watched(s'.log, gw, l) && gw.doc.name !in s'.c.dirtyGateways
      ensures KeyOf(gw, l) in s'.c.armed
    {
      StaysWatched(s, e, gw, l);
    }
    forall gw, l | LeftAlone(s', gw, l)
      ensures RoutesFresh(s', gw, l)
    {
      LeftAloneIsUntouched(s, e, gw, l);
      RoutesUnchanged(s.log, e, gw.doc.name, l);
      assert RoutesFresh(s, gw, l);
    }
  }

  lemma ChangeKeepsResolution(s: System, e: Change)
    requires AllKinded(s.log) && Allowed(s, ChangeFile(e)) && BackendsSteady(s, ChangeFile(e)) && ResolutionKept(s)
    ensures ResolutionKept(Step(s, ChangeFile(e)))
  {
    var s' := Step(s, ChangeFile(e));
    ChangeMarks(s, e);
    forall gw, l | LeftAlone(s', gw, l)
      ensures ResolvesAsCompiled(s', gw, l)
    {
      LeftAloneIsUntouched(s, e, gw, l);
      ViewUnchanged(s.log, e, gw.doc.name, l);
      assert ResolvesAsCompiled(s, gw, l);
    }
  }

  /** One router after a flush: its routes and policies are fresh, and it is fresh
      altogether exactly when it was rebuilt or resolves as it was compiled. */
  lemma FlushedRouter(s: System, gw: Resource, l: Listener)
    requires Invariant(s) && GatewaysDistinct(s.log) && Watched(s.log, gw, l)
    ensures RoutesFresh(Step(s, Flush), gw, l) && KeyOf(gw, l) in Step(s, Flush).c.armed
    ensures Fresh(Step(s, Flush), gw, l) <==> !LeftAlone(s, gw, l) || ResolvesAsCompiled(s, gw, l)
  {
    FlushExact(s.c, s.log, gw, l);
    if LeftAlone(s, gw, l) { assert RoutesFresh(s, gw, l); }
  }

  /** A flush makes the routes of every router fresh. It makes everything fresh
      exactly when the routers it leaves alone resolve as they were compiled. */
  lemma FlushMakesFresh(s: System)
    requires Invariant(s) && Allowed(s, Flush)
    ensures Invariant(Step(s, Flush)) && AllRoutesFresh(Step(s, Flush))
    ensures AllFresh(Step(s, Flush)) <==> ResolutionKept(s)
    ensures ResolutionKept(s) ==> ResolutionKept(Step(s, Flush))
  {
    FlushKeepsArmed(s.c, s.log);
    assert Flushed(s.c, s.log).documents == [];
    forall gw, l | Watched(s.log, gw, l)
      ensures RoutesFresh(Step(s, Flush), gw, l) && KeyOf(gw, l) in Step(s, Flush).c.armed
      ensures Fresh(Step(s, Flush), gw, l) <==> !LeftAlone(s, gw, l) || ResolvesAsCompiled(s, gw, l)
    {
      FlushedRouter(s, gw, l);
    }
  }

  // ------------------------------------------------------------- from the start

  /** Starting one listener: its router takes over if the listener is accepted. */
  lemma StartOneExact(
      c: Control, log: Log, gw': Resource, l': Listener, keys: seq<ListenerKey>, gw: Resource, l: Listener)
    requires NewestArmed(c) && GatewaysDistinct(log) && Served(log, gw, l) && Opens(l')
    requires gw' in Survivors(log, Gateway) && l' in gw'.doc.listeners
    ensures var c', key := MakeListener(c, log, gw'.doc.name, l').(currentListeners := keys), KeyOf(gw, l);
      if gw' == gw && l' == l
      then ArmedView(c', key) == CapturedView(c', key) == Some(View(log, gw.doc.name, l))
      else ArmedView(c', key) == ArmedView(c, key) && CapturedView(c', key) == CapturedView(c, key)
  {
    MakeListenerEffect(c, log, gw'.doc.name, l');
    if KeyOf(gw', l') == KeyOf(gw, l) { KeysDistinct(log, gw, l, gw', l'); }
  }

  lemma {:induction false} StartedExact(
      c: Control, log: Log, gw': Resource, ls: seq<Listener>, gw: Resource, l: Listener)
    requires NewestArmed(c) && GatewaysDistinct(log) && Served(log, gw, l)
    requires gw' in Survivors(log, Gateway) && forall x :: x in ls ==> x in gw'.doc.listeners
    ensures var c', key := Started(c, log, gw'.doc.name, ls), KeyOf(gw, l);
      if gw' == gw && l in ls
      then ArmedView(c', key) == CapturedView(c', key) == Some(View(log, gw.doc.name, l))
      else ArmedView(c', key) == ArmedView(c, key) && CapturedView(c', key) == CapturedView(c, key)
  {
    if ls != [] {
      var init, l' := ls[..|ls| - 1], ls[|ls| - 1];
      StartedExact(c, log, gw', init, gw, l);
      StartedKeepsArmed(c, log, gw'.doc.name, init);
      assert forall x :: x in ls <==> x in init || x == l';
      var c1 := Started(c, log, gw'.doc.name, init);
      if Opens(l') {
        StartOneExact(c1, log, gw', l', AddKey(c1.currentListeners, MakeListenerKey(l')), gw, l);
      }
    }
  }

  lemma {:induction false} StartedKeepsArmed(c: Control, log: Log, gateway: string, ls: seq<Listener>)
    requires NewestArmed(c)
    ensures NewestArmed(Started(c, log, gateway, ls))
  {
    if ls != [] {
      StartedKeepsArmed(c, log, gateway, ls[..|ls| - 1]);
      MakeListenerEffect(Started(c, log, gateway, ls[..|ls| - 1]), log, gateway, ls[|ls| - 1]);
    }
  }

  lemma {:induction false} StartedAllKeepsArmed(log: Log, gws: seq<Resource>)
    ensures NewestArmed(StartedAll(INITIAL, log, gws))
  {
    if gws != [] {
      var gw := gws[|gws| - 1];
      StartedAllKeepsArmed(log, gws[..|gws| - 1]);
      StartedKeepsArmed(StartedAll(INITIAL, log, gws[..|gws| - 1]), log, gw.doc.name, gw.doc.listeners);
    }
  }

  lemma {:induction false} StartedAllFresh(log: Log, gws: seq<Resource>, gw: Resource, l: Listener)
    requires GatewaysDistinct(log) && Served(log, gw, l) && gw in gws
    requires forall g :: g in gws ==> g in Survivors(log, Gateway)
    ensures ArmedView(StartedAll(INITIAL, log, gws), KeyOf(gw, l)) == Some(View(log, gw.doc.name, l))
    ensures CapturedView(StartedAll(INITIAL, log, gws), KeyOf(gw, l)) == Some(View(log, gw.doc.name, l))
  {
    var init, gw' := gws[..|gws| - 1], gws[|gws| - 1];
    assert forall x :: x in gws <==> x in init || x == gw';
    if gw in init { StartedAllFresh(log, init, gw, l); }
    StartedAllKeepsArmed(log, init);
    StartedExact(StartedAll(INITIAL, log, init), log, gw', gw'.doc.listeners, gw, l);
  }

  lemma {:induction false} StartedAddsNoDocument(c: Control, log: Log, gateway: string, ls: seq<Listener>)
    ensures Started(c, log, gateway, ls).documents == c.documents
  {
    if ls != [] { StartedAddsNoDocument(c, log, gateway, ls[..|ls| - 1]); }
  }

  lemma {:induction false} StartedAllAddsNoDocument(log: Log, gws: seq<Resource>)
    ensures StartedAll(INITIAL, log, gws).documents == []
  {
    if gws != [] {
      var init, gw := gws[..|gws| - 1], gws[|gws| - 1];
      StartedAllAddsNoDocument(log, init);
      StartedAddsNoDocument(StartedAll(INITIAL, log, init), log, gw.doc.name, gw.doc.listeners);
    }
  }

  lemma BootIsFresh(boot: Log)
    requires GatewaysDistinct(boot)
    ensures NewestArmed(Boot(boot).c) && AllFresh(Boot(boot)) && Boot(boot).c.documents == []
  {
    StartedAllKeepsArmed(boot, Survivors(boot, Gateway));
    StartedAllAddsNoDocument(boot, Survivors(boot, Gateway));
    forall gw, l | Watched(boot, gw, l)
      ensures Fresh(Boot(boot), gw, l)
    {
      StartedAllFresh(boot, Survivors(boot, Gateway), gw, l);
    }
  }

  // ----------------------------------------------------------- over all runs

  /** In every state of every run, each router key ever used has exactly one
      armed callback, that of its newest router. */
  lemma {:induction false} NewestAlwaysArmed(boot: Log, events: seq<Event>)
    ensures NewestArmed(Run(boot, events).c)
  {
    if events == [] {
      StartedAllKeepsArmed(boot, Survivors(boot, Gateway));
    } else {
      var s := Run(boot, events[..|events| - 1]);
      NewestAlwaysArmed(boot, events[..|events| - 1]);
      match events[|events| - 1]
      case ChangeFile(e) => ChangeMarks(s, e);
      case Flush => FlushKeepsArmed(s.c, s.log);
    }
  }

  /** Every step of the run meets its assumptions. */
  ghost predicate AllowedRun(boot: Log, events: seq<Event>) {
    && AllKinded(boot) && RouteKindFree(boot) && GatewaysDistinct(boot)
    && forall n :: 0 <= n < |events| ==> Allowed(Run(boot, events[..n]), events[n])
  }

  ghost predicate BackendsSteadyRun(boot: Log, events: seq<Event>) {
    forall n :: 0 <= n < |events| ==> BackendsSteady(Run(boot, events[..n]), events[n])
  }

  lemma AllowedInit(boot: Log, events: seq<Event>)
    requires AllowedRun(boot, events) && events != []
    ensures var init := events[..|events| - 1];
      AllowedRun(boot, init) && (BackendsSteadyRun(boot, events) ==> BackendsSteadyRun(boot, init))
  {
    var init := events[..|events| - 1];
    assert forall n :: 0 <= n < |init| ==> init[..n] == events[..n];
  }

  lemma {:induction false} RunKeepsInvariant(boot: Log, events: seq<Event>)
    requires AllowedRun(boot, events)
    ensures Invariant(Run(boot, events))
  {
    if events == [] {
      BootIsFresh(boot);
    } else {
      var init := events[..|events| - 1];
      AllowedInit(boot, events);
      RunKeepsInvariant(boot, init);
      match events[|events| - 1]
      case ChangeFile(e) => ChangeKeepsInvariant(Run(boot, init), e);
      case Flush => FlushMakesFresh(Run(boot, init));
    }
  }

  lemma {:induction false} RunKeepsResolution(boot: Log, events: seq<Event>)
    requires AllowedRun(boot, events) && BackendsSteadyRun(boot, events)
    ensures ResolutionKept(Run(boot, events))
  {
    if events == [] {
      BootIsFresh(boot);
    } else {
      var init := events[..|events| - 1];
      AllowedInit(boot, events);
      RunKeepsInvariant(boot, init);
      RunKeepsResolution(boot, init);
      match events[|events| - 1]
      case ChangeFile(e) => ChangeKeepsResolution(Run(boot, init), e);
      case Flush => FlushMakesFresh(Run(boot, init));
    }
  }

  /** The main theorem: after any allowed run that ends in a flush, incremental
      rebuilding has left every watched router with the listener, the routes in
      order and the policies of a full rebuild. */
  lemma {:induction false} IncrementalRoutesEqualFull(boot: Log, events: seq<Event>)
    requires AllowedRun(boot, events) && events != [] && events[|events| - 1] == Flush
    ensures AllRoutesFresh(Run(boot, events))
  {
    AllowedInit(boot, events);
    RunKeepsInvariant(boot, events[..|events| - 1]);
    FlushMakesFresh(Run(boot, events[..|events| - 1]));
  }

  /** Resolved backends included, every router is what a full rebuild makes it
      exactly when, just before the flush, the routers that it leaves alone
      resolve what they resolved when they were compiled. */
  lemma {:induction false} IncrementalEqualsFullExactly(boot: Log, events: seq<Event>)
    requires AllowedRun(boot, events) && events != [] && events[|events| - 1] == Flush
    ensures AllFresh(Run(boot, events)) <==> ResolutionKept(Run(boot, events[..|events| - 1]))
  {
    AllowedInit(boot, events);
    RunKeepsInvariant(boot, events[..|events| - 1]);
    FlushMakesFresh(Run(boot, events[..|events| - 1]));
  }

  /** That is so in every run in which backends appear and disappear only under
      routers that are going to be rebuilt. */
  lemma {:induction false} IncrementalEqualsFull(boot: Log, events: seq<Event>)
    requires AllowedRun(boot, events) && BackendsSteadyRun(boot, events) && events != [] &&
      events[|events| - 1] == Flush
    ensures AllFresh(Run(boot, events))
  {
    AllowedInit(boot, events);
    RunKeepsResolution(boot, events[..|events| - 1]);
    IncrementalEqualsFullExactly(boot, events);
  }
}
