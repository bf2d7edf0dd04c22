/** What an open port actually runs. The pipeline of a router looks the compiled
    router up at every connection, and so, after a flush, runs what a full rebuild
    would make; except behind a TLS passthrough listener, where the pipeline keeps
    the compiled router that it was built with. */
module Ports {
  import opened Sequences
  import opened Documents
  import opened Resources
  import opened Gateways
  import opened Reconfiguration
  import opened Listeners
  import opened ReconfigurationLimits
  import opened Serving

  /** Files are kinded or nothing, and at a flush names, keys and ports are distinct. */
  ghost predicate Orderly(s: System, event: Event) {
    match event
    case ChangeFile(e) => Kinded(e)
    case Flush => GatewaysDistinct(s.log) && PortsDistinct(s.log)
  }

  /** Every step of the run is orderly, and so is the start. */
  ghost predicate OrderlyRun(boot: Log, events: seq<Event>) {
    && GatewaysDistinct(boot) && PortsDistinct(boot)
    && forall n :: 0 <= n < |events| ==> Orderly(Run(boot, events[..n]), events[n])
  }

  lemma OrderlyInit(boot: Log, events: seq<Event>)
    requires OrderlyRun(boot, events) && events != []
    ensures var init := events[..|events| - 1];
      OrderlyRun(boot, init) && Orderly(Run(boot, init), events[|events| - 1])
  {
    var init := events[..|events| - 1];
    assert forall n :: 0 <= n < |init| ==> init[..n] == events[..n];
  }

  lemma {:induction false} RunServes(boot: Log, events: seq<Event>)
    requires OrderlyRun(boot, events)
    ensures CleanIsServed(Run(boot, events))
  {
    if events == [] {
      forall gw, l | Served(boot, gw, l)
        ensures Serves(Boot(boot).c, gw, l)
      {
        StartedAllServe(boot, Survivors(boot, Gateway), gw, l);
      }
    } else {
      var init := events[..|events| - 1];
      OrderlyInit(boot, events);
      RunServes(boot, init);
      NewestAlwaysArmed(boot, init);
      match events[|events| - 1]
      case ChangeFile(e) => ChangeKeepsServed(Run(boot, init), e);
      case Flush => FlushServes(Run(boot, init));
    }
  }

  // -------------------------------------------------------- what a port runs

  /** What the router on a port was compiled from, as its connections meet it.
      router-tls.js hands its router function to the pipeline when it builds it. */
  function Running(c: Control, port: ListenerKey): Option<RouterView> {
    if port in c.open && c.open[port] in c.routers && c.open[port] in c.captured then
      var id := c.open[port];
      Some(if c.captured[id].listener.protocol == TLSPassthrough then c.captured[id] else c.routers[id].view)
    else None
  }

  /** The view that the listener's router was made with, at start or at the last
      flush at which its gateway was dirty. */
  function LastMade(boot: Log, events: seq<Event>, gw: Resource, l: Listener): RouterView {
    if events == [] then View(boot, gw.doc.name, l)
    else
      var init := events[..|events| - 1];
      if events[|events| - 1] == Flush && gw.doc.name in Run(boot, init).c.dirtyGateways
      then View(Run(boot, init).log, gw.doc.name, l)
      else LastMade(boot, init, gw, l)
  }

  lemma {:induction false} MadeForListener(boot: Log, events: seq<Event>, gw: Resource, l: Listener)
    ensures LastMade(boot, events, gw, l).listener == l
  {
    if events != [] { MadeForListener(boot, events[..|events| - 1], gw, l); }
  }

  lemma ServedBefore(s: System, e: Change, gw: Resource, l: Listener)
    requires Kinded(e) && Served(s.log + [e], gw, l)
    requires gw.doc.name !in Step(s, ChangeFile(e)).c.dirtyGateways
    ensures Served(s.log, gw, l) && gw.doc.name !in s.c.dirtyGateways
  {
    ChangeMarks(s, e);
    SurvivorsStepMember(s.log, e, Gateway, gw);
    SurvivorHasKind(s.log + [e], Gateway, gw);
    if Loaded(s.log + [e]) == Some(gw) { NamedGatewayIsNoticed(s, e, gw); }
  }

  lemma ChangeKeepsCaptured(s: System, e: Change, key: RouterKey)
    ensures CapturedView(Step(s, ChangeFile(e)).c, key) == CapturedView(s.c, key)
  {
    ChangeMarks(s, e);
  }

  /** The pipeline of every clean listener was built with the view it was last made with. */
  ghost predicate CapturesLastMade(boot: Log, events: seq<Event>, s: System) {
    forall gw, l :: Served(s.log, gw, l) && gw.doc.name !in s.c.dirtyGateways ==>
      CapturedView(s.c, KeyOf(gw, l)) == Some(LastMade(boot, events, gw, l))
  }

  lemma {:induction false} RunCaptures(boot: Log, events: seq<Event>)
    requires OrderlyRun(boot, events)
    ensures CapturesLastMade(boot, events, Run(boot, events))
  {
    var s' := Run(boot, events);
    if events == [] {
      forall gw, l | Served(boot, gw, l)
        ensures CapturedView(s'.c, KeyOf(gw, l)) == Some(LastMade(boot, events, gw, l))
      {
        StartedAllFresh(boot, Survivors(boot, Gateway), gw, l);
      }
    } else {
      var init := events[..|events| - 1];
      var s := Run(boot, init);
      OrderlyInit(boot, events);
      RunCaptures(boot, init);
      NewestAlwaysArmed(boot, init);
      forall gw, l | Served(s'.log, gw, l) && gw.doc.name !in s'.c.dirtyGateways
        ensures CapturedView(s'.c, KeyOf(gw, l)) == Some(LastMade(boot, events, gw, l))
      {
        match events[|events| - 1]
        case ChangeFile(e) =>
          ServedBefore(s, e, gw, l);
          ChangeKeepsCaptured(s, e, KeyOf(gw, l));
        case Flush =>
          FlushExact(s.c, s.log, gw, l);
      }
    }
  }

  /** A clean listener's port runs its newest router as last compiled, or as made
      if the listener passes TLS through. */
  lemma PortRuns(boot: Log, events: seq<Event>, gw: Resource, l: Listener)
    requires OrderlyRun(boot, events)
    requires Served(Run(boot, events).log, gw, l) && gw.doc.name !in Run(boot, events).c.dirtyGateways
    ensures Running(Run(boot, events).c, MakeListenerKey(l)) ==
      if l.protocol == TLSPassthrough then Some(LastMade(boot, events, gw, l))
      else ArmedView(Run(boot, events).c, KeyOf(gw, l))
  {
    NewestAlwaysArmed(boot, events);
    RunServes(boot, events);
    RunCaptures(boot, events);
    MadeForListener(boot, events, gw, l);
    assert Serves(Run(boot, events).c, gw, l);
  }

  lemma FlushClearsGateways(s: System)
    ensures Step(s, Flush).c.dirtyGateways == [] && Step(s, Flush).log == s.log
  {
  }

  /** The port's router has the listener, the routes in order and the policies of a
      full rebuild, and its backends exactly when the flush rebuilt the router or it
      resolves as it was compiled. */
  ghost predicate PortMeetsRebuild(before: System, s: System, gw: Resource, l: Listener) {
    var running, view := Running(s.c, MakeListenerKey(l)), View(s.log, gw.doc.name, l);
    && running.Some? && running.value.(resolved := []) == view.(resolved := [])
    && (running.value == view <==> !LeftAlone(before, gw, l) || ResolvesAsCompiled(before, gw, l))
  }

  ghost predicate PortsMeetRebuild(before: System, s: System) {
    forall gw, l :: Watched(s.log, gw, l) && l.protocol != TLSPassthrough ==> PortMeetsRebuild(before, s, gw, l)
  }

  /** After any allowed run that ends in a flush, and with no port shared between
      gateways, traffic arriving on the port of any watched listener that does not
      pass TLS through meets the full rebuild. */
  lemma {:induction false} TrafficMeetsFullRebuild(boot: Log, events: seq<Event>)
    requires AllowedRun(boot, events) && OrderlyRun(boot, events)
    requires events != [] && events[|events| - 1] == Flush
    ensures PortsMeetRebuild(Run(boot, events[..|events| - 1]), Run(boot, events))
  {
    var before, s := Run(boot, events[..|events| - 1]), Run(boot, events);
    AllowedInit(boot, events);
    RunKeepsInvariant(boot, events[..|events| - 1]);
    FlushClearsGateways(before);
    forall gw, l | Watched(s.log, gw, l) && l.protocol != TLSPassthrough
      ensures PortMeetsRebuild(before, s, gw, l)
    {
      FlushedRouter(before, gw, l);
      PortRuns(boot, events, gw, l);
    }
  }

  /** The router on the port of a TLS passthrough listener is that of the full
      rebuild exactly when its gateway was dirty in the flush, or the view that the
      listener was last made with is still the current one. */
  ghost predicate PassthroughMeetsRebuild(boot: Log, init: seq<Event>, s: System, gw: Resource, l: Listener) {
    Running(s.c, MakeListenerKey(l)) == Some(View(s.log, gw.doc.name, l)) <==>
      gw.doc.name in Run(boot, init).c.dirtyGateways || LastMade(boot, init, gw, l) == View(s.log, gw.doc.name, l)
  }

  ghost predicate PassthroughsMeetRebuild(boot: Log, init: seq<Event>, s: System) {
    forall gw, l ::
      Served(s.log, gw, l) && l.protocol == TLSPassthrough ==> PassthroughMeetsRebuild(boot, init, s, gw, l)
  }

  lemma {:induction false} PassthroughMeetsFullRebuildExactly(boot: Log, events: seq<Event>)
    requires OrderlyRun(boot, events) && events != [] && events[|events| - 1] == Flush
    ensures PassthroughsMeetRebuild(boot, events[..|events| - 1], Run(boot, events))
  {
    var init, s := events[..|events| - 1], Run(boot, events);
    FlushClearsGateways(Run(boot, init));
    forall gw, l | Served(s.log, gw, l) && l.protocol == TLSPassthrough
      ensures PassthroughMeetsRebuild(boot, init, s, gw, l)
    {
      PortRuns(boot, events, gw, l);
    }
  }

  /** A route that is added to a passthrough listener of a clean gateway: the
      router is compiled with it, and the port goes on without it. */
  lemma RouteMissesPassthrough(boot: Log, e: Change, gw: Resource, l: Listener, ref: ParentRef)
    requires GatewaysDistinct(boot) && PortsDistinct(boot) && GatewaysDistinct(boot + [e]) && PortsDistinct(boot + [e])
    requires Watched(boot, gw, l) && Watched(boot + [e], gw, l) && l.protocol == TLSPassthrough
    requires FileAt(boot, e.path) == None && e.data.Some? && e.data.value.kind == Some(TLSRoute)
    requires ref in e.data.value.parentRefs && Attaches(ref, gw.doc.name, l) && Marks(ref, gw, l)
    ensures var s := Run(boot, [ChangeFile(e), Flush]);
      && s.log == boot + [e]
      && ArmedView(s.c, KeyOf(gw, l)) == Some(View(s.log, gw.doc.name, l))
      && Running(s.c, MakeListenerKey(l)) == Some(View(boot, gw.doc.name, l)) != Some(View(s.log, gw.doc.name, l))
  {
    var events := [ChangeFile(e), Flush];
    var init, s0 := [ChangeFile(e)], Boot(boot);
    assert events[..1] == init && init[..0] == [] && Run(boot, []) == s0;
    var s1 := Step(s0, ChangeFile(e));
    assert Run(boot, init) == s1 && Run(boot, events) == Step(s1, Flush);
    OrderlyPassthrough(boot, e);
    StartedAllMarksNothing(boot, Survivors(boot, Gateway));
    BootIsFresh(boot);
    RouteMarksNoGateway(s0, e);
    FlushClearsGateways(s1);
    PortRuns(boot, events, gw, l);
    assert LastMade(boot, init, gw, l) == LastMade(boot, [], gw, l) == View(boot, gw.doc.name, l);
    AttachedRouteChangesView(boot, e, gw.doc.name, l);
    TargetedRouteIsCompiled(s0, e, gw, l, ref);
  }

  lemma RouteMarksNoGateway(s: System, e: Change)
    requires FileAt(s.log, e.path) == None && e.data.Some? && e.data.value.kind == Some(TLSRoute)
    requires s.c.dirtyGateways == []
    ensures Step(s, ChangeFile(e)).c.dirtyGateways == [] && Step(s, ChangeFile(e)).c.documents == s.c.documents
  {
    var r := Loaded(s.log + [e]).value;
    assert NoticesOf(s.log, e) == [Notice(Some(r), None)];
    OneNotice(s, e, Notice(Some(r), None));
    AddDirtyRoutersOnly(s.c, r.doc.parentRefs);
    AddDirtyRoutersMarks(s.c, r.doc.parentRefs);
  }

  lemma TargetedRouteIsCompiled(s: System, e: Change, gw: Resource, l: Listener, ref: ParentRef)
    requires NewestArmed(s.c) && Fresh(s, gw, l) && s.c.dirtyGateways == [] && s.c.documents == []
    requires FileAt(s.log, e.path) == None && e.data.Some? && e.data.value.kind == Some(TLSRoute)
    requires GatewaysDistinct(s.log + [e]) && Watched(s.log + [e], gw, l)
    requires ref in e.data.value.parentRefs && Marks(ref, gw, l)
    ensures Fresh(Step(Step(s, ChangeFile(e)), Flush), gw, l)
  {
    var s1, r := Step(s, ChangeFile(e)), Loaded(s.log + [e]).value;
    RouteMarksNoGateway(s, e);
    ChangeMarks(s, e);
    LoadedKindedIsNoticed(s.log, e, r);
    assert RouteMarked(s1.c, r) && Marked(s1.c, ref);
    assert [e][..0] == [] && Changed(s, []) == s && Changed(s, [e]) == s1;
    BatchThenFlushExact(s, [e], gw, l);
  }

  const PASSTHROUGH := Listener("a", "", Number(443), TLSPassthrough)
  const TLS_GATEWAY := BLANK.(kind := Some(Gateway), name := "gw", listeners := [PASSTHROUGH])
  const TO_PASSTHROUGH := ParentRef(Some(Gateway), "gw", NoPort, "a")

  lemma OnePassthrough(log: Log, gw: Resource)
    requires Survivors(log, Gateway) == [gw] && gw.doc == TLS_GATEWAY
    ensures GatewaysDistinct(log) && PortsDistinct(log) && Watched(log, gw, PASSTHROUGH)
  {
    assert TLS_GATEWAY.listeners[0] == PASSTHROUGH;
    assert forall l :: l in TLS_GATEWAY.listeners ==> l == PASSTHROUGH;
  }

  lemma PassthroughStore(boot: Log, e: Change)
    requires boot == [Change("gw", Some(TLS_GATEWAY))] && e == Change("route", Some(RouteTo(TLSRoute, TO_PASSTHROUGH)))
    ensures Survivors(boot, Gateway) == Survivors(boot + [e], Gateway) == [Resource(0, TLS_GATEWAY)]
    ensures FileAt(boot, "route") == None
  {
    assert Live(boot, 0) && SurvivorsUpTo(boot, Gateway, 0) == [];
    assert boot[..0] == [] && FileAt(boot[..0], "route") == None;
    SurvivorsStep(boot, e, Gateway);
  }

  lemma OrderlyPassthrough(boot: Log, e: Change)
    requires GatewaysDistinct(boot) && PortsDistinct(boot) && Kinded(e)
    requires GatewaysDistinct(boot + [e]) && PortsDistinct(boot + [e])
    ensures OrderlyRun(boot, [ChangeFile(e), Flush])
  {
    var events := [ChangeFile(e), Flush];
    assert events[..1] == [ChangeFile(e)] && events[..1][..0] == [] && Run(boot, []) == Boot(boot);
    assert Run(boot, events[..1]).log == boot + [e];
    assert Orderly(Boot(boot), events[0]) && Orderly(Run(boot, events[..1]), events[1]);
  }

  /** As a concrete run: start with one passthrough listener, then add its route. */
  lemma PassthroughRun()
    ensures var boot, gw := [Change("gw", Some(TLS_GATEWAY))], Resource(0, TLS_GATEWAY);
      var s := Run(boot, [ChangeFile(Change("route", Some(RouteTo(TLSRoute, TO_PASSTHROUGH)))), Flush]);
      && ArmedView(s.c, KeyOf(gw, PASSTHROUGH)) == Some(View(s.log, "gw", PASSTHROUGH))
      && Running(s.c, MakeListenerKey(PASSTHROUGH)) == Some(View(boot, "gw", PASSTHROUGH))
      && View(boot, "gw", PASSTHROUGH) != View(s.log, "gw", PASSTHROUGH)
  {
    var boot, gw := [Change("gw", Some(TLS_GATEWAY))], Resource(0, TLS_GATEWAY);
    var e := Change("route", Some(RouteTo(TLSRoute, TO_PASSTHROUGH)));
    PassthroughStore(boot, e);
    OnePassthrough(boot, gw);
    OnePassthrough(boot + [e], gw);
    assert e.data.value.parentRefs[0] == TO_PASSTHROUGH;
    RouteMissesPassthrough(boot, e, gw, PASSTHROUGH, TO_PASSTHROUGH);
  }
}
