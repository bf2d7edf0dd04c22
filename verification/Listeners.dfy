/** Listener reconciliation: which ports are open against which ports the
    watcher believes to be open, over all runs. */
module Listeners {
  import opened Sequences
  import opened Documents
  import opened Resources
  import opened Gateways
  import opened Reconfiguration

  /** A named gateway among these declares the key; `ok` restricts the listeners that count. */
  ghost predicate Declares(gws: seq<Resource>, ok: (string, Listener) -> bool, k: ListenerKey) {
    exists gw, l :: gw in gws && gw.doc.name != "" && l in gw.doc.listeners && MakeListenerKey(l) == k &&
      ok(gw.doc.name, l)
  }

  ghost predicate DeclaresIn(name: string, ls: seq<Listener>, ok: (string, Listener) -> bool, k: ListenerKey) {
    exists l :: l in ls && MakeListenerKey(l) == k && ok(name, l)
  }

  function AnyListener(): (string, Listener) -> bool {
    (name, l) => true
  }

  function AcceptedListener(): (string, Listener) -> bool {
    (name, l) => Opens(l)
  }

  /** Listeners that a sweep meets without an exception. */
  function MetBySweep(dirty: seq<string>): (string, Listener) -> bool {
    (name, l) => name in dirty ==> Opens(l)
  }

  function OpenedBySweep(dirty: seq<string>): (string, Listener) -> bool {
    (name, l) => name in dirty && Opens(l)
  }

  lemma {:induction false} SweptListenersKeys(s: Sweep, log: Log, name: string, ls: seq<Listener>, k: ListenerKey)
    ensures var s' := SweptListeners(s, log, name, ls);
      && s'.c.dirtyGateways == s.c.dirtyGateways
      && (k in s'.updated <==> k in s.updated || DeclaresIn(name, ls, MetBySweep(s.c.dirtyGateways), k))
      && (k in s'.c.open <==> k in s.c.open || DeclaresIn(name, ls, OpenedBySweep(s.c.dirtyGateways), k))
  {
    if ls != [] {
      SweptListenersKeys(s, log, name, ls[..|ls| - 1], k);
      assert forall l :: l in ls <==> l in ls[..|ls| - 1] || l == ls[|ls| - 1];
    }
  }

  lemma {:induction false} SweptKeys(s: Sweep, log: Log, gws: seq<Resource>, k: ListenerKey)
    ensures var s' := Swept(s, log, gws);
      && s'.c.dirtyGateways == s.c.dirtyGateways
      && (k in s'.updated <==> k in s.updated || Declares(gws, MetBySweep(s.c.dirtyGateways), k))
      && (k in s'.c.open <==> k in s.c.open || Declares(gws, OpenedBySweep(s.c.dirtyGateways), k))
  {
    if gws != [] {
      var init, gw := gws[..|gws| - 1], gws[|gws| - 1];
      SweptKeys(s, log, init, k);
      SweptListenersKeys(Swept(s, log, init), log, gw.doc.name, gw.doc.listeners, k);
      forall ok: (string, Listener) -> bool
        ensures Declares(gws, ok, k) <==>
          Declares(init, ok, k) || (gw.doc.name != "" && DeclaresIn(gw.doc.name, gw.doc.listeners, ok, k))
      {
        assert forall g :: g in gws <==> g in init || g == gw;
      }
    }
  }

  lemma {:induction false} RefreshKeepsOpen(c: Control, log: Log, ds: seq<ParentRef>)
    requires NewestArmed(c)
    ensures var c' := RefreshRouters(c, log, ds);
      c'.open == c.open && c'.currentListeners == c.currentListeners && c'.dirtyGateways == c.dirtyGateways
  {
    if ds != [] {
      var c1, d := RefreshRouters(c, log, ds[..|ds| - 1]), ds[|ds| - 1];
      RefreshKeepsOpen(c, log, ds[..|ds| - 1]);
      RefreshKeepsArmed(c, log, ds[..|ds| - 1]);
      var gw := FindGateway(log, d.name);
      if gw.Some? {
        var l := FindListener(gw.value, d);
        if l.Some? { RunRouteUpdatersEffect(c1, KeyOf(gw.value, l.value), View(log, gw.value.doc.name, l.value)); }
      }
    }
  }

  /** Every open port is a current listener. */
  predicate OpenIsCurrent(c: Control) {
    forall k :: k in c.open ==> k in c.currentListeners
  }

  /** Every accepted listener of a gateway that is not dirty is open. */
  ghost predicate CleanIsOpen(s: System) {
    forall gw, l :: Served(s.log, gw, l) && gw.doc.name !in s.c.dirtyGateways ==> MakeListenerKey(l) in s.c.open
  }

  /** One flush with dirty gateways, key by key. */
  lemma FlushKeys(s: System, k: ListenerKey)
    requires NewestArmed(s.c) && OpenIsCurrent(s.c) && s.c.dirtyGateways != []
    ensures var c', gws, dirty := Step(s, Flush).c, Survivors(s.log, Gateway), s.c.dirtyGateways;
      && (k in c'.currentListeners <==> Declares(gws, MetBySweep(dirty), k))
      && (k in c'.open <==>
        Declares(gws, OpenedBySweep(dirty), k) || (k in s.c.open && Declares(gws, MetBySweep(dirty), k)))
      && (k in c'.open ==> k in c'.currentListeners)
  {
    var c1, gws := RefreshRouters(s.c, s.log, s.c.dirtyRouters), Survivors(s.log, Gateway);
    RefreshKeepsOpen(s.c, s.log, s.c.dirtyRouters);
    SweptKeys(Sweep(c1, []), s.log, gws, k);
    if Declares(gws, OpenedBySweep(s.c.dirtyGateways), k) {
      var gw, l :| gw in gws && gw.doc.name != "" && l in gw.doc.listeners && MakeListenerKey(l) == k
        && OpenedBySweep(s.c.dirtyGateways)(gw.doc.name, l);
      assert MetBySweep(s.c.dirtyGateways)(gw.doc.name, l);
    }
  }

  /** A listener that makeListener refuses, of a gateway that is clean, on a
      port that is not open and that the coming sweep does not open. */
  ghost predicate RefusedOnClosedPort(s: System, gw: Resource, l: Listener) {
    && gw in Survivors(s.log, Gateway) && gw.doc.name != "" && gw.doc.name !in s.c.dirtyGateways
    && l in gw.doc.listeners && !Opens(l)
    && MakeListenerKey(l) !in s.c.open
    && !Declares(Survivors(s.log, Gateway), OpenedBySweep(s.c.dirtyGateways), MakeListenerKey(l))
  }

  /** After a flush with dirty gateways the watcher's list is exactly the set of
      open ports if and only if no clean gateway had a refused listener on a
      closed port. */
  lemma ReconciledExactly(s: System)
    requires NewestArmed(s.c) && OpenIsCurrent(s.c) && CleanIsOpen(s) && s.c.dirtyGateways != []
    ensures var c' := Step(s, Flush).c;
      (forall k :: k in c'.currentListeners <==> k in c'.open) <==> (forall gw, l :: !RefusedOnClosedPort(s, gw, l))
  {
    var c', gws, dirty := Step(s, Flush).c, Survivors(s.log, Gateway), s.c.dirtyGateways;
    if forall k :: k in c'.currentListeners <==> k in c'.open {
      forall gw, l
        ensures !RefusedOnClosedPort(s, gw, l)
      {
        FlushKeys(s, MakeListenerKey(l));
        if gw in gws && gw.doc.name != "" && gw.doc.name !in dirty && l in gw.doc.listeners {
          assert MetBySweep(dirty)(gw.doc.name, l);
        }
      }
    } else {
      var k :| !(k in c'.currentListeners <==> k in c'.open);
      FlushKeys(s, k);
      var gw, l :| gw in gws && gw.doc.name != "" && l in gw.doc.listeners && MakeListenerKey(l) == k &&
        MetBySweep(dirty)(gw.doc.name, l);
      assert gw.doc.name in dirty ==> OpenedBySweep(dirty)(gw.doc.name, l);
      assert Opens(l) ==> Served(s.log, gw, l);
      assert RefusedOnClosedPort(s, gw, l);
    }
  }

  /** What the theorem above assumes of a state. */
  ghost predicate PortsInvariant(s: System) {
    NewestArmed(s.c) && OpenIsCurrent(s.c) && CleanIsOpen(s)
  }

  lemma FlushKeepsPorts(s: System)
    requires PortsInvariant(s)
    ensures PortsInvariant(Step(s, Flush))
  {
    var s', gws, dirty := Step(s, Flush), Survivors(s.log, Gateway), s.c.dirtyGateways;
    FlushKeepsArmed(s.c, s.log);
    RefreshKeepsOpen(s.c, s.log, s.c.dirtyRouters);
    if dirty != [] {
      forall k
        ensures k in s'.c.open ==> k in s'.c.currentListeners
      {
        FlushKeys(s, k);
      }
      forall gw, l | Served(s.log, gw, l)
        ensures MakeListenerKey(l) in s'.c.open
      {
        FlushKeys(s, MakeListenerKey(l));
        assert MetBySweep(dirty)(gw.doc.name, l);
        if gw.doc.name in dirty { assert OpenedBySweep(dirty)(gw.doc.name, l); }
      }
    }
  }

  lemma ChangeKeepsPorts(s: System, e: Change)
    requires PortsInvariant(s) && Kinded(e)
    ensures PortsInvariant(Step(s, ChangeFile(e)))
  {
    var s' := Step(s, ChangeFile(e));
    ChangeMarks(s, e);
    forall gw, l | Served(s'.log, gw, l) && gw.doc.name !in s'.c.dirtyGateways
      ensures MakeListenerKey(l) in s'.c.open
    {
      SurvivorsStepMember(s.log, e, Gateway, gw);
      SurvivorHasKind(s'.log, Gateway, gw);
      if Loaded(s'.log) == Some(gw) { NamedGatewayIsNoticed(s, e, gw); }
      assert Served(s.log, gw, l);
    }
  }

  // -------------------------------------------------------------- over all runs

  /** Files are kinded or nothing. */
  predicate KindedRun(events: seq<Event>) {
    forall n :: 0 <= n < |events| && events[n].ChangeFile? ==> Kinded(events[n].e)
  }

  /** In every state of every kinded run the open ports are current, and every
      accepted listener of a clean gateway is open, refused listeners or not. */
  lemma {:induction false} RunKeepsPorts(boot: Log, events: seq<Event>)
    requires KindedRun(events)
    ensures PortsInvariant(Run(boot, events))
  {
    if events == [] {
      StartedAllKeys(boot, Survivors(boot, Gateway));
      StartedAllKeepsArmed(boot, Survivors(boot, Gateway));
      forall gw, l | Served(boot, gw, l)
        ensures MakeListenerKey(l) in Boot(boot).c.open
      {
        assert AcceptedListener()(gw.doc.name, l);
      }
    } else {
      var init, event := events[..|events| - 1], events[|events| - 1];
      RunKeepsPorts(boot, init);
      match event
      case ChangeFile(e) => ChangeKeepsPorts(Run(boot, init), e);
      case Flush => FlushKeepsPorts(Run(boot, init));
    }
  }

  /** So after any kinded run that ends in a flush with dirty gateways, the list is
      the set of open ports if and only if the flush met no refused listener of a
      clean gateway on a closed port. */
  lemma {:induction false} ReconciledExactlyOverRuns(boot: Log, events: seq<Event>)
    requires KindedRun(events) && Run(boot, events).c.dirtyGateways != []
    ensures InSync(Run(boot, events + [Flush]).c) <==> forall gw, l :: !RefusedOnClosedPort(Run(boot, events), gw, l)
  {
    RunKeepsPorts(boot, events);
    ReconciledExactly(Run(boot, events));
    assert (events + [Flush])[..|events|] == events;
  }

  /** makeListener accepts every listener of every named gateway. */
  ghost predicate AllAccepted(log: Log) {
    forall gw, l :: gw in Survivors(log, Gateway) && gw.doc.name != "" && l in gw.doc.listeners ==> Opens(l)
  }

  /** The watcher's list is exactly the set of open ports. */
  ghost predicate InSync(c: Control) {
    forall k :: k in c.currentListeners <==> k in c.open
  }

  /** The watcher's list is exactly the keys that the named gateways declare. */
  ghost predicate Complete(s: System) {
    forall k :: k in s.c.currentListeners <==> Declares(Survivors(s.log, Gateway), AnyListener(), k)
  }

  ghost predicate ListenersInvariant(s: System) {
    && NewestArmed(s.c) && InSync(s.c) && CleanIsOpen(s)
    && (s.c.dirtyGateways == [] ==> Complete(s))
  }

  lemma FlushReconciles(s: System)
    requires ListenersInvariant(s) && AllAccepted(s.log)
    ensures ListenersInvariant(Step(s, Flush)) && Complete(Step(s, Flush))
  {
    var s', gws, dirty := Step(s, Flush), Survivors(s.log, Gateway), s.c.dirtyGateways;
    FlushKeepsPorts(s);
    if dirty == [] {
      RefreshKeepsOpen(s.c, s.log, s.c.dirtyRouters);
    } else {
      ReconciledExactly(s);
      forall k
        ensures k in s'.c.currentListeners <==> Declares(gws, AnyListener(), k)
      {
        FlushKeys(s, k);
        if Declares(gws, AnyListener(), k) {
          var gw, l :| gw in gws && gw.doc.name != "" && l in gw.doc.listeners && MakeListenerKey(l) == k;
          assert MetBySweep(dirty)(gw.doc.name, l);
        }
      }
    }
  }

  lemma NamedGatewayIsNoticed(s: System, e: Change, gw: Resource)
    requires HasKind(Some(gw), Gateway) && gw.doc.name != ""
    requires Loaded(s.log + [e]) == Some(gw) || FileAt(s.log, e.path) == Some(gw)
    requires Kinded(e)
    ensures gw.doc.name in Step(s, ChangeFile(e)).c.dirtyGateways
  {
    var ns := NoticesOf(s.log, e);
    ChangeMarks(s, e);
    if FileAt(s.log, e.path) == Some(gw) { assert Carries(ns[0], gw); } else { assert Carries(ns[|ns| - 1], gw); }
    assert Noticed(s.log, e, gw);
  }

  lemma SurvivorHasKind(log: Log, kind: Kind, r: Resource)
    requires r in Survivors(log, kind)
    ensures r.doc.kind == Some(kind)
  {
    SurvivorsAreFiles(log, kind, |log|, r);
  }

  lemma ChangeKeepsListeners(s: System, e: Change)
    requires ListenersInvariant(s) && Kinded(e)
    ensures ListenersInvariant(Step(s, ChangeFile(e)))
  {
    var s' := Step(s, ChangeFile(e));
    ChangeMarks(s, e);
    forall gw: Resource | gw.doc.name != "" && gw.doc.name !in s'.c.dirtyGateways
      ensures gw in Survivors(s'.log, Gateway) <==> gw in Survivors(s.log, Gateway)
    {
      SurvivorsStepMember(s.log, e, Gateway, gw);
      if gw in Survivors(s.log, Gateway) { SurvivorHasKind(s.log, Gateway, gw); }
      if HasKind(Some(gw), Gateway) && (Loaded(s'.log) == Some(gw) || FileAt(s.log, e.path) == Some(gw)) {
        NamedGatewayIsNoticed(s, e, gw);
      }
    }
    assert s.c.dirtyGateways != [] ==> s.c.dirtyGateways[0] in s'.c.dirtyGateways;
    if s'.c.dirtyGateways == [] {
      forall k
        ensures Declares(Survivors(s'.log, Gateway), AnyListener(), k) <==>
          Declares(Survivors(s.log, Gateway), AnyListener(), k)
      {
      }
    }
  }

  lemma {:induction false} StartedKeys(c: Control, log: Log, name: string, ls: seq<Listener>)
    requires InSync(c)
    ensures var c' := Started(c, log, name, ls);
      InSync(c') && forall k :: k in c'.open <==> k in c.open || DeclaresIn(name, ls, AcceptedListener(), k)
  {
    if ls != [] {
      var init, l := ls[..|ls| - 1], ls[|ls| - 1];
      assert forall x :: x in ls <==> x in init || x == l;
      StartedKeys(c, log, name, init);
      var c1, c' := Started(c, log, name, init), Started(c, log, name, ls);
      forall k
        ensures k in c'.open <==> k in c.open || DeclaresIn(name, ls, AcceptedListener(), k)
      {
        assert AcceptedListener()(name, l) <==> Opens(l);
        assert k in c'.open <==> k in c1.open || (Opens(l) && k == MakeListenerKey(l));
      }
    }
  }

  /** At start the open ports are those of the accepted listeners. */
  lemma {:induction false} StartedAllKeys(log: Log, gws: seq<Resource>)
    ensures var c := StartedAll(INITIAL, log, gws);
      InSync(c) && c.dirtyGateways == [] && forall k :: k in c.open <==> Declares(gws, AcceptedListener(), k)
  {
    if gws != [] {
      var init, gw := gws[..|gws| - 1], gws[|gws| - 1];
      assert forall g :: g in gws <==> g in init || g == gw;
      StartedAllKeys(log, init);
      var c1 := StartedAll(INITIAL, log, init);
      if gw.doc.name != "" {
        StartedKeys(c1, log, gw.doc.name, gw.doc.listeners);
        StartedMarksNoGateway(c1, log, gw.doc.name, gw.doc.listeners);
      }
      forall k
        ensures Declares(gws, AcceptedListener(), k) <==> (
          Declares(init, AcceptedListener(), k) ||
          (gw.doc.name != "" && DeclaresIn(gw.doc.name, gw.doc.listeners, AcceptedListener(), k)))
      {
      }
    }
  }

  lemma {:induction false} StartedMarksNoGateway(c: Control, log: Log, name: string, ls: seq<Listener>)
    ensures Started(c, log, name, ls).dirtyGateways == c.dirtyGateways
  {
    if ls != [] { StartedMarksNoGateway(c, log, name, ls[..|ls| - 1]); }
  }

  /** Listeners are accepted at start and at every flush; files are kinded or nothing. */
  ghost predicate AcceptedRun(boot: Log, events: seq<Event>) {
    && AllAccepted(boot)
    && forall n :: 0 <= n < |events| ==>
         match events[n]
         case ChangeFile(e) => Kinded(e)
         case Flush => AllAccepted(Run(boot, events[..n]).log)
  }

  /** In every reachable state the open ports are exactly the watcher's list,
      and with no gateway dirty, as after each flush, exactly the listener keys
      of all named gateways, although clean gateways are never opened again. */
  lemma {:induction false} OpenPortsTrackGateways(boot: Log, events: seq<Event>)
    requires AcceptedRun(boot, events)
    ensures ListenersInvariant(Run(boot, events))
    ensures events != [] && events[|events| - 1] == Flush ==> Complete(Run(boot, events))
  {
    assert KindedRun(events);
    RunKeepsPorts(boot, events);
    if events == [] {
      StartedAllKeys(boot, Survivors(boot, Gateway));
      forall k
        ensures Declares(Survivors(boot, Gateway), AcceptedListener(), k) <==>
          Declares(Survivors(boot, Gateway), AnyListener(), k)
      {
        AcceptedIsAny(boot, k);
      }
    } else {
      var init, event := events[..|events| - 1], events[|events| - 1];
      assert forall n :: 0 <= n < |init| ==> init[..n] == events[..n] && init[n] == events[n];
      OpenPortsTrackGateways(boot, init);
      match event
      case ChangeFile(e) => ChangeKeepsListeners(Run(boot, init), e);
      case Flush => FlushReconciles(Run(boot, init));
    }
  }

  lemma AcceptedIsAny(log: Log, k: ListenerKey)
    requires AllAccepted(log)
    ensures Declares(Survivors(log, Gateway), AcceptedListener(), k) <==>
      Declares(Survivors(log, Gateway), AnyListener(), k)
  {
    if Declares(Survivors(log, Gateway), AnyListener(), k) {
      var gw, l :| gw in Survivors(log, Gateway) && gw.doc.name != "" && l in gw.doc.listeners &&
        MakeListenerKey(l) == k;
      assert AcceptedListener()(gw.doc.name, l);
    }
    if Declares(Survivors(log, Gateway), AcceptedListener(), k) {
      var gw, l :| gw in Survivors(log, Gateway) && gw.doc.name != "" && l in gw.doc.listeners &&
        MakeListenerKey(l) == k;
      assert AnyListener()(gw.doc.name, l);
    }
  }

  lemma OnlyRefusedIsOutOfSync(s0: System, e: Change, a: Resource, l: Listener)
    requires s0.c == INITIAL && Survivors(s0.log, Gateway) == [a] && a.doc.name == "a" && a.doc.listeners == [l] &&
      !Opens(l)
    requires FileAt(s0.log, e.path) == None && e.data.Some?
    requires e.data.value.kind == Some(Gateway) && e.data.value.name == "b" && e.data.value.listeners == []
    ensures !InSync(Step(Step(s0, ChangeFile(e)), Flush).c)
  {
    var s, b := Step(s0, ChangeFile(e)), Loaded(s0.log + [e]).value;
    var n := Notice(Some(b), None);
    assert NoticesOf(s0.log, e) == [n];
    assert NotifiedAll(s0.c, s.log, [n][..0]) == INITIAL;
    assert s.c == AddDirtyGateway(INITIAL, "b");
    assert s.c.dirtyGateways == ["b"] && s.c.open == map[];
    SurvivorsStep(s0.log, e, Gateway);
    assert Survivors(s.log, Gateway) == [a, b];
    assert a.doc.listeners[0] == l;
    assert RefusedOnClosedPort(s, a, l);
    assert CleanIsOpen(s);
    ReconciledExactly(s);
  }

  lemma OneFile(doc: Document)
    requires doc.kind == Some(Gateway)
    ensures var log := [Change("a", Some(doc))];
      Survivors(log, Gateway) == [Resource(0, doc)] && FileAt(log, "b") == None
  {
    var log := [Change("a", Some(doc))];
    assert Live(log, 0);
    assert SurvivorsUpTo(log, Gateway, 0) == [];
    assert log[0].path != "b" && log[..0] == [];
  }

  /** A gateway all of whose listeners are refused opens nothing at start. */
  lemma RefusedOpensNothing(log: Log, gw: Resource, l: Listener)
    requires Survivors(log, Gateway) == [gw] && gw.doc.listeners == [l] && !Opens(l)
    ensures Boot(log).c == INITIAL
  {
    assert Started(INITIAL, log, gw.doc.name, [l][..0]) == INITIAL;
    assert Started(INITIAL, log, gw.doc.name, [l]) == INITIAL;
    assert StartedAll(INITIAL, log, [gw][..0]) == INITIAL;
  }

  const REFUSED := Listener("", "", Number(80), UnknownProtocol)
  const GATEWAY_A := BLANK.(kind := Some(Gateway), name := "a", listeners := [REFUSED])
  const GATEWAY_B := BLANK.(kind := Some(Gateway), name := "b")

  /** A concrete run out of step: a gateway whose only listener has an unknown
      protocol stays clean while another gateway changes. */
  lemma RefusedListenerIsListed()
    ensures !InSync(Step(Step(Boot([Change("a", Some(GATEWAY_A))]), ChangeFile(Change("b", Some(GATEWAY_B)))), Flush).c)
  {
    var log, a := [Change("a", Some(GATEWAY_A))], Resource(0, GATEWAY_A);
    OneFile(GATEWAY_A);
    RefusedOpensNothing(log, a, REFUSED);
    OnlyRefusedIsOutOfSync(Boot(log), Change("b", Some(GATEWAY_B)), a, REFUSED);
  }
}
