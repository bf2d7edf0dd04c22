/** Which router is bound to an open port: when no two gateways share a port, the
    one whose updater is armed. */
module Serving {
  import opened Sequences
  import opened Documents
  import opened Resources
  import opened Gateways
  import opened Reconfiguration
  import opened Listeners

  /** The listener's port is open and bound to the router whose updater is armed. */
  predicate Serves(c: Control, gw: Resource, l: Listener) {
    && MakeListenerKey(l) in c.open
    && KeyOf(gw, l) in c.armed && |c.armed[KeyOf(gw, l)]| == 1
    && c.open[MakeListenerKey(l)] == c.armed[KeyOf(gw, l)][0].router
  }

  /** No two named gateways declare the same port and protocol. */
  ghost predicate PortsDistinct(log: Log) {
    forall gw, l, gw', l' ::
      (Served(log, gw, l) && gw' in Survivors(log, Gateway) && gw'.doc.name != "" && l' in gw'.doc.listeners
       && MakeListenerKey(l') == MakeListenerKey(l)) ==> gw' == gw
  }

  lemma SamePortIsSameListener(log: Log, gw: Resource, l: Listener, gw': Resource, l': Listener)
    requires GatewaysDistinct(log) && PortsDistinct(log) && Served(log, gw, l)
    requires gw' in Survivors(log, Gateway) && gw'.doc.name != "" && l' in gw'.doc.listeners
    requires MakeListenerKey(l') == MakeListenerKey(l)
    ensures gw' == gw && l' == l
  {
    KeysDistinct(log, gw, l, gw', l');
  }

  lemma {:induction false} SweptListenersServe(
      s: Sweep, log: Log, gw': Resource, ls: seq<Listener>, gw: Resource, l: Listener)
    requires GatewaysDistinct(log) && PortsDistinct(log) && Served(log, gw, l)
    requires gw' in Survivors(log, Gateway) && gw'.doc.name != "" && forall x :: x in ls ==> x in gw'.doc.listeners
    requires Serves(s.c, gw, l) || (gw' == gw && l in ls && gw.doc.name in s.c.dirtyGateways)
    ensures var s' := SweptListeners(s, log, gw'.doc.name, ls);
      s'.c.dirtyGateways == s.c.dirtyGateways && Serves(s'.c, gw, l)
  {
    if ls != [] {
      var init, l' := ls[..|ls| - 1], ls[|ls| - 1];
      assert forall x :: x in ls <==> x in init || x == l';
      SweptListenersKeys(s, log, gw'.doc.name, init, MakeListenerKey(l));
      if Serves(s.c, gw, l) || (gw' == gw && l in init) {
        SweptListenersServe(s, log, gw', init, gw, l);
      }
      if MakeListenerKey(l') == MakeListenerKey(l) { SamePortIsSameListener(log, gw, l, gw', l'); }
    }
  }

  lemma {:induction false} SweptServe(s: Sweep, log: Log, gws: seq<Resource>, gw: Resource, l: Listener)
    requires GatewaysDistinct(log) && PortsDistinct(log) && Served(log, gw, l)
    requires forall g :: g in gws ==> g in Survivors(log, Gateway)
    requires Serves(s.c, gw, l) || (gw in gws && gw.doc.name in s.c.dirtyGateways)
    ensures Serves(Swept(s, log, gws).c, gw, l)
  {
    if gws != [] {
      var init, gw' := gws[..|gws| - 1], gws[|gws| - 1];
      assert forall x :: x in gws <==> x in init || x == gw';
      SweptKeys(s, log, init, MakeListenerKey(l));
      if Serves(s.c, gw, l) || gw in init { SweptServe(s, log, init, gw, l); }
      if gw'.doc.name != "" {
        SweptListenersServe(Swept(s, log, init), log, gw', gw'.doc.listeners, gw, l);
      }
    }
  }

  /** Every accepted listener of a clean gateway is served by its armed router. */
  ghost predicate CleanIsServed(s: System) {
    forall gw, l :: Served(s.log, gw, l) && gw.doc.name !in s.c.dirtyGateways ==> Serves(s.c, gw, l)
  }

  lemma ChangeKeepsServed(s: System, e: Change)
    requires CleanIsServed(s) && Kinded(e)
    ensures CleanIsServed(Step(s, ChangeFile(e)))
  {
    var s' := Step(s, ChangeFile(e));
    ChangeMarks(s, e);
    forall gw, l | Served(s'.log, gw, l) && gw.doc.name !in s'.c.dirtyGateways
      ensures Serves(s'.c, gw, l)
    {
      SurvivorsStepMember(s.log, e, Gateway, gw);
      SurvivorHasKind(s'.log, Gateway, gw);
      if Loaded(s'.log) == Some(gw) { NamedGatewayIsNoticed(s, e, gw); }
      assert Served(s.log, gw, l);
    }
  }

  lemma {:induction false} StartedServe(
      c: Control, log: Log, gw': Resource, ls: seq<Listener>, gw: Resource, l: Listener)
    requires GatewaysDistinct(log) && PortsDistinct(log) && Served(log, gw, l)
    requires gw' in Survivors(log, Gateway) && gw'.doc.name != "" && forall x :: x in ls ==> x in gw'.doc.listeners
    requires Serves(c, gw, l) || (gw' == gw && l in ls)
    ensures Serves(Started(c, log, gw'.doc.name, ls), gw, l)
  {
    if ls != [] {
      var init, l' := ls[..|ls| - 1], ls[|ls| - 1];
      assert forall x :: x in ls <==> x in init || x == l';
      if Serves(c, gw, l) || (gw' == gw && l in init) { StartedServe(c, log, gw', init, gw, l); }
      if MakeListenerKey(l') == MakeListenerKey(l) { SamePortIsSameListener(log, gw, l, gw', l'); }
    }
  }

  lemma {:induction false} StartedAllServe(log: Log, gws: seq<Resource>, gw: Resource, l: Listener)
    requires GatewaysDistinct(log) && PortsDistinct(log) && Served(log, gw, l) && gw in gws
    requires forall g :: g in gws ==> g in Survivors(log, Gateway)
    ensures Serves(StartedAll(INITIAL, log, gws), gw, l)
  {
    var init, gw' := gws[..|gws| - 1], gws[|gws| - 1];
    assert forall x :: x in gws <==> x in init || x == gw';
    if gw in init { StartedAllServe(log, init, gw, l); }
    if gw'.doc.name != "" {
      StartedServe(StartedAll(INITIAL, log, init), log, gw', gw'.doc.listeners, gw, l);
    }
  }

  lemma ReconciledServes(c: Control, log: Log, gw: Resource, l: Listener)
    requires GatewaysDistinct(log) && PortsDistinct(log) && Served(log, gw, l)
    requires gw.doc.name in c.dirtyGateways || Serves(c, gw, l)
    ensures Serves(Reconciled(c, log), gw, l)
  {
    var gws := Survivors(log, Gateway);
    if c.dirtyGateways != [] {
      SweptServe(Sweep(c, []), log, gws, gw, l);
      SweptKeys(Sweep(c, []), log, gws, MakeListenerKey(l));
      assert MetBySweep(c.dirtyGateways)(gw.doc.name, l);
    }
  }

  lemma FlushedServes(c: Control, log: Log, gw: Resource, l: Listener)
    requires NewestArmed(c) && GatewaysDistinct(log) && PortsDistinct(log) && Served(log, gw, l)
    requires gw.doc.name in c.dirtyGateways || Serves(c, gw, l)
    ensures Serves(Flushed(c, log), gw, l)
  {
    RefreshExact(c, log, c.dirtyRouters, gw, l);
    ReconciledServes(RefreshRouters(c, log, c.dirtyRouters), log, gw, l);
  }

  lemma FlushServes(s: System)
    requires NewestArmed(s.c) && CleanIsServed(s) && GatewaysDistinct(s.log) && PortsDistinct(s.log)
    ensures CleanIsServed(Step(s, Flush))
  {
    forall gw, l | Served(s.log, gw, l)
      ensures Serves(Step(s, Flush).c, gw, l)
    {
      FlushedServes(s.c, s.log, gw, l);
    }
  }
}
