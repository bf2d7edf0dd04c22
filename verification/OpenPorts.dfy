/** Which ports are open, in terms of the addresses, port numbers and protocols
    that gateways declare, without the keys under which they are kept. */
module OpenPorts {
  import opened Sequences
  import opened Documents
  import opened Resources
  import opened Gateways
  import opened Reconfiguration
  import opened Listeners

  /** The address is the listener's, where an empty one means all addresses. */
  ghost predicate Binds(l: Listener, address: string) {
    address != "" && (l.address == address || (l.address == "" && address == "0.0.0.0"))
  }

  /** The listener has this port number, or no port if there is none. */
  ghost predicate HasPort(l: Listener, port: Option<nat>) {
    match port
    case None => l.port == NoPort
    case Some(n) => l.port == Number(n) || l.port == Spelled(n)
  }

  /** Two listeners share a key exactly when they bind the same address, agree in
      their port numbers or both lack one, and are both UDP or neither. */
  lemma SameKeyExactly(a: Listener, b: Listener)
    ensures MakeListenerKey(a) == MakeListenerKey(b) <==>
      && (exists address :: Binds(a, address) && Binds(b, address))
      && (exists port :: HasPort(a, port) && HasPort(b, port))
      && (a.protocol == UDP <==> b.protocol == UDP)
  {
    var address, port := MakeListenerKey(a).address, MakeListenerKey(a).port;
    assert Binds(a, address) && HasPort(a, port);
  }

  lemma KeyOfPort(l: Listener, address: string, port: Option<nat>, udp: bool)
    ensures MakeListenerKey(l) == ListenerKey(address, port, udp) <==>
      Binds(l, address) && HasPort(l, port) && (udp <==> l.protocol == UDP)
  {
  }

  /** A named gateway in the store has a listener for the port, of a protocol that
      passes. */
  ghost predicate Asked(log: Log, pass: Protocol -> bool, address: string, port: Option<nat>, udp: bool) {
    exists gw, l ::
      && gw in Survivors(log, Gateway) && gw.doc.name != "" && l in gw.doc.listeners
      && Binds(l, address) && HasPort(l, port) && (udp <==> l.protocol == UDP) && pass(l.protocol)
  }

  function AnyProtocol(): Protocol -> bool {
    p => true
  }

  function KnownProtocol(): Protocol -> bool {
    p => p in {HTTP, HTTPS, TLSTerminate, TLSPassthrough, TCP, UDP, Dubbo}
  }

  lemma DeclaredIsAsked(log: Log, address: string, port: Option<nat>, udp: bool)
    ensures var gws, k := Survivors(log, Gateway), ListenerKey(address, port, udp);
      && (Declares(gws, AnyListener(), k) <==> Asked(log, AnyProtocol(), address, port, udp))
      && (Declares(gws, AcceptedListener(), k) <==> Asked(log, KnownProtocol(), address, port, udp))
  {
    forall gw: Resource, l: Listener
      ensures MakeListenerKey(l) == ListenerKey(address, port, udp) <==>
        Binds(l, address) && HasPort(l, port) && (udp <==> l.protocol == UDP)
      ensures AnyListener()(gw.doc.name, l) == AnyProtocol()(l.protocol)
      ensures AcceptedListener()(gw.doc.name, l) == KnownProtocol()(l.protocol)
    {
      KeyOfPort(l, address, port, udp);
    }
  }

  /** At start a port is open exactly when a listener of one of the seven known
      protocols asks for it. */
  lemma StartOpensExactly(boot: Log, address: string, port: Option<nat>, udp: bool)
    ensures ListenerKey(address, port, udp) in Boot(boot).c.open <==>
      Asked(boot, KnownProtocol(), address, port, udp)
  {
    StartedAllKeys(boot, Survivors(boot, Gateway));
    DeclaredIsAsked(boot, address, port, udp);
  }

  /** After every flush of a run in which all listeners are accepted, a port is
      open exactly when a listener asks for it. */
  lemma FlushOpensExactly(boot: Log, events: seq<Event>, address: string, port: Option<nat>, udp: bool)
    requires AcceptedRun(boot, events) && events != [] && events[|events| - 1] == Flush
    ensures var s := Run(boot, events);
      ListenerKey(address, port, udp) in s.c.open <==> Asked(s.log, AnyProtocol(), address, port, udp)
  {
    OpenPortsTrackGateways(boot, events);
    DeclaredIsAsked(Run(boot, events).log, address, port, udp);
  }
}
