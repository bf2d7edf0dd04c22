/** The backend cache of src/modules/backend.js and the part of the resource
    watcher that feeds it: cached backends follow their resources, and their
    updaters register themselves again each time they run. */
module Backends {
  import opened Sequences
  import opened Documents
  import opened Resources
  import opened Updaters

  /** The updater closure of one cached backend instance. */
  datatype Callback = BackendUpdate(id: nat, name: string)

  /** A cached backend: which instance it is, and the targets its balancer has. */
  datatype Instance = Instance(id: nat, targets: seq<string>)

  datatype Pool = Pool(
    cache: map<string, Instance>,
    armed: ListMap<string, Callback>,
    dirtyBackends: seq<string>,
    made: nat)

  const EMPTY := Pool(map[], map[], [], 0)

  function AddDirty(names: seq<string>, name: string): seq<string> {
    if name == "" || name in names then names else names + [name]
  }

  function NameOf(r: Option<Resource>): string {
    if r.Some? then r.value.doc.name else ""
  }

  /** The `Backend` branch of onResourceChange. */
  function Dirtied(names: seq<string>, n: Notice): seq<string> {
    var res := if n.newResource.Some? then n.newResource else n.oldResource;
    if KindOf(res) == Some(Backend) then AddDirty(AddDirty(names, NameOf(n.newResource)), NameOf(n.oldResource))
    else names
  }

  function DirtiedAll(names: seq<string>, ns: seq<Notice>): seq<string> {
    if ns == [] then names else Dirtied(DirtiedAll(names, ns[..|ns| - 1]), ns[|ns| - 1])
  }

  /** `cache.get(name)`, for a backend whose resource exists. */
  function Got(p: Pool, log: Log, name: string): Pool
    requires Bound(log, Backend, name).Some?
  {
    if name in p.cache then p
    else p.(
      cache := p.cache[name := Instance(p.made, Bound(log, Backend, name).value.doc.targets)],
      armed := AddIn(p.armed, name, BackendUpdate(p.made, name)),
      made := p.made + 1)
  }

  /** One updater runs: the instance gets the new targets and the updater is
      armed again, or the backend leaves the cache for good. */
  function Updated(p: Pool, log: Log, cb: Callback): Pool {
    var r := Bound(log, Backend, cb.name);
    if r.None? then p.(cache := p.cache - {cb.name})
    else p.(
      cache := if cb.name in p.cache && p.cache[cb.name].id == cb.id
               then p.cache[cb.name := Instance(cb.id, r.value.doc.targets)] else p.cache,
      armed := AddIn(p.armed, cb.name, cb))
  }

  function UpdatedAll(p: Pool, log: Log, cbs: seq<Callback>): Pool {
    if cbs == [] then p else Updated(UpdatedAll(p, log, cbs[..|cbs| - 1]), log, cbs[|cbs| - 1])
  }

  /** What these callbacks register while the log stands. */
  function Rearms(log: Log): Callback -> seq<Registration<string, Callback>> {
    (cb: Callback) => if Bound(log, Backend, cb.name).Some? then [AddUpdater("Backend", cb.name, cb)] else []
  }

  lemma UpdatedRegisters(p: Pool, log: Log, cb: Callback, t: Table<string, Callback>)
    requires OfKind(t, "Backend") == p.armed
    ensures OfKind(RegisteredAll(t, Rearms(log)(cb)), "Backend") == Updated(p, log, cb).armed
  {
    var r: Registration<string, Callback> := AddUpdater("Backend", cb.name, cb);
    assert [r][..0] == [];
  }

  /** So the armed callbacks develop as in any registry that runs these. */
  lemma {:induction false} UpdatedAllRegister(p: Pool, log: Log, cbs: seq<Callback>, t: Table<string, Callback>)
    requires OfKind(t, "Backend") == p.armed
    ensures OfKind(RegisteredAll(t, Made(cbs, Rearms(log))), "Backend") == UpdatedAll(p, log, cbs).armed
  {
    if cbs != [] {
      var init, cb := cbs[..|cbs| - 1], cbs[|cbs| - 1];
      UpdatedAllRegister(p, log, init, t);
      RegisteredConcat(t, Made(init, Rearms(log)), Rearms(log)(cb));
      UpdatedRegisters(UpdatedAll(p, log, init), log, cb, RegisteredAll(t, Made(init, Rearms(log))));
    }
  }

  /** `runUpdaters('Backend', name)`. */
  function RunBackendUpdaters(p: Pool, log: Log, name: string): Pool {
    if name in p.armed then UpdatedAll(p.(armed := p.armed - {name}), log, p.armed[name]) else p
  }

  function FlushedNames(p: Pool, log: Log, names: seq<string>): Pool {
    if names == [] then p else RunBackendUpdaters(FlushedNames(p, log, names[..|names| - 1]), log, names[|names| - 1])
  }

  function Flushed(p: Pool, log: Log): Pool {
    FlushedNames(p, log, p.dirtyBackends).(dirtyBackends := [])
  }

  // -------------------------------------------------------------------- runs

  datatype System = System(log: Log, p: Pool)

  datatype Event = ChangeFile(e: Change) | Get(name: string) | Flush

  /** Files parse to kinded resources or to nothing; only existing backends are requested. */
  predicate Allowed(s: System, event: Event) {
    match event
    case ChangeFile(e) => Kinded(e)
    case Get(name) => Bound(s.log, Backend, name).Some?
    case Flush => true
  }

  function Step(s: System, event: Event): System
    requires Allowed(s, event)
  {
    match event
    case ChangeFile(e) => System(s.log + [e], s.p.(dirtyBackends := DirtiedAll(s.p.dirtyBackends, NoticesOf(s.log, e))))
    case Get(name) => System(s.log, Got(s.p, s.log, name))
    case Flush => System(s.log, Flushed(s.p, s.log))
  }

  // --------------------------------------------------------------- invariant

  /** Exactly one updater is armed for a cached backend, its own; none for others. */
  ghost predicate OwnArmed(p: Pool) {
    forall name :: ArmedAt(p.armed, name) == if name in p.cache then [BackendUpdate(p.cache[name].id, name)] else []
  }

  /** The backend's resource exists and its targets are the current ones. */
  predicate Current(s: System, name: string)
    requires name in s.p.cache
  {
    Bound(s.log, Backend, name).Some? && s.p.cache[name].targets == Bound(s.log, Backend, name).value.doc.targets
  }

  ghost predicate Invariant(s: System) {
    && AllKinded(s.log) && OwnArmed(s.p)
    && (forall name :: name in s.p.cache ==> s.p.cache[name].id < s.p.made)
    && forall name :: name in s.p.cache && name !in s.p.dirtyBackends ==> Current(s, name)
  }

  lemma RunBackendUpdatersEffect(p: Pool, log: Log, name: string)
    requires OwnArmed(p)
    ensures var p', r := RunBackendUpdaters(p, log, name), Bound(log, Backend, name);
      && OwnArmed(p') && p'.dirtyBackends == p.dirtyBackends
      && (name in p'.cache <==> name in p.cache && r.Some?)
      && (name in p'.cache ==> p'.cache[name] == Instance(p.cache[name].id, r.value.doc.targets))
      && (forall k :: k != name ==> (k in p'.cache <==> k in p.cache) && (k in p.cache ==> p'.cache[k] == p.cache[k]))
  {
    assert ArmedAt(p.armed, name) == if name in p.cache then [BackendUpdate(p.cache[name].id, name)] else [];
    if name in p.armed {
      var cbs, p0 := p.armed[name], p.(armed := p.armed - {name});
      assert forall k :: k != name ==> ArmedAt(p0.armed, k) == ArmedAt(p.armed, k);
      if cbs != [] {
        assert cbs == [cbs[0]];
        assert UpdatedAll(p0, log, cbs[..0]) == p0;
        assert RunBackendUpdaters(p, log, name) == Updated(p0, log, cbs[0]);
      }
    }
  }

  lemma {:induction false} FlushedNamesEffect(p: Pool, log: Log, names: seq<string>, k: string)
    requires OwnArmed(p)
    ensures var p', r := FlushedNames(p, log, names), Bound(log, Backend, k);
      && OwnArmed(p')
      && (k in p'.cache <==> k in p.cache && (k in names ==> r.Some?))
      && (k in p'.cache ==>
        p'.cache[k] == if k in names then Instance(p.cache[k].id, r.value.doc.targets) else p.cache[k])
  {
    if names != [] {
      var init, name := names[..|names| - 1], names[|names| - 1];
      FlushedNamesEffect(p, log, init, k);
      RunBackendUpdatersEffect(FlushedNames(p, log, init), log, name);
      assert k in names <==> k in init || k == name;
    }
  }

  lemma {:induction false} FlushKeepsMade(p: Pool, log: Log, names: seq<string>)
    ensures FlushedNames(p, log, names).made == p.made
  {
    if names != [] {
      var p1, name := FlushedNames(p, log, names[..|names| - 1]), names[|names| - 1];
      FlushKeepsMade(p, log, names[..|names| - 1]);
      if name in p1.armed { UpdatesKeepMade(p1.(armed := p1.armed - {name}), log, p1.armed[name]); }
    }
  }

  lemma {:induction false} UpdatesKeepMade(p: Pool, log: Log, cbs: seq<Callback>)
    ensures UpdatedAll(p, log, cbs).made == p.made
  {
    if cbs != [] { UpdatesKeepMade(p, log, cbs[..|cbs| - 1]); }
  }

  lemma FlushMakesCurrent(s: System)
    requires Invariant(s)
    ensures var s' := Step(s, Flush);
      Invariant(s') && forall name :: name in s'.p.cache ==> Current(s', name)
  {
    FlushedNamesEffect(s.p, s.log, s.p.dirtyBackends, "");
    FlushKeepsMade(s.p, s.log, s.p.dirtyBackends);
    forall name | name in Step(s, Flush).p.cache
      ensures Current(Step(s, Flush), name) && Step(s, Flush).p.cache[name].id < s.p.made
    {
      FlushedNamesEffect(s.p, s.log, s.p.dirtyBackends, name);
    }
  }

  lemma {:induction false} DirtiedAllMembers(names: seq<string>, ns: seq<Notice>)
    ensures forall name :: name in names ==> name in DirtiedAll(names, ns)
    ensures forall i :: 0 <= i < |ns| ==> forall name :: name in Dirtied([], ns[i]) ==> name in DirtiedAll(names, ns)
  {
    if ns != [] {
      DirtiedAllMembers(names, ns[..|ns| - 1]);
    }
  }

  /** A change that alters what a name is bound to marks the name. */
  lemma RebindingIsMarked(s: System, e: Change, name: string)
    requires AllKinded(s.log) && Allowed(s, ChangeFile(e))
    requires Bound(s.log + [e], Backend, name) != Bound(s.log, Backend, name)
    ensures name in Step(s, ChangeFile(e)).p.dirtyBackends
  {
    var log', ns := s.log + [e], NoticesOf(s.log, e);
    assert log'[..|s.log|] == s.log;
    var old', cur := FileAt(s.log, e.path), Loaded(log');
    if old'.Some? { FileAtIsLive(s.log, e.path, old'.value); assert Kinded(s.log[old'.value.id]); }
    DirtiedAllMembers(s.p.dirtyBackends, ns);
    if Named(cur, Backend, name) {
      assert name in Dirtied([], ns[|ns| - 1]);
    } else {
      assert Named(old', Backend, name);
      assert name in Dirtied([], ns[0]);
    }
  }

  lemma StepKeepsInvariant(s: System, event: Event)
    requires Invariant(s) && Allowed(s, event)
    ensures Invariant(Step(s, event))
  {
    match event
    case Flush => FlushMakesCurrent(s);
    case Get(name) =>
      assert ArmedAt(s.p.armed, name) == if name in s.p.cache then [BackendUpdate(s.p.cache[name].id, name)] else [];
    case ChangeFile(e) =>
      DirtiedAllMembers(s.p.dirtyBackends, NoticesOf(s.log, e));
      forall name | name in s.p.cache && name !in Step(s, event).p.dirtyBackends
        ensures Current(Step(s, event), name)
      {
        assert Current(s, name);
        if Bound(s.log + [e], Backend, name) != Bound(s.log, Backend, name) { RebindingIsMarked(s, e, name); }
      }
  }

  /** The state after a run, when every step of it is allowed. */
  function RunOn(s: System, events: seq<Event>): Option<System> {
    if events == [] then Some(s)
    else
      var s' := RunOn(s, events[..|events| - 1]);
      if s'.Some? && Allowed(s'.value, events[|events| - 1]) then Some(Step(s'.value, events[|events| - 1])) else None
  }

  function Run(boot: Log, events: seq<Event>): Option<System> {
    RunOn(System(boot, EMPTY), events)
  }

  /** In every reachable state each cached backend has exactly one armed updater,
      its own, and after a flush every cached backend has the targets of its
      current resource, those without a resource having left the cache. */
  lemma {:induction false} CachedBackendsFollow(boot: Log, events: seq<Event>)
    requires AllKinded(boot) && Run(boot, events).Some?
    ensures var s := Run(boot, events).value;
      && Invariant(s)
      && (events != [] && events[|events| - 1] == Flush ==> forall name :: name in s.p.cache ==> Current(s, name))
  {
    if events != [] {
      CachedBackendsFollow(boot, events[..|events| - 1]);
      var s := Run(boot, events[..|events| - 1]).value;
      StepKeepsInvariant(s, events[|events| - 1]);
      if events[|events| - 1] == Flush { FlushMakesCurrent(s); }
    }
  }

  // -------------------------------------------------------- a held instance

  /** The cached instance of the name is this one. */
  predicate Held(p: Pool, name: string, id: nat) {
    name in p.cache && p.cache[name].id == id
  }

  /** The backend has a resource at every flush of the run. */
  ghost predicate BoundAtFlushes(s: System, events: seq<Event>, name: string) {
    forall n :: 0 <= n < |events| && events[n] == Flush ==>
      RunOn(s, events[..n]).Some? && Bound(RunOn(s, events[..n]).value.log, Backend, name).Some?
  }

  /** A step keeps the instance in the cache unless it is a flush that finds no
      resource for it. */
  lemma StepKeepsHeld(s: System, event: Event, name: string, id: nat)
    requires Invariant(s) && Allowed(s, event) && id < s.p.made
    ensures Step(s, event).p.made >= s.p.made
    ensures Held(Step(s, event).p, name, id) <==>
      Held(s.p, name, id) && (event == Flush ==> Bound(s.log, Backend, name).Some?)
  {
    if event == Flush {
      FlushedNamesEffect(s.p, s.log, s.p.dirtyBackends, name);
      FlushKeepsMade(s.p, s.log, s.p.dirtyBackends);
    }
  }

  lemma OneMoreFlush(s: System, events: seq<Event>, name: string)
    requires events != [] && RunOn(s, events).Some?
    ensures var init, event := events[..|events| - 1], events[|events| - 1];
      BoundAtFlushes(s, events, name) <==>
        BoundAtFlushes(s, init, name) && (event == Flush ==> Bound(RunOn(s, init).value.log, Backend, name).Some?)
  {
    var init := events[..|events| - 1];
    assert forall n :: 0 <= n < |init| ==> init[..n] == events[..n] && init[n] == events[n];
  }

  lemma OwnCallback(p: Pool, name: string, id: nat, k: string)
    requires OwnArmed(p)
    ensures BackendUpdate(id, name) in ArmedAt(p.armed, k) <==> k == name && Held(p, name, id)
  {
    assert ArmedAt(p.armed, k) == if k in p.cache then [BackendUpdate(p.cache[k].id, k)] else [];
  }

  /** An instance that a router holds stays the cached one, and keeps its updater
      armed, if and only if its backend has a resource at every flush, whatever
      else happens in between. */
  lemma {:induction false} HeldExactly(s: System, events: seq<Event>, name: string, id: nat)
    requires Invariant(s) && Held(s.p, name, id) && RunOn(s, events).Some?
    ensures Invariant(RunOn(s, events).value) && RunOn(s, events).value.p.made >= s.p.made
    ensures Held(RunOn(s, events).value.p, name, id) <==> BoundAtFlushes(s, events, name)
    ensures BackendUpdate(id, name) in ArmedAt(RunOn(s, events).value.p.armed, name) <==>
      BoundAtFlushes(s, events, name)
  {
    if events != [] {
      var init, event := events[..|events| - 1], events[|events| - 1];
      HeldExactly(s, init, name, id);
      StepKeepsInvariant(RunOn(s, init).value, event);
      StepKeepsHeld(RunOn(s, init).value, event, name, id);
      OneMoreFlush(s, events, name);
    }
    OwnCallback(RunOn(s, events).value.p, name, id, name);
  }

  /** So after a flush it has the targets of its file, or it is not the cached one
      any more and no updater of its own is armed under any name. */
  lemma HeldFollowsExactly(s: System, events: seq<Event>, name: string, id: nat)
    requires Invariant(s) && Held(s.p, name, id) && RunOn(s, events).Some?
    requires events != [] && events[|events| - 1] == Flush
    ensures var s' := RunOn(s, events).value;
      if BoundAtFlushes(s, events, name) then Held(s'.p, name, id) && Current(s', name)
      else !Held(s'.p, name, id) && forall k :: BackendUpdate(id, name) !in ArmedAt(s'.p.armed, k)
  {
    var init := events[..|events| - 1];
    HeldExactly(s, events, name, id);
    HeldExactly(s, init, name, id);
    FlushMakesCurrent(RunOn(s, init).value);
    var p := RunOn(s, events).value.p;
    forall k
      ensures BackendUpdate(id, name) in ArmedAt(p.armed, k) ==> Held(p, name, id)
    {
      OwnCallback(p, name, id, k);
    }
  }

  const BACKEND := BLANK.(kind := Some(Backend), name := "b")

  lemma BindingComesAndGoes()
    ensures var create, delete := Change("f", Some(BACKEND)), Change("f", None);
      && Bound([] + [create], Backend, "b").Some?
      && Bound([] + [create] + [delete], Backend, "b") == None
      && Bound([] + [create] + [delete] + [create], Backend, "b").Some?
  {
    var create, delete := Change("f", Some(BACKEND)), Change("f", None);
    var l0: Log := [];
    var l1 := l0 + [create];
    var l2 := l1 + [delete];
    assert l1[..|l1| - 1] == l0 && l2[..|l2| - 1] == l1 && (l2 + [create])[..|l2|] == l2;
  }

  lemma RunOneMore(s: System, events: seq<Event>, event: Event)
    requires RunOn(s, events).Some? && Allowed(RunOn(s, events).value, event)
    ensures RunOn(s, events + [event]) == Some(Step(RunOn(s, events).value, event))
  {
    assert (events + [event])[..|events|] == events;
  }

  function GoneAndBack(create: Change, delete: Change): seq<Event> {
    [] + [ChangeFile(delete)] + [Flush] + [ChangeFile(create)] + [Flush]
  }

  lemma GoneAndBackRun(s: System, create: Change, delete: Change)
    requires Kinded(create) && Kinded(delete)
    ensures RunOn(s, GoneAndBack(create, delete)).Some?
    ensures RunOn(s, GoneAndBack(create, delete)).value.log == s.log + [delete] + [create]
    ensures RunOn(s, GoneAndBack(create, delete)[..1]) == Some(Step(s, ChangeFile(delete)))
  {
    var e0: seq<Event> := [];
    var e1 := e0 + [ChangeFile(delete)];
    var e2 := e1 + [Flush];
    RunOneMore(s, e0, ChangeFile(delete));
    RunOneMore(s, e1, Flush);
    RunOneMore(s, e2, ChangeFile(create));
    RunOneMore(s, e2 + [ChangeFile(create)], Flush);
    assert GoneAndBack(create, delete)[..1] == e1;
  }

  /** An instance whose file goes at one flush and is back at the next. */
  lemma GoneAndBackLosesHeld(s: System, create: Change, delete: Change, name: string, id: nat)
    requires Invariant(s) && Held(s.p, name, id) && Kinded(create) && Kinded(delete)
    requires Bound(s.log + [delete], Backend, name) == None && Bound(s.log + [delete] + [create], Backend, name).Some?
    ensures RunOn(s, GoneAndBack(create, delete)).Some?
    ensures var s' := RunOn(s, GoneAndBack(create, delete)).value;
      && !Held(s'.p, name, id) && (forall k :: BackendUpdate(id, name) !in ArmedAt(s'.p.armed, k))
      && Allowed(s', Get(name)) && name in Step(s', Get(name)).p.cache && !Held(Step(s', Get(name)).p, name, id)
  {
    var events := GoneAndBack(create, delete);
    GoneAndBackRun(s, create, delete);
    assert events[1] == Flush && !BoundAtFlushes(s, events, name);
    HeldFollowsExactly(s, events, name, id);
    HeldExactly(s, events, name, id);
  }

  /** The first use of a backend from start makes instance 0. */
  lemma FirstUse(create: Change, name: string)
    requires Kinded(create) && Bound([] + [create], Backend, name).Some?
    ensures var used := [] + [ChangeFile(create)] + [Get(name)];
      && Run([], used).Some? && Invariant(Run([], used).value)
      && Run([], used).value.log == [] + [create] && Held(Run([], used).value.p, name, 0)
  {
    var e0: seq<Event> := [];
    RunOneMore(System([], EMPTY), e0, ChangeFile(create));
    RunOneMore(System([], EMPTY), e0 + [ChangeFile(create)], Get(name));
    CachedBackendsFollow([], e0 + [ChangeFile(create)] + [Get(name)]);
  }

  /** As a concrete run from start: the file is written, the backend is used, the
      file goes at one flush and is back at the next. Instance 0, made by the first
      use, is never cached again; the next use makes another. */
  lemma RecreatedBackendRun()
    ensures var create, delete := Change("f", Some(BACKEND)), Change("f", None);
      var used := Run([], [] + [ChangeFile(create)] + [Get("b")]);
      && used.Some? && Held(used.value.p, "b", 0)
      && RunOn(used.value, GoneAndBack(create, delete)).Some?
      && var s := RunOn(used.value, GoneAndBack(create, delete)).value;
         && !Held(s.p, "b", 0) && (forall k :: BackendUpdate(0, "b") !in ArmedAt(s.p.armed, k))
         && Allowed(s, Get("b")) && "b" in Step(s, Get("b")).p.cache && !Held(Step(s, Get("b")).p, "b", 0)
  {
    var create, delete := Change("f", Some(BACKEND)), Change("f", None);
    BindingComesAndGoes();
    FirstUse(create, "b");
    GoneAndBackLosesHeld(Run([], [] + [ChangeFile(create)] + [Get("b")]).value, create, delete, "b", 0);
  }

  // --------------------------------------------------------------- the class

  /** The same in place. */
  class BackendCache {
    const store: ResourceStore
    var cache: map<string, Instance>
    var armed: ListMap<string, Callback>
    var dirtyBackends: seq<string>
    var made: nat

    function State(): Pool
      reads this
    {
      Pool(cache, armed, dirtyBackends, made)
    }

    constructor (store: ResourceStore)
      ensures this.store == store && State() == EMPTY
    {
      this.store := store;
      cache, armed, dirtyBackends, made := map[], map[], [], 0;
    }

    method OnResourceChange(n: Notice)
      modifies this`dirtyBackends
      ensures dirtyBackends == Dirtied(old(dirtyBackends), n)
    {
      var res := if n.newResource.Some? then n.newResource else n.oldResource;
      if res.Some? && res.value.doc.kind == Some(Backend) {
        var newName, oldName := NameOf(n.newResource), NameOf(n.oldResource);
        if newName != "" && newName !in dirtyBackends { dirtyBackends := dirtyBackends + [newName]; }
        if oldName != "" && oldName !in dirtyBackends { dirtyBackends := dirtyBackends + [oldName]; }
      }
    }

    method Get(name: string) returns (backend: Instance)
      requires store.Valid() && Bound(store.log, Backend, name).Some?
      modifies this
      ensures State() == Got(old(State()), store.log, name)
      ensures name in cache && backend == cache[name]
    {
      if name !in cache {
        var r := store.Find(Backend, name);
        cache := cache[name := Instance(made, r.value.doc.targets)];
        armed := AddIn(armed, name, BackendUpdate(made, name));
        made := made + 1;
      }
      backend := cache[name];
    }

    /** The updater closure of an instance. */
    method Update(cb: Callback)
      requires store.Valid()
      modifies this
      ensures State() == Updated(old(State()), store.log, cb)
    {
      var r := store.Find(Backend, cb.name);
      if r.Some? {
        if cb.name in cache && cache[cb.name].id == cb.id {
          cache := cache[cb.name := Instance(cb.id, r.value.doc.targets)];
        }
        armed := AddIn(armed, cb.name, cb);
      } else {
        cache := cache - {cb.name};
      }
    }

    method RunUpdaters(name: string)
      requires store.Valid()
      modifies this
      ensures State() == RunBackendUpdaters(old(State()), store.log, name)
    {
      if name in armed {
        var list := armed[name];
        armed := armed - {name};
        ghost var detached := State();
        for i := 0 to |list|
          invariant State() == UpdatedAll(detached, store.log, list[..i])
        {
          assert list[..i + 1][..i] == list[..i];
          Update(list[i]);
        }
        assert list[..|list|] == list;
      }
    }

    /** The part of updateDirtyResources that concerns backends. */
    method UpdateDirtyBackends()
      requires store.Valid()
      modifies this
      ensures State() == Flushed(old(State()), store.log)
    {
      var names := dirtyBackends;
      for i := 0 to |names|
        invariant State() == FlushedNames(old(State()), store.log, names[..i])
      {
        assert names[..i + 1][..i] == names[..i];
        RunUpdaters(names[i]);
      }
      assert names[..|names|] == names;
      dirtyBackends := [];
    }
  }
}
