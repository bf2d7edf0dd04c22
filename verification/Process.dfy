/** The running process: src/main.js starts the gateways, files change, and the
    timer flushes. Whatever has happened, the objects are in the state that a run of
    the system reaches, so the theorems about runs hold of them. */
module Process {
  import opened Sequences
  import opened Documents
  import opened Resources
  import opened Gateways
  import opened Reconfiguration
  import opened GatewayControl

  class Process {
    const watcher: Watcher
    /** The files at start, and what has happened since. */
    ghost var boot: Log
    ghost var events: seq<Event>

    ghost function Reached(): System
      reads this, watcher, watcher.store
    {
      System(watcher.store.log, watcher.State())
    }

    ghost predicate Valid()
      reads this, watcher, watcher.store
    {
      watcher.store.Valid() && Reached() == Run(boot, events)
    }

    constructor (watcher: Watcher)
      requires watcher.store.Valid() && watcher.State() == INITIAL
      modifies watcher
      ensures this.watcher == watcher && Valid() && boot == watcher.store.log && events == []
    {
      this.watcher := watcher;
      boot, events := watcher.store.log, [];
      new;
      watcher.StartGateways();
    }

    method OnFileChanged(path: string, data: Option<Document>)
      requires Valid()
      modifies this, watcher, watcher.store
      ensures Valid() && boot == old(boot) && events == old(events) + [Event.ChangeFile(Change(path, data))]
    {
      watcher.FileChanged(path, data);
      events := events + [Event.ChangeFile(Change(path, data))];
      assert events[..|events| - 1] == old(events);
    }

    /** The flush. If every step so far met its assumptions, every router has the
        routes of a full rebuild from the store, and is all that a full rebuild
        would make it if backends were steady too. */
    method OnTimeout()
      requires Valid()
      modifies this, watcher
      ensures Valid() && boot == old(boot) && events == old(events) + [Flush]
      ensures NewestArmed(watcher.State())
      ensures AllowedRun(boot, events) ==> AllRoutesFresh(Reached())
      ensures AllowedRun(boot, events) && BackendsSteadyRun(boot, events) ==> AllFresh(Reached())
    {
      NewestAlwaysArmed(boot, events);
      watcher.UpdateDirtyResources();
      events := events + [Flush];
      assert events[..|events| - 1] == old(events);
      FlushedRun(boot, events);
    }
  }

  /** The theorems about a run that ends in a flush. */
  lemma FlushedRun(boot: Log, events: seq<Event>)
    requires events != [] && events[|events| - 1] == Flush
    ensures NewestArmed(Run(boot, events).c)
    ensures AllowedRun(boot, events) ==> AllRoutesFresh(Run(boot, events))
    ensures AllowedRun(boot, events) && BackendsSteadyRun(boot, events) ==> AllFresh(Run(boot, events))
  {
    NewestAlwaysArmed(boot, events);
    if AllowedRun(boot, events) {
      IncrementalRoutesEqualFull(boot, events);
      if BackendsSteadyRun(boot, events) { IncrementalEqualsFull(boot, events); }
    }
  }
}
