# A verified model of FGW's state machines and table compilers

FGW is a gateway whose logic is JavaScript on the Pipy runtime, with a few C
modules. This Dafny project models the parts that keep state or compile tables,
and proves what they are for:

* **Live reconfiguration** (`Documents`, `Resources`, `Updaters`, `Gateways`,
  `Reconfiguration`, `Views`, `ReconfigurationLimits`, `Listeners`, `OpenPorts`, `Serving`,
  `Ports`, `GatewayControl`, `Process`, `Backends`). File changes go into a store and mark gateways and
  routers dirty; a flush rebuilds what is dirty. The state of the store is described
  by the log of file changes since the start. `View(log, gateway, listener)` is what a
  full rebuild would compile a router from: its listener, its routes in order, the
  policies on their backends, and the backend references that resolve. The main theorem is
  that every run of changes that ends in a flush leaves every router with the routes, in
  order, and the policies of its `View`; and with all of its `View` exactly when the routers
  that the flush leaves alone resolve the backends that they resolved when compiled. The port
  of a listener runs that router, unless the listener passes TLS through.
* **The HTTP rule compiler** (`Priorities`, `Matching`, `Dispatch`, `DispatchProofs`,
  `DispatchLimits`, `MatchLaws`, `Hosts`, `HostLaws`). Matches are ranked by padded strings, sorted and split
  into path, method and slow tables, from which checks are dropped. The reference is a
  linear scan of the ranked matches with every check in place.
* **Retry and failover** (`StatusCodes`, `RouteRetry`, `Failover`).
* **Breakers, health checks and the backlog counter** (`Ratios`, `CircuitBreaker`,
  `SharedBreaker`, `ServiceHealth`, `BackendHealth`, `Backlog`).
* **The Modbus record list** (`ModbusRecords`, `RecordLaws`), printed in JavaScript and parsed in C.

`Views`, `OpenPorts`, `MatchLaws`, `HostLaws` and `RecordLaws` say what the definitions that the
theorems rest on mean, in terms of the documents, requests and texts alone.

Objects that the source updates in place are classes (`ResourceStore`, `Registry`,
`Watcher`, `Process`, `BackendCache`, `Session`, `Breaker`, `Filter`, `Service`, `Checker`,
`RateLimit`, `Parser`). Their methods are proved against functions of the old state or
of the history of events, and the theorems are proved about those functions.

Callbacks run to completion, so every callback is one step. Interleavings are sequences
of steps: file change and flush; request, response, refresh and quota refill; outcome and
tick; arrival, response and stream end. Times are arguments.

## What the model shows about the code

Each of these is proved, with a condition that is necessary and sufficient where one is
named, or with an input that shows it.

* A router that was fresh before a batch of changes is stale after the flush exactly when
  the batch marked neither its gateway nor the router and yet changed its view, or changed a
  document of kind `Route` (`BatchThenFlushExact`). The former happens for a file that is
  overwritten by one without a kind, a route reference that omits its kind or writes its port
  as a string, a port shared by a TCP and a UDP listener, and a backend that is created in a
  later batch than the route that names it, which keeps answering 500. In one batch with the
  route the backend is found (`RouteThenBackendIsFresh`).
* A document whose kind is spelled `Route` is no resource, but when it changes or goes, the
  flush calls the updaters of all routers with it in place of their listener and routes; TCP
  and UDP routers then have no route (`RouteDocumentEmpties`, `RouteDocumentRun`).
* The pipeline of a TLS passthrough listener keeps the router function it was built with, so a
  route that is added later is compiled and never met by traffic (`PassthroughRun`). After a
  flush its port runs the full rebuild exactly when its gateway was dirty in that flush or the
  view with which the listener was last made is still current
  (`PassthroughMeetsFullRebuildExactly`).
* A listener that `makeListener` refuses is nevertheless listed as current once another
  gateway is dirty (`RefusedListenerIsListed`). In runs of files with a kind that is the only
  way in which the list and the open ports differ after a flush of dirty gateways
  (`ReconciledExactlyOverRuns`).
* A router that holds a backend instance follows the backend's file exactly as long as the
  backend has a resource at every flush (`HeldExactly`, `HeldFollowsExactly`); a file that goes
  at one flush and is back at the next leaves it with an instance that nothing updates
  (`RecreatedBackendRun`).
* Swapping two resource names over several file changes loses an index entry
  (`NameSwapLosesBinding`); names that stay unique at every step never do, and only they
  (`AgreementOverRuns`).
* On equal ranks the later-declared match is tried first, where the Kubernetes Gateway API
  says the first one (`LaterFirstUnlessOutranked`). The model follows the code.
* Ranks are padded to three digits, so the order of lengths is kept exactly below 1000
  (`PaddingKeepsOrderExactly`). A four-digit length sorts behind one of at most three digits
  exactly when it is the smaller number without its last digit (`LongLengthLosesExactly`).
* For matches that name their path type, with no Exact path that ends in a star segment and no
  method spelled as a star, the dispatcher departs from the linear scan exactly
  where a hit of the path table hides a longer spelling of its prefix in the other bucket,
  or, without such a hit, where a path match was passed over or a slow match outranks the
  method hit (`AgreesExactly`).
* Names of query parameters are made small like those of headers, so a condition on `userId` is
  not met by the parameter of that name (`MixedCaseParameterIsNotMet`).
* A match whose path names no type, an Exact path that ends in a star segment, and the
  method `*` are accepted without the check that was dropped (`DispatchSoundExactly`).
* `pjs/common/health-check.js` counts failures since the last recovery, while
  docs/README.md (line 314) speaks of consecutive failures. The two agree for a target that
  goes down exactly when no success interrupted its failures since the last recovery
  (`GoesDownAsDocumentedExactly`), and in all runs exactly when maxFails is 1
  (`DocumentedExactly`). `src/modules/health-check.js` does count consecutive failures.
* The failover delays of all runs are within ten times the base, and never fall within a phase,
  exactly when at most 31 retries are allowed or no status is retried (`DelaysInOrderExactly`);
  the delay at retry 32 is negative.
* Late responses can open a breaker that has no request counted. In runs in which every
  response answers an admitted request, that is ruled out exactly when only ratio thresholds
  are set (`OpeningNeedsRequestsExactly`).
* In the circuit-break filter `checkInterval` bounds the gap between responses, not the age of
  the statistics: they cover all responses since the last trip or gap (`TotalSinceReset`).
* The Modbus parser restores its buffer exactly when fewer than a hundred records were
  printed; the newline behind the hundredth stays overwritten (`ParseUndoesPrint`).
  A line without a type takes that of the line before it (`MissingTypeIsInherited`).

## Model

| member | source | states |
|---|---|---|
| Resources.SurvivorsAreFiles | src/resources.js:99-143 | a kind's list holds exactly the files loaded last under each path whose resource is of that kind, by identity |
| Resources.SurvivorsStep | src/resources.js:99-143 | a change takes the path's old resource out of its kind's list and puts the new one at the end of its kind's list; other entries keep their order |
| Resources.FileAtIsLive | src/resources.js:99-120 | the file table maps a path to the change that nothing later overwrote |
| Resources.AgreementStep | src/resources.js:122-143 | if index and list of a kind agree, they agree after a change exactly when the loaded name is not held by another file and a removed name is not either |
| Resources.AgreementOverRuns | src/resources.js:99-165 | over a whole run: find returns precisely the one list entry of a name, in every state, exactly when names within the kind are free at every step |
| Resources.NameSwapLosesBinding | src/resources.js:122-143 | four file changes that swap two names end with a listed resource that find does not return |
| Resources.ResourceStore.AppendResource | src/resources.js:122-130 | appends to the list of its kind, binds its name if it has one, and leaves all other kinds and names alone |
| Resources.ResourceStore.RemoveResource | src/resources.js:132-143 | takes the object out of the list of its kind and unbinds its name, whoever holds it |
| Resources.ResourceStore.RecordFile | src/resources.js:104-119 | the file table and the notices in all four cases: update, change of kind, create, delete |
| Resources.ResourceStore.ChangeFile | src/resources.js:99-120 | the store stays the one that the log describes, with the change appended, and the notices sent are those of the log |
| Updaters.Registry.SetUpdater | src/resources.js:167-170 | replaces the callbacks of a key by the given one, or by none |
| Updaters.Registry.AddUpdater | src/resources.js:172-176 | appends a callback unless it is there, keeping the order |
| Updaters.Registry.RunUpdaters | src/resources.js:187-197 | with a key: calls exactly the callbacks armed when it began, in order and once each, though they register again while it runs; the table then holds only what they registered |
| Updaters.Registry.RunAllUpdaters | src/resources.js:178-186 | without a key: detaches the kind and calls the callbacks of all its keys, each key once |
| Updaters.SelfRearming | src/resources.js:172-197 | if each callback of a key registers itself again, the key ends with the same callbacks in the same order and no other key changes |
| Updaters.RegisteredKeepsDistinct | src/resources.js:167-176 | no registration makes a callback armed twice under a key |
| Gateways.RunCallbacksRegister | src/modules/router-http.js:19-28 | the route callbacks of the watcher leave the armed lists that the generic registry would have after running them |
| Backends.UpdatedAllRegister | src/modules/backend.js:125-138 | the same for backend callbacks, which register again only if the resource exists |
| Reconfiguration.RunRouteUpdatersEffect | src/modules/router-http.js:19-28 | running the updaters of a router key rebuilds the newest router under it from the given view, leaves it armed once, and touches no other router |
| Reconfiguration.MakeListenerEffect | src/gateway.js:25-107 | opening a listener installs a new armed router with its full view under its key and leaves all other routers as they are |
| Reconfiguration.RefreshExact | src/gateway.js:290-310 | after the refresh of all dirty routers an armed router has its full view exactly if some dirty entry covers it, and is unchanged otherwise |
| Reconfiguration.SweptExact | src/gateway.js:320-337 | after the sweep a router has its full view if its gateway is dirty and is unchanged otherwise |
| Reconfiguration.ReconciledExact | src/gateway.js:320-349 | the sweep makes exactly the routers of dirty gateways anew, pipelines included |
| Reconfiguration.DocumentsEmptyArmed | src/gateway.js:351-355 | if no updater throws, a changed document of kind Route recompiles every armed router without routes and arms it again, and changes nothing else |
| Reconfiguration.FlushExact | src/gateway.js:279-362 | one flush gives a router its full view exactly if its gateway is dirty or a dirty entry covers it while armed, then empties it if a document of kind Route changed; its pipeline is built anew exactly if its gateway is dirty |
| Reconfiguration.FlushKeepsArmed | src/gateway.js:279-362 | every armed router key keeps exactly one callback, that of its newest router |
| Reconfiguration.NewestAlwaysArmed | src/modules/router-http.js:19-28 | in every state of every run, each live router key has exactly one armed callback, its newest |
| Reconfiguration.ChangeMarks | src/gateway.js:181-265 | a change never unmarks what is dirty, and marks the gateway, the route references or the governed routes of each resource it sent a notice about |
| Reconfiguration.KindedIsNoticed | src/resources.js:99-120 | for files that parse to kinded resources or nothing, every resource added or removed is in a notice |
| Reconfiguration.ChangeAddsNoDocument | src/gateway.js:218-220 | without documents of kind Route no change adds one to those the flush passes to the routers |
| Reconfiguration.RoutesUnchanged | src/gateway.js:131-176 | a change that touches no attached route and no policy on its backends leaves the routes, in order, and policies of a router as they were |
| Reconfiguration.ViewUnchanged | src/gateway.js:131-176 | one that makes none of its backends appear or disappear either leaves its full view as it was |
| Reconfiguration.AffectedIsCovered | src/gateway.js:181-265 | a change that affects the routes or policies of a router of a clean gateway leaves a dirty entry that covers it |
| Reconfiguration.LeftAloneIsUntouched | src/gateway.js:181-265 | a router that the next flush leaves alone after a change was left alone before it, and the change touched neither its routes nor its policies |
| Reconfiguration.ChangeKeepsInvariant | src/gateway.js:181-265 | a file change keeps every router of every clean gateway armed, and fresh in its routes or marked; it may create and delete any backend |
| Reconfiguration.ChangeKeepsResolution | src/gateway.js:181-265 | if backends appear and disappear only under marked routers, the unmarked ones keep resolving as they were compiled |
| Reconfiguration.FlushMakesFresh | src/gateway.js:279-362 | a flush makes the routes and policies of every router fresh, and everything exactly when the routers it leaves alone resolve as they were compiled |
| Reconfiguration.BootIsFresh | src/gateway.js:12-23 | after start every router of every gateway is armed and fresh |
| Reconfiguration.RunKeepsInvariant | src/gateway.js:181-362 | the invariant holds after every run of changes and flushes |
| Reconfiguration.IncrementalRoutesEqualFull | src/gateway.js:131-362 | the main theorem: after any allowed run, which has no documents of kind Route, that ends in a flush, every router on the current store has the listener, the routes in order and the policies of its full rebuild |
| Reconfiguration.IncrementalEqualsFullExactly | src/gateway.js:131-362 | resolved backends included, all routers equal their full rebuild if and only if, before the flush, the routers that it leaves alone resolve as they were compiled |
| Reconfiguration.IncrementalEqualsFull | src/gateway.js:131-362 | they do in every run in which backends appear and disappear only under routers that are marked |
| Views.RoutesByKind | src/gateway.js:131-159 | the routes of a view are the attached ones of HTTPRoute and then GRPCRoute for HTTP and HTTPS, of TCPRoute for TCP and terminated TLS, of TLSRoute for passthrough, of UDPRoute and of DubboRoute, each kind in the order of its list |
| Views.RouteBelongsExactly | src/gateway.js:131-176 | a resource is a route of the view exactly when it is in the store, of a kind that the protocol takes, and has a reference of no kind or kind Gateway with the name of the gateway that gives the section name of the listener or its port, where ports agree if both are absent or have the same number |
| Views.CompiledExactly | src/gateway.js:131-362 | the main theorem on single routes: after any allowed run that ends in a flush, the newest router of a watched listener was compiled from a resource exactly when that belongs to the listener in those terms |
| Views.PolicyAppliesExactly | src/gateway.js:247-265 | the policies of a view are the load-balancing and TLS policies in the store with a target of kind Backend that a route of the view names |
| Views.PolicyMarksExactly | src/gateway.js:247-265 | a changed policy marks the references of exactly the stored routes, of any of the six kinds, that name a backend which it targets |
| Views.BackendResolvesExactly | src/modules/router-http.js:451-456 | a backend name resolves in a view exactly when some route of the view names it and the index of backends holds it |
| ReconfigurationLimits.BatchMarks | src/gateway.js:181-265 | a batch of changes only adds marks, and a gateway it does not mark was there before |
| ReconfigurationLimits.BatchThenFlushExact | src/gateway.js:181-362 | a router that was fresh is fresh after any batch of changes and a flush if and only if no document of kind Route changed, and its gateway or the router was marked or the whole batch left its view as it was; no updater throws |
| ReconfigurationLimits.ChangeThenFlushExact | src/gateway.js:181-362 | the same for one change |
| ReconfigurationLimits.RouteInBatchIsFresh | src/gateway.js:191-200 | a batch that loads a route targeted at a listener ends with that listener's router fresh, whatever comes next in the batch |
| ReconfigurationLimits.RouteThenBackendIsFresh | src/gateway.js:222-224 | in particular a route and then its backend in one batch, as a concrete run |
| ReconfigurationLimits.KindlessOverwriteGoesStale | src/resources.js:113-115 | overwriting an attached route with a document without a kind leaves the router stale |
| ReconfigurationLimits.UntargetedRouteGoesStale | src/gateway.js:290-310 | a new route none of whose references the flush resolves to the listener it attaches to leaves the router stale |
| ReconfigurationLimits.ReferenceWithoutKindGoesStale | src/gateway.js:292-292 | a reference that omits its kind attaches, but its dirty entry is skipped |
| ReconfigurationLimits.SpelledPortGoesStale | src/gateway.js:298-298 | a port written as a string attaches by loose comparison and is not found by the strict one |
| ReconfigurationLimits.SharedPortGoesStale | src/gateway.js:295-303 | of two listeners with one port number the flush refreshes only the first |
| ReconfigurationLimits.LateBackendGoesStale | src/modules/router-http.js:454-456 | a backend created after the router that names it leaves the router compiled without it |
| ReconfigurationLimits.LateBackendRun | src/modules/backend-selector.js:46-52 | the same as a concrete run from start: gateway, route, then backend |
| ReconfigurationLimits.RouteDocumentEmpties | src/resources.js:181-186 | a change or removal of a document of kind Route leaves every armed router without routes, as long as no updater throws |
| ReconfigurationLimits.RouteDocumentRun | src/modules/router-tcp.js:34-45 | the same as a concrete run with a TCP listener: the route is still attached and the router has lost it |
| Listeners.FlushKeys | src/gateway.js:320-349 | which keys are listed and which are open after a flush with dirty gateways, key by key |
| Listeners.ReconciledExactly | src/gateway.js:320-349 | after such a flush the list equals the open ports if and only if no refused listener of a clean gateway has a closed port |
| Listeners.RunKeepsPorts | src/gateway.js:12-349 | in every run of kinded files, with refused listeners or not, every open port is listed and every accepted listener of a clean gateway is open |
| Listeners.ReconciledExactlyOverRuns | src/gateway.js:320-349 | so in every such run a flush with dirty gateways ends with the list equal to the open ports if and only if no clean gateway has a refused listener on a closed port |
| Listeners.StartedAllKeys | src/gateway.js:12-23 | at start exactly the ports of the accepted listeners are open and listed |
| Listeners.FlushReconciles | src/gateway.js:320-349 | if every listener is accepted, a flush leaves open exactly the keys of all named gateways |
| Listeners.ChangeKeepsListeners | src/gateway.js:227-234 | a file change keeps the list equal to the open ports and the listeners of clean gateways open |
| Listeners.OpenPortsTrackGateways | src/gateway.js:12-349 | over every run with accepted listeners: the open ports are always the list, and after each flush exactly the keys of all named gateways |
| OpenPorts.SameKeyExactly | src/gateway.js:113-118 | two listeners have one key exactly when they bind the same address, an empty one being 0.0.0.0, have the same port number or both none, and are both UDP or neither |
| OpenPorts.StartOpensExactly | src/gateway.js:12-62 | at start a port of an address, a number and a wire protocol is open exactly when a listener of a named gateway asks for it with one of the seven protocols |
| OpenPorts.FlushOpensExactly | src/gateway.js:12-349 | after every flush of a run with accepted listeners a port of an address, a number and a wire protocol is open exactly when a listener of a named gateway asks for it |
| Listeners.RefusedListenerIsListed | src/gateway.js:326-335 | a concrete run after which a port is listed and not open |
| Serving.FlushServes | src/gateway.js:25-107 | if no two gateways share a port, a flush leaves every clean listener's port bound to the router whose updater is armed |
| Ports.RunServes | src/gateway.js:12-362 | the same over every run of kinded files, whatever happens to backends |
| Ports.RunCaptures | src/gateway.js:64-66 | in every orderly run the pipeline of a clean listener was built with the full view of the last moment at which the listener was made |
| Ports.PortRuns | src/modules/router-tls.js:36-37 | a clean port runs its newest router as last compiled, or as it was built if the listener passes TLS through |
| Ports.TrafficMeetsFullRebuild | src/modules/router-http.js:31-33 | after a run that ends in a flush, the port of every listener that does not pass TLS through runs a router with the listener, routes and policies of the full rebuild, and with its backends exactly if the flush rebuilt it or it resolves as it was compiled |
| Ports.PassthroughMeetsFullRebuildExactly | src/modules/router-tls.js:19-37 | after a run that ends in a flush, the port of a TLS passthrough listener runs the full rebuild if and only if its gateway was dirty in the flush or the view it was last made with is the current one |
| Ports.RouteMissesPassthrough | src/modules/router-tls.js:19-37 | a targeted route added to a passthrough listener of a clean gateway is compiled into its router, and its port goes on with the router of the start |
| Ports.PassthroughRun | src/modules/router-tls.js:19-37 | the same as a concrete run from start |
| GatewayControl.Watcher.AddDirtyGateway | src/gateway.js:227-234 | marks a gateway once and drops the dirty routers under its name |
| GatewayControl.Watcher.AddDirtyRouters | src/gateway.js:236-245 | marks each reference once |
| GatewayControl.Watcher.AddDirtyRoutersByPolicy | src/gateway.js:253-265 | marks the references of every route with a backend that the policy targets |
| GatewayControl.Watcher.OnResourceChange | src/gateway.js:181-225 | marks by kind what the new and the old resource concern |
| GatewayControl.Watcher.ListKinds | src/gateway.js:120-129 | the lists of the kinds, joined in order |
| GatewayControl.Watcher.FindRouteResources | src/gateway.js:131-176 | collects the kinds of the protocol and keeps exactly the routes that belong to the listener, in order |
| GatewayControl.Watcher.Compile | src/gateway.js:131-176 | computes the full view of a router from the store; its routes are exactly the stored ones that belong to the listener by kind, gateway name, and section name or port |
| GatewayControl.Watcher.MakeListenerKey | src/gateway.js:113-118 | address with 0.0.0.0 for none, port number if there is one, and whether the protocol is UDP |
| GatewayControl.Watcher.MakeListener | src/gateway.js:25-107 | opens the port with a new router whose updater replaces the older one |
| GatewayControl.Watcher.StartGateway | src/gateway.js:12-23 | opens the listeners one by one, listing each accepted key once and skipping those that throw |
| GatewayControl.Watcher.StartGateways | src/main.js:26-30 | starting every named gateway of the loaded files reaches the initial state of the theorems |
| GatewayControl.Watcher.RefreshDirtyRouters | src/gateway.js:290-310 | refreshes the dirty routers in order, by the first gateway of the name and the first listener that the entry resolves to |
| GatewayControl.Watcher.SweepGateway | src/gateway.js:322-337 | reopens the listeners of a dirty gateway, and only lists those of a clean one |
| GatewayControl.Watcher.CloseStaleListeners | src/gateway.js:338-347 | closes exactly the ports that were current and were not met again |
| GatewayControl.Watcher.RunAllRouteUpdaters | src/resources.js:181-186 | detaches all route updaters and calls each; every armed router is recompiled and armed again |
| GatewayControl.Watcher.RunDocuments | src/gateway.js:351-355 | does so for each changed document of kind Route |
| GatewayControl.Watcher.UpdateDirtyResources | src/gateway.js:290-361 | the flush of routers, listeners and documents of kind Route is the one the theorems are about, and clears the marks |
| GatewayControl.Watcher.FileChanged | src/resources.js:99-120 | a file change in the store together with all its notices is one change step of the theorems |
| Process.Process.constructor | src/main.js:25-30 | the started objects are in the state of the empty run |
| Process.Process.OnFileChanged | src/resources.js:65-72 | a change extends the run by one step |
| Process.Process.OnTimeout | src/gateway.js:222-224 | a flush extends the run by one step; after an allowed run all routers then have the routes of a full rebuild, and are fresh altogether if backends were steady; the newest callback of each key is armed in any case |
| Backends.RunBackendUpdatersEffect | src/modules/backend.js:125-138 | running a backend's updaters re-reads its targets if its resource exists and drops it from the cache if not; it stays armed once, and no other backend changes |
| Backends.RebindingIsMarked | src/gateway.js:214-217 | a change that rebinds a backend name marks that backend dirty |
| Backends.FlushMakesCurrent | src/gateway.js:282-288 | after a flush every cached backend has the targets of its current resource |
| Backends.StepKeepsInvariant | src/modules/backend.js:125-138 | every cached backend has exactly one armed callback, its own, and is current or dirty, through changes, lookups and flushes |
| Backends.CachedBackendsFollow | src/modules/backend.js:4-161 | the same over every run; after a flush all cached backends are current |
| Backends.StepKeepsHeld | src/modules/backend.js:126-135 | a step keeps a cached instance unless it is a flush that finds no resource for it, and never brings a lost one back |
| Backends.HeldExactly | src/modules/backend.js:125-138 | over any run an instance that someone holds stays the cached one, with its updater armed, if and only if its backend has a resource at every flush |
| Backends.HeldFollowsExactly | src/modules/backend.js:125-138 | after a flush it has the targets of its file exactly under that condition; otherwise it is not cached and none of its updaters is armed |
| Backends.RecreatedBackendRun | src/modules/backend.js:127-134 | a concrete run from start: create, use, delete, flush, create, flush; the first instance is never cached again |
| Backends.BackendCache.Get | src/modules/backend.js:4-161 | returns the cached backend, making and arming it the first time |
| Backends.BackendCache.Update | src/modules/backend.js:126-135 | the updater of a backend: re-read and re-arm, or leave the cache |
| Backends.BackendCache.RunUpdaters | src/resources.js:178-197 | runs the armed callbacks of one backend, though each re-arms itself |
| Backends.BackendCache.UpdateDirtyBackends | src/gateway.js:282-288 | runs the updaters of every dirty backend in order |
| Priorities.PaddedOrder | src/modules/router-http.js:165-190 | zero-padded numbers below ten to the width compare as strings exactly as the numbers do, equality included |
| Priorities.PaddingKeepsOrderExactly | src/modules/router-http.js:174-187 | three digits keep the order of all numbers up to a bound if and only if the bound is below 1000 |
| Priorities.LessByFields | src/modules/router-http.js:189-189 | comparing joined strings of equal-width heads is lexicographic on head and rest |
| Priorities.SortIsUnique | src/modules/router-http.js:161-163 | a list sorted downwards by distinct keys is the only one with its elements, so the unstable, never-zero comparator determines the order |
| Priorities.Sort | src/modules/router-http.js:161-163 | sorting by distinct keys yields a sorted permutation |
| Matching.PriorityEmbedsPrecedence | src/modules/router-http.js:165-190 | the rank strings compare exactly as (path type, path length, has method, headers, params, index) does, for counts below 1000 and an index below 1000000 |
| Matching.LaterFirstUnlessOutranked | src/modules/router-http.js:157-190 | of two matches the later-declared one is tried first if and only if the five fields before the index do not put the earlier one first |
| Matching.LongLengthLosesExactly | src/modules/router-http.js:174-178 | a pattern of four-digit length sorts behind a shorter one of its type, against the precedence, if and only if its length without the last digit is the smaller number |
| Matching.SortedIsRanked | src/modules/router-http.js:157-190 | sorting by rank strings puts the matches in order of precedence, later index first on ties |
| MatchLaws.PathTypesInOrder | src/modules/router-http.js:165-183 | exact paths are tried before prefixes, those before regular expressions, and those before the rest |
| MatchLaws.LongerPathFirst | src/modules/router-http.js:172-179 | of two prefixes, and of two regular expressions, the longer one is tried first |
| MatchLaws.ThenMethodHeadersQuery | src/modules/router-http.js:185-189 | on equal type and length, or among exact paths, a match of a method is tried first, then more header conditions, then more query conditions, then the later one |
| Dispatch.SortMatches | src/modules/router-http.js:157-163 | the declared matches, each once, in order of precedence |
| Dispatch.AddToTables | src/modules/router-http.js:231-251 | each bucket of each table gains the match at its end if the match belongs there and is otherwise unchanged |
| Dispatch.Split | src/modules/router-http.js:226-251 | each bucket of each table is the sorted list filtered by the bucket's key, in order, and no bucket is empty |
| Dispatch.Compile | src/modules/router-http.js:149-251 | ranking, sorting and splitting together |
| Dispatch.FindKeyIsMostSpecific | src/modules/router-http.js:260-260 | the path lookup finds a covering key if there is one, exact before wildcard and longer wildcard before shorter, with the query ignored |
| DispatchProofs.KeyCoversIsPathCheck | src/modules/router-http.js:297-324 | the key of an Exact or PathPrefix match covers a path exactly when the dropped path check would accept it |
| DispatchProofs.DispatchSoundExactly | src/modules/router-http.js:192-342 | what the dispatcher returns satisfies all its path, method, header and query conditions if and only if the checks that nothing enforces hold, for every table and request |
| DispatchProofs.DispatchSound | src/modules/router-http.js:192-342 | dropping the checks is sound when matches name their path type, Exact paths are not wildcards and no method is spelled as a star |
| MatchLaws.LowerIsSmallCopy | src/modules/router-http.js:335-336 | the name looked up is the name of the item with each capital letter made small and every other character as it is |
| MatchLaws.ItemAcceptsExactly | src/modules/router-http.js:333-342 | a header or query condition holds exactly when the entry under that name, or the empty text without one, is the value for an exact or untyped item and passes the pattern for a regular expression; other types ask nothing |
| MatchLaws.SmallNameIsRead | src/modules/router-http.js:333-342 | for a name in small letters that entry is the one of the very name |
| MatchLaws.RecasedName | src/modules/router-http.js:335-336 | another casing of the name changes nothing |
| MatchLaws.StripQueryExactly | src/modules/router-http.js:260-260 | the path without its query is what stands before the first question mark |
| MatchLaws.PathAcceptsExactly | src/modules/router-http.js:297-331 | an exact path is that path; a prefix, less one trailing slash, is the path or followed by a slash in it; a regular expression is tested on the path with its query; an unknown type accepts nothing |
| MatchLaws.SatisfiesExactly | src/modules/router-http.js:192-222 | method, path, headers and query parameters together, in these terms |
| MatchLaws.DispatchedIsAskedFor | src/modules/router-http.js:258-284 | whatever is dispatched has its header and query conditions met in these terms, and all its conditions if the matches are plain |
| MatchLaws.MixedCaseHeaderIsMet | src/modules/router-http.js:335-335 | a prefix match with the header condition X-V is dispatched for a request with the header x-v |
| MatchLaws.MixedCaseParameterIsNotMet | src/modules/router-http.js:335-335 | a query condition on userId is not met by the parameter userId, whatever tables are compiled |
| DispatchProofs.RivalIsLongerSpelling | src/modules/router-http.js:258-267 | only a longer spelling of the same prefix in the other method bucket can rank above the hit of the path table |
| DispatchProofs.PathHitIsFirstExactly | src/modules/router-http.js:258-267 | a hit through the path table is the first hit of the linear scan if and only if no such match is satisfied, for every table of plain matches |
| DispatchProofs.PathHitIsFirst | src/modules/router-http.js:258-267 | so it always is when prefixes have one spelling each |
| DispatchProofs.FallbackIsHigher | src/modules/router-http.js:269-276 | without a lost path match, the linear scan finds the better ranked of the method hit and the slow hit |
| DispatchProofs.AgreesExactly | src/modules/router-http.js:258-284 | fast dispatch equals the linear scan if and only if, with a path hit, no longer spelling is lost, and without one, no path match was lost and the slow hit does not outrank the method hit |
| DispatchProofs.AgreesWithoutCover | src/modules/router-http.js:258-284 | they agree when no path key covers the request and the slow list holds no regular-expression path |
| DispatchLimits.PassedOverBucket | src/modules/router-http.js:262-267 | a GET bucket whose header check fails hides the any-method match of the same path |
| DispatchLimits.TwoSpellings | src/modules/router-http.js:235-238 | such a loss on a concrete pair of prefixes, with and without trailing slash |
| DispatchLimits.UntypedPathMatchesAnything | src/modules/router-http.js:299-304 | a path without a type accepts every path |
| DispatchLimits.StarredExactPathIsWildcard | src/modules/router-http.js:233-238 | an Exact path that ends in a star segment accepts everything under it |
| DispatchLimits.SlowRegexTriedLate | src/modules/router-http.js:269-276 | a regular-expression match that ranks first loses to a method match |
| Hosts.AddRoute | src/modules/router-http.js:99-109 | a route joins the group of every name it lists, in declaration order, a missing list standing for every host |
| Hosts.BuildTables | src/modules/router-http.js:96-109 | each full name and each suffix has exactly the routes that claim it, in order, repeats included |
| Hosts.SortPostfixes | src/modules/router-http.js:117-119 | the suffix groups, each once, longest first |
| Hosts.LookupIsMostSpecific | src/modules/router-http.js:121-133 | full name first, else the group of the unique longest claimed suffix of the host, else none |
| HostLaws.TrimExactly | src/modules/router-http.js:102-102 | the name taken is what is left without white space at both ends |
| HostLaws.PatternExactly | src/modules/router-http.js:102-107 | a host name, trimmed and in small letters, stands for itself, or with a star in front for the suffix behind it |
| HostLaws.GroupExactly | src/modules/router-http.js:99-109 | the group of a pattern holds exactly the routes with a host name that spells it; a route without host names is in the group of the empty suffix |
| HostLaws.DefaultClaimsEveryHost | src/modules/router-http.js:100-100 | with a route without host names every host has a group |
| HostLaws.NamedHostExactly | src/modules/router-http.js:121-133 | a host that is named in full gets exactly the routes that name it |
| HostLaws.SuffixHostExactly | src/modules/router-http.js:121-133 | another host gets exactly the routes that claim its longest claimed suffix |
| HostLaws.UnclaimedHostExactly | src/modules/router-http.js:121-133 | a host gets nothing exactly when neither it nor a suffix of it is claimed |
| Hosts.PortIsCut | src/modules/router-http.js:124-127 | a port behind the last colon of the host header does not matter, nor does case |
| Hosts.SelectRoutes | src/modules/router-http.js:121-133 | the routes selected for a host header are the most specific ones for the host without port, none for an empty header |
| StatusCodes.RouteRetryCodes | src/modules/router-http.js:400-408 | the table holds exactly the statuses that some code denotes: a hundred for a class, one for a number, 5xx by default |
| StatusCodes.ServiceRetryCodes | pjs/http/forward.js:59-69 | the same for the comma-separated list of the service, by its own rules |
| StatusCodes.SplitUndone | pjs/http/forward.js:59-59 | the entries joined with commas are the list again, and no entry holds a comma |
| StatusCodes.ClassMeansHundred | src/modules/router-http.js:402-404 | a class stands for the statuses of its hundred; for a service whatever stands between its first character and its ending |
| StatusCodes.NumberMeansItself | src/modules/router-http.js:405-407 | for a route a number stands for itself, whatever follows it |
| StatusCodes.ServiceNumberExactly | pjs/http/forward.js:61-65 | for a service a number stands for itself, and for status 0 if anything follows it |
| RouteRetry.RunWithRetry | src/modules/router-http.js:410-448 | the number of tries is the smaller of the allowed attempts and the position of the first status that is not retried; the log has one entry fewer, with its targets; the total wait is backoff times (2^(tries-1) - 1) |
| RouteRetry.TriesAreUnique | src/modules/router-http.js:430-441 | that description determines the number of tries |
| RouteRetry.OnlyLastRetrySucceeds | src/modules/router-http.js:424-429 | every logged retry failed except possibly the last |
| Failover.PhaseEnd | pjs/http/forward.js:96-111 | where a phase of replays ends: first outcome that is not retryable, or the budget is spent |
| Failover.UnavailableExactly | pjs/http/forward.js:113-113 | the failover targets are due for every outcome but a status from 1 to 499 |
| Failover.Session.ShouldRetry | pjs/http/forward.js:96-120 | a response is replayed while its status is a retry code and retries are left, and once more if failover targets are left and it has no status, 0 or one above 499; what the counters become, and that the measure (failover left) * (N + 1) + (N - retries) decreases on every replay |
| Failover.Session.OnNoTarget | pjs/http/forward.js:294-311 | a missing target switches to the failover targets at most once, without resetting the retry count |
| Failover.Session.AfterAttempt | pjs/http/forward.js:196-311 | both together, with the measure; without failover targets the answer of the plugin chain counts as the response |
| Failover.Session.Replay | pjs/http/forward.js:196-311 | for every sequence of outcomes the request ends, after exactly the attempts of a closed form: 1 + retries + failovers, at most one failover, at most 2 * (N + 1) attempts; and the retry count at each replay |
| Failover.Session.Serve | pjs/http/forward.js:196-216 | the same with the delay factor of each replay |
| Failover.DelayFactorValues | pjs/http/forward.js:200-200 | the delay factor for every retry count, with the 32-bit truncation |
| Failover.BackoffMonotoneExactly | pjs/http/forward.js:200-200 | the factor never falls up to a retry count if and only if that count is at most 31 |
| Failover.DelayBoundedExactly | pjs/http/forward.js:200-200 | the factor lies between 0 and 10 for every retry count except 32 |
| Failover.DelaysInOrderExactly | pjs/http/forward.js:96-216 | in all runs of a service every delay is within ten times the base and none falls within a phase, if and only if at most 31 retries are allowed or no status is retried |
| CircuitBreaker.InvariantHolds | pjs/http/circuit-breaker.js:50-98 | in every reachable state slow and error amounts are at most the total, the delay is 0 unless degraded, and with only ratio thresholds a degraded breaker has a total and a ratio that reach them |
| CircuitBreaker.StaysOpen | pjs/http/circuit-breaker.js:85-92 | a degraded breaker stays so through its window of refreshes, whatever else arrives |
| CircuitBreaker.ClosesOnNextRefresh | pjs/http/circuit-breaker.js:85-98 | the next refresh closes it and clears the counters |
| CircuitBreaker.OpeningNeedsRequests | pjs/http/circuit-breaker.js:59-83 | with only ratio thresholds it opens only on a response, with enough requests in the window and a ratio reached |
| CircuitBreaker.OpenShowsRatio | pjs/http/circuit-breaker.js:59-83 | with only ratio thresholds, in every run a degraded breaker has a positive total of at least the minimum, and slow responses or errors whose fraction of it is at least their positive threshold |
| CircuitBreaker.OpensExactly | pjs/http/circuit-breaker.js:59-83 | a closed breaker opens exactly on a failed or slow response whose quota is used up, or whose amount with it counted, but no more than the total, is the threshold fraction of enough requests or more |
| CircuitBreaker.AmountOpensExactly | pjs/http/circuit-breaker.js:59-83 | without a ratio threshold for the kind, a closed breaker with a full quota opens on exactly the threshold-th slow, or failed, response |
| CircuitBreaker.LateResponsesOpen | pjs/http/circuit-breaker.js:59-98 | for an amount threshold k a run from start, in which every response answers an admitted request: k requests, a whole window of refreshes, k late responses; the breaker opens with no request counted |
| CircuitBreaker.OpeningNeedsRequestsExactly | pjs/http/circuit-breaker.js:59-98 | in every such run each opening has requests counted, if and only if only ratio thresholds are set |
| CircuitBreaker.Breaker.OnRequest | pjs/http/circuit-breaker.js:140-152 | admitted exactly when not degraded, and only then counted |
| CircuitBreaker.Breaker.OnResponse | pjs/http/circuit-breaker.js:154-159 | a response is checked for errors, then for slowness, and the state stays the one of the history |
| CircuitBreaker.Breaker.CheckSlow | pjs/http/circuit-breaker.js:59-70 | counters, quota and flag after a slowness check, by the quotient of slow responses and total |
| CircuitBreaker.Breaker.CheckError | pjs/http/circuit-breaker.js:72-83 | counters, quota and flag after an error check, by the quotient of errors and total |
| CircuitBreaker.Breaker.RefreshTimer | pjs/http/circuit-breaker.js:85-98 | a refresh step of the history, closing and starting a new window in one call |
| ServiceHealth.IndexAlwaysAgrees | pjs/common/health-check.js:49-120 | in every reachable state a target is down exactly when it is in the cache of unhealthy ones and exactly when its error count is at least maxFails |
| ServiceHealth.CountsSinceRecovery | pjs/common/health-check.js:49-86 | in every run errorCount is the number of failures since the last recovery |
| ServiceHealth.TrailingExactly | pjs/common/health-check.js:49-86 | that is at least the number of consecutive failures, and equal exactly when no success since the recovery interrupted failures |
| ServiceHealth.GoesDownAsDocumentedExactly | pjs/common/health-check.js:83-86 | a target goes down by maxFails consecutive failures if and only if no success interrupted its failures |
| ServiceHealth.DocumentedExactly | docs/README.md:314-314 | in all states of all runs down means maxFails consecutive failures, if and only if maxFails is 1 |
| ServiceHealth.SeparateFailuresTakeDown | docs/README.md:314-314 | for every maxFails from 2 on: maxFails - 1 failures, a success and one more failure take a target down |
| ServiceHealth.StaysDown | pjs/common/health-check.js:322-341 | a passive target stays down until its ticks, however many failures arrive |
| ServiceHealth.ProbedStaysDown | pjs/common/health-check.js:329-329 | with active probes or without a failTimeout no number of ticks and failures brings a down target back |
| ServiceHealth.RecoversOnTime | pjs/common/health-check.js:322-341 | it recovers on exactly the failTimeout-th tick, with its counter and cache entry cleared |
| ServiceHealth.DownForExactlyTheTimeout | pjs/common/health-check.js:83-86 | in any run: from the failure that takes a passive target down, it is down until the failTimeout-th tick and back up with it, if no success comes earlier |
| ServiceHealth.Service.OnOk | pjs/common/health-check.js:49-62 | a success step of the history |
| ServiceHealth.Service.OnFail | pjs/common/health-check.js:83-101 | a failure step of the history |
| ServiceHealth.Service.OnTick | pjs/common/health-check.js:322-341 | the recovery task visits every target, and is one tick of the history |
| BackendHealth.TrailingAtLeast | src/modules/health-check.js:102-106 | the failure count reaches a bound exactly when the last that many outcomes failed |
| BackendHealth.DownMeansConsecutiveFailures | src/modules/health-check.js:92-112 | down means that the last maxFails outcomes of the target all failed, at least one of them |
| BackendHealth.OutcomeKeepsAgreement | src/modules/health-check.js:92-112 | local flag, failure count, failure time and shared set keep agreeing with the history after an outcome of this or another target |
| BackendHealth.Checker.Reset | src/modules/health-check.js:92-100 | a success, and a timed reset, of one target |
| BackendHealth.Checker.Fail | src/modules/health-check.js:102-112 | a failure of one target, which enters the shared set at maxFails |
| BackendHealth.Checker.Check | src/modules/health-check.js:114-126 | probes when the interval is over; without an interval, resets exactly a down target whose last failure is failTimeout old; other targets stay as they are |
| BackendHealth.Checker.IsHealthy | src/modules/health-check.js:151-153 | an address is healthy unless a target of that address has a trailing run of failures of at least maxFails; without a policy every address is |
| SharedBreaker.CountersAgree | src/filters/http/CircuitBreak.js:33-92 | in every reachable state errors are at most the total, and concurrency is the number of admitted requests without a response |
| SharedBreaker.TripsAreOrdered | src/filters/http/CircuitBreak.js:42-51 | trips happen at positive times that never run back |
| SharedBreaker.TripsOnExactly | src/filters/http/CircuitBreak.js:33-51 | a response trips the breaker exactly when the requests still waiting, the late responses, and their fraction of all responses, with itself counted, reach their thresholds |
| SharedBreaker.BrokenBeforeIsLastTrip | src/filters/http/CircuitBreak.js:48-48 | brokenBefore is the last trip plus the break interval, 0 if there was none |
| SharedBreaker.DeniedExactly | src/filters/http/CircuitBreak.js:28-31 | a request is denied if and only if some trip lies less than the break interval before it |
| SharedBreaker.BreakOnlyExtends | src/filters/http/CircuitBreak.js:33-51 | brokenBefore never moves back, and moves only when all thresholds hold |
| SharedBreaker.DeniedTouchesNothing | src/filters/http/CircuitBreak.js:66-70 | a denied request changes no counter |
| SharedBreaker.TotalSinceReset | src/filters/http/CircuitBreak.js:33-62 | in every run total and error count exactly the responses, and the late ones, since the last trip or the last gap of checkInterval, and start is the time of the last response |
| SharedBreaker.SteadyTrafficNeverExpires | src/filters/http/CircuitBreak.js:53-60 | with no trip and no such gap every response of the run stays counted |
| SharedBreaker.Filter.OnRequest | src/filters/http/CircuitBreak.js:66-74 | passed exactly when not broken |
| SharedBreaker.Filter.Check | src/filters/http/CircuitBreak.js:33-62 | the shared map after a response was counted and judged |
| SharedBreaker.Filter.OnResponse | src/filters/http/CircuitBreak.js:79-83 | a response step of the history |
| Backlog.LiveSumCounts | pjs/http/throttle-route.js:35-40 | the sum of the wait counters of live streams is never negative, at most their number, and 0 exactly when nothing waits |
| Backlog.RateLimit.Arrive | pjs/http/throttle-route.js:21-37 | refused exactly when more than backlog wait; the count stays the sum over live streams, at most backlog + 1 |
| Backlog.RateLimit.Respond | pjs/http/throttle-route.js:40-40 | a response takes one off the count and off its own stream's counter |
| Backlog.RateLimit.End | pjs/http/throttle-route.js:36-36 | an early end takes off what the stream still had waiting, and an end after the response nothing |
| Backlog.RateLimit.IdleExactly | pjs/http/throttle-route.js:36-40 | the count is 0 exactly when no stream waits, so nothing leaks |
| ModbusRecords.Records | iot-gateway/pjs/worker.js:6-11 | the printed text is one line per record, in order |
| ModbusRecords.ReadPrinted | iot-gateway/modbus-nmi/modbus.c:61-75 | scanning a printed line gives back its record, whatever the type buffer held before |
| ModbusRecords.ParsedIsBounded | iot-gateway/modbus-nmi/modbus.c:75-79 | never more than a hundred tasks, for any text and any way of reading lines |
| ModbusRecords.ParsePrinted | iot-gateway/modbus-nmi/modbus.c:46-87 | a reader that undoes a writer line by line undoes it on lists, with the place where parsing stops |
| ModbusRecords.ParseUndoesPrint | iot-gateway/modbus-nmi/modbus.c:40-90 | parsing what was received of any printed list of records yields its first min(100, n) records in order; no newline stays overwritten if n is below 100, and otherwise exactly the one behind the hundredth record |
| RecordLaws.FirstHundredAreRead | iot-gateway/modbus-nmi/modbus.c:40-90 | of printed records all are read if they are fewer than a hundred, and otherwise the first hundred |
| RecordLaws.ReadFieldsExactly | iot-gateway/modbus-nmi/modbus.c:61-73 | a line of two numbers, with or without a sign, and a word, with any white space around them, is a task exactly when the first number is 3 or 4 and the word names one of the four types |
| RecordLaws.MissingTypeIsInherited | iot-gateway/modbus-nmi/modbus.c:41-70 | a line without a type is a task of the type named by the lines before it |
| RecordLaws.TasksAreGood | iot-gateway/modbus-nmi/modbus.c:71-74 | every task of every text has function code 3 or 4 |
| RecordLaws.StopsAtBadRecord | iot-gateway/modbus-nmi/modbus.c:49-74 | good records, then a line of fitting length with another function code or an unknown type, then any text: exactly the good records, and the newline of that line stays overwritten |
| RecordLaws.StopsAtUnfitLine | iot-gateway/modbus-nmi/modbus.c:49-60 | a line shorter than 5 or longer than 100 characters stops parsing behind the records before it, with the buffer restored |
| ModbusRecords.Parser.FindNewline | iot-gateway/modbus-nmi/modbus.c:47-47 | the end of the current line, the line, and the text behind it |
| ModbusRecords.Parser.TakeLine | iot-gateway/modbus-nmi/modbus.c:46-86 | one turn of the loop: the task it stores, where it goes on, and the bytes it leaves in the buffer |
| ModbusRecords.Parser.Loop | iot-gateway/modbus-nmi/modbus.c:46-87 | the loop ends with the tasks and the buffer of the specification |
| ModbusRecords.Parser.ParseRecords | iot-gateway/modbus-nmi/modbus.c:40-90 | in place on the buffer: the tasks are those of the specification, at most a hundred, and every byte is as before except the one newline it names |

## Left out

- The Pipy runtime: pipelines, TLS, sockets, multi-threading and timers. They appear as steps.
- Thrown errors, except the refusal of a listener, and filter loading.
- A Dubbo route is never refreshed by the watcher, so Dubbo listeners are not among the watched
  ones; what happens without the assumptions of `AllowedRun` is in `ReconfigurationLimits`.
- OnResourceChange: covers gateways, routes, backend policies and documents of kind `Route`; backends are
  in `Backends`, and health-check policies and the timer are not modelled.
- UpdateDirtyResources: covers the loops over routers, gateways and documents of kind `Route`; dirty
  backends are in `Backends`, and the loop over `dirtyPolicies` is not modelled.
- RunAllRouteUpdaters: no updater throws. Those of HTTP and TLS passthrough listeners throw when they
  get a document for a list of routes, and all do when such a document is new; the rest of the flush
  is then skipped, which is not modelled.
- The gateway filter other than the default, and the ZTM resource source.
- RunAllUpdaters: the order of the keys is that of a JavaScript dictionary, which is not modelled.
- RunBackendUpdatersEffect: the updater of the health check under the same backend name is not modelled.
- View: has more than some routers use: a TCP or UDP router compiles the first rule of its first route
  only, so its view may change where the compiled router does not. It names which backends resolve,
  not which instance a router's balancer holds, for which see `HeldExactly`. Secrets are read when a
  listener is made and change without a notice; they are not modelled.
- CachedBackendsFollow: speaks of instances in the cache; `HeldFollowsExactly` speaks of held ones.
- Get: an instance is its targets; its algorithm and timeouts, read once when it is made, and its
  concurrency counters are not modelled.
- Finalization of routers that nothing refers to any more.
- Listener keys are kept as address, port and protocol; joining them to strings adds nothing.
- Dictionaries do not have the names of JavaScript's object prototype.
- Backend references of other kinds than Backend, and load balancing between the backends of
  a rule.
- GRPC matches, which are scanned linearly; timeouts; session persistence; `$basePath`.
- Path values are in normal form, so that joining a prefix with a star only appends it; regular
  expressions and the parsing of the query are uninterpreted functions.
- FindKey: that the key `/a/*` covers `/a` itself is an assumption about the runtime's URL router, which
  is not part of this model. The slow matcher, which is not used, registers both keys for a prefix.
- PortIsCut: trimming and lower-casing cover ASCII only.
- RouteRetryCodes: does not model signed or spaced numbers, which are no status codes.
- ServiceRetryCodes: does not model decimal, signed or spaced texts or 32-bit wrap, which are no
  status codes.
- RunWithRetry: takes the response that concludes the loop as the end of the request, so it does
  not model what the runtime does with the repeat condition after it.
- Retry counters for metrics, sticky cookies and the choice of a target.
- Filter: thresholds are numbers; an unset one is not a number in the source and never trips.
- The tick of active probes in the service health check, and the probes themselves, which are
  outcomes that may arrive at any time.
- IsHealthy: covers one policy epoch with distinct addresses; entries that an earlier policy left in
  the shared set are not modelled.
- Breaker: a quota is filled up at any time, where the source does so once in each window.
- RateLimit: one request per stream; the message quota and refusals by it only delay steps.
- ParseRecords: what a line that stops parsing leaves in the task slot behind the last task is not
  modelled, and neither is a number beyond 32 bits, which C does not define for `%d`.
- Metrics, logging, the other filters and policies, the Go client, the command line and the GUI.
