# The authorization engine of ha-rbac-gateway, modelled and proved in Dafny

ha-rbac-gateway is a reverse proxy that stands between a restricted user and Home
Assistant (HA). This project models the part of it that decides: what a client message or a
request is turned into, what of HA's answers is relayed, which policy a user is given and
how an administrator changes it, and the two caches it trusts for a bounded time.

The model has these parts, each with the properties proved of it.

* **Values.** `JsonValues` is JSON as HA may send it, in any shape, with Python's notions of
  truth, equality and hashing; a handler that raises is part of the model. `Collections`
  holds filtering and sorting.
* **The session** (`Connections`, `Session`). `Connections` gives the decisions as
  functions; `Session.Connection` is the object, whose methods update `pending`, `subs` and
  the two frame logs in place and are proved to carry out the decisions. `Runs`,
  `Correlation`, `Confidentiality`, `Noninterference` and `SubscriptionStreams` are about
  whole runs: any sequence of client messages, HA messages, registry views and trip
  answers, ended when a socket closes or a change of policy cuts the session.
  `CoalescedFrames` shows that an array frame is its messages, one by one.
  `GatewaySystem` puts any number of sessions beside one clock, one registry, one trip file
  and the policies with their administrators, and shows that each session is such a run and
  that what it writes follows the policies in force at that instant; `GatewayDeliveries`
  shows the same of what is relayed to the client. `RunningGateway` puts the objects
  together and shows that their methods make exactly the system's steps.
* **The evaluator** (`Registry`, `Evaluator`, `ServiceCalls`, `Filters`, `EntityStream`).
  The fast forms the gateway uses agree with the simple ones they stand for.
* **The same, read off the data** (`CommandTables`, `Routing`, `Grants`, `Payloads`,
  `GatewayFreshness`, `PolicyDocuments`, `PutPayloads`, `RestResponses`). These modules
  state what the functions above must give in other terms than theirs: the type strings of
  the published allowlist, the raw fields of a message, the rule sets and the registry
  indexes, the policy document or payload, the path of a request, the clock. Each statement
  is an if-and-only-if or gives the whole result, so a router, evaluator, filter, parser or
  cache that decided otherwise on any input would contradict it.
* **The policy life cycle** (`Policies`, `PolicyStores`, `PolicyEditor`,
  `EditorRoundTrips`, `PolicyAdmin`, `AdminRuns`, `PolicyChanges`, `Gateways`). Strict
  parser, duplicate check and `find`, the editor form and its round trip, PUT and DELETE on
  directory and store, whole histories of changes, and the open sessions a change has to
  reach.
* **The caches** (`IdentityCache`, `Trip`, `GatewaySystem`) and **the REST side**
  (`RestProxy`).

Environment assumptions are written as `requires` or as step guards, and only where a
property needs them: a client uses a message id once per connection (`Runs.IdsOnce`);
registry ids are strings or null (`Registry.TypedEntity`, `Registry.TypedDevice`); a policy
is found for identities that have an id, or no two policies set an empty one
(`PolicyStores.Determined`). Upstream safety and reply conservation need none of them.

What HA sends is unconstrained, but not all of it is examined. A message reaches the client
as it is, whatever it carries and whoever it is for, exactly when it is no result and no
event; or a result that is unsuccessful, not awaited (as a second one under a consumed id)
or awaited without a filter; or an event under an id without a subscription of the kinds
the gateway keeps, or one that carries an object on a subscription without a filter; and
its id, where it is a result or an event, can be hashed
(`Confidentiality.UnexaminedExactly`). Noninterference therefore erases only from awaited
successful results and from events of kept subscriptions; of an entity event that names a
removed entity by something other than a string it leaves only that, because the event ends
the session.

Where the code does not do what is promised, the model follows the code, and the exact
condition is proved:

* `docs/architecture.md:146` says that area and domain rules deny once the registry is
  stale. Enumeration does narrow to the listed ids, but `allowed_read` never asks the
  registry about a domain; the two agree exactly for policies without domain rules
  (`Evaluator.StaleIsListedOnlyExactly`).
* A `subscribe_entities` whose `entity_ids` holds a list or an object makes the handler
  raise: the command gets no answer and the session ends. It is the only such command
  (`Runs.CrashExactly`, `Runs.RepliedExactlyOnce`).
* A `lovelace/config` without `url_path` is refused to a user whose policy lists the
  built-in `lovelace` itself (`DashboardCoherence.OpensExactly`), and the landing panel
  written for a user with neither a default nor the built-in dashboard does not open
  (`DashboardCoherence.LandingPanelOpens`).
* An empty `user.id` beside a name passes the parser. The order of the files is irrelevant
  to `find` if and only if the identity has an id or at most one policy sets an empty one
  (`PolicyStores.FindIsOrderFreeExactly`; two files for which it matters load, by
  `PolicyStores.EmptyIdIsOrderDependent`), and the editor turns them into policies that
  match by name (`EditorRoundTrips.NormalMatchesTheSame`).
* Two user ids can share a slug, and a PUT for one of them then takes the other's file
  (`PolicyAdmin.SlugsCollide`). Whoever the new policy does not match keeps theirs if and
  only if they did not have it from the file written (`PolicyAdmin.PutIsMapUpdate`).
* `SECURITY.md:106-109` says that a change of a user's policy closes that user's open
  sessions. It closes those of the user the key names, and the change may concern others:
  with ids that share a slug the other user's session goes on under a policy they no longer
  have (`GatewaySystem.SlugStrandsSession`). Nobody's session is left behind if and only if
  no policy that goes serves somebody the key does not name, and none that comes takes such
  a user by id from a policy that serves them by name (`PolicyChanges.StrandsExactly`, for
  any change; `GatewaySystem.OrderlyExactly`, for the sessions themselves;
  `PolicyChanges.PutStrandsExactly`, for a PUT in terms of what is known before it). A
  DELETE meets this while store and directory are in step (`PolicyChanges.DeleteSpares`).
* PUT writes the file before it reloads. The reload fails, and the directory no longer
  matches the store, if and only if another file claims the same user
  (`PolicyAdmin.ReloadFailsExactly`; it happens, by `PolicyAdmin.ReloadCanFail`). The next
  PUT or DELETE that succeeds brings them back in step (`AdminRuns.SuccessSyncs`).
* `trip()` forces a re-read only when the clock is at least one check interval past zero
  (`GatewaySystem.TripForcesReread`).

## Model

| member | source | states |
|---|---|---|
| Routing.UpstreamIsAllowlisted | src/ha_rbac_gateway/commands.py:15-200 | On every run, with any ids: each frame written upstream has a type of the published tables (plain, filtered, checked or token types), and never one of the types listed as dangerous |
| Routing.RoutedExactly | src/ha_rbac_gateway/ws_proxy.py:216-437 | What is done with any message, from its raw fields: noise is dropped; while tripped every command is refused; else it is forwarded exactly when its type is forwarded and the policy covers what it asks for, answered with a success exactly where the tables say so, raising on exactly one input, and refused in every other case |
| Routing.ForwardedExactly | src/ha_rbac_gateway/ws_proxy.py:216-430 | A permitted command is forwarded, as the message itself but for the narrowed ids of an entity subscription and the path that stands for the default dashboard, and nothing is said to the client |
| Routing.DeniedByDefault | src/ha_rbac_gateway/ws_proxy.py:289-291 | A well-formed command whose type is in no table writes nothing upstream and is answered by exactly one refusal, `success` false and code `unauthorized` |
| Routing.Told | src/ha_rbac_gateway/ws_proxy.py:432-437 | What the client is told for each kind of answer, field by field, and that nothing else of the session changes |
| Routing.NoControlNoCalls | src/ha_rbac_gateway/policy.py:279-280 | On every run of a user without control rules no `call_service` is ever written upstream |
| Routing.SilentExactly | src/ha_rbac_gateway/commands.py:52-63 | Exactly one service, `write` of `system_log`, is acknowledged without being forwarded, however domain and service are split |
| CommandTables.KindExactly | src/ha_rbac_gateway/ws_proxy.py:226-291 | The branch the router takes for any type string is the one of the published table it stands in |
| CommandTables.DeniedIsUnlisted | src/ha_rbac_gateway/commands.py:168-200 | No type listed as dangerous stands in any table |
| Runs.UpstreamSafety | src/ha_rbac_gateway/ws_proxy.py:216-430 | On every run, with any ids: each frame a session writes upstream answers to a client message read while not tripped, keeps its id and type, and is safe for its command under the registry view of that instant. An entity subscription lists exactly requested ∩ enumerable ids and at least one, a dashboard is one of the policy's, events are `state_changed` or a safe topic, a service call was allowed, tokens need the grant, everything else is unchanged; which types these are is `Routing.UpstreamIsAllowlisted` |
| Runs.ForwardIsSafe | src/ha_rbac_gateway/ws_proxy.py:216-291 | One forwarded command: safe, same id, never while tripped, and registered with exactly the result transform and event filter its type needs |
| Runs.RepliesAreConserved | src/ha_rbac_gateway/ws_proxy.py:209-437 | On every run and for every id, frames written upstream plus result frames the gateway answered by itself are exactly as many as the commands handled with that id |
| Runs.RepliedExactlyOnce | src/ha_rbac_gateway/ws_proxy.py:209-437 | With ids used once, a command read by an open session is forwarded exactly once or answered exactly once, never both, never neither; the only exception is the command that makes its handler raise, which gets neither |
| Runs.CrashExactly | src/ha_rbac_gateway/ws_proxy.py:293-299 | A handler raises on exactly one kind of command: an entity subscription asking for an unhashable id while not tripped |
| JsonValues.KeysExactly | src/ha_rbac_gateway/ws_proxy.py:463-473 | Two ids find the same entry of `pending` or `subs` exactly when Python takes them for equal: the same number, booleans included, the same text, or both null |
| JsonValues.TruthyExactly | src/ha_rbac_gateway/filters.py:45-66 | Exactly seven values count as absent where the code asks for truth: null, `false`, both zeros, and the empty string, list and object |
| Correlation.AlwaysCorrelated | src/ha_rbac_gateway/ws_proxy.py:172-173 | In every reachable state with ids used once, `pending` and `subs` agree with what was written upstream: an outstanding command has exactly its transform, a subscription exactly its kind, and nothing else is pending |
| Correlation.RightFilters | src/ha_rbac_gateway/ws_proxy.py:463-473 | The invariant at one id: the right transform while the result is outstanding, none once it has come, the right filter for its events |
| Payloads.ResultsExactly | src/ha_rbac_gateway/ws_proxy.py:475-515 | On every run with ids used once, what the client gets for an awaited answer, given outright: a failure as it is, the end of the session for a poisonous result, and else the same frame with the right result. A list holds exactly the elements the user is entitled to, in order and unchanged; a configuration loses its coordinates and keeps every other key; panels, display list and token list likewise |
| Payloads.EventsExactly | src/ha_rbac_gateway/ws_proxy.py:520-544 | The same for an event on a kept subscription: the sections of an entity event restricted to readable entities, a `state_changed` event about a readable entity, a core event with the landing panel the policy gives, anything else as it is, or nothing |
| Payloads.FilteredExactly | src/ha_rbac_gateway/filters.py:140-236 | The filter of each command raises on exactly the answers named, and else gives the right result |
| Payloads.PanelsExactly | src/ha_rbac_gateway/filters.py:207-236 | Which panels are kept, when a hidden stand-in for the default dashboard is added and what it holds, and the shapes on which the filter raises |
| Confidentiality.ResultsAreClean | src/ha_rbac_gateway/ws_proxy.py:475-515 | On every run, the successful result of an outstanding command is delivered naming only what the user may see, or not delivered |
| Confidentiality.ListsAreExact | src/ha_rbac_gateway/filters.py:149-191 | Each of the six listings (states, entities, entities for display, devices, areas, dashboards) is delivered with exactly the elements the user is entitled to: readable states, entities named by a rule or registered and readable, devices and areas that own a registered readable entity, dashboards of the policy; with none when HA answers in an unexpected shape |
| Confidentiality.DueIsMonotone | src/ha_rbac_gateway/policy.py:279-310 | Under more or higher grants and more dashboards, or a fresher snapshot, no listing loses an element the user was entitled to |
| Confidentiality.EventsAreClean | src/ha_rbac_gateway/ws_proxy.py:520-544 | On every run, an event on a live subscription is delivered with readable entities only, and the landing panel rewritten, or not delivered |
| Confidentiality.UnexaminedExactly | src/ha_rbac_gateway/ws_proxy.py:463-544 | A message of HA reaches the client whatever it carries and whoever it is for, if and only if it is no awaited successful result with a filter, no event of a filtered subscription, and nothing that ends the session or is dropped |
| Noninterference.ErasedRunIsSame | src/ha_rbac_gateway/ws_proxy.py:463-544 | Erasing what is hidden from the awaited results and the subscription events of HA leaves the whole session the same: tables, both frame logs, open or closed |
| Noninterference.SecretsDoNotInterfere | src/ha_rbac_gateway/ws_proxy.py:463-544 | Two runs with equal erasures give the client the same frames and HA the same frames |
| Noninterference.ErasureHidesEntries | src/ha_rbac_gateway/filters.py:149-191 | Whether one of the six listings mentions a hidden thing, and what it says of it, cannot be told after erasure |
| Noninterference.ErasureHidesEntities | src/ha_rbac_gateway/filters.py:118-137 | Two events of a live entity subscription that agree on readable entities have the same erasure, whichever unreadable ones they add, change or remove and whatever stands in a section of another shape; so have any two that make the filter raise |
| Noninterference.ErasureHidesPanels | src/ha_rbac_gateway/filters.py:207-236 | Which hidden panels there are, and what they show, cannot be told after erasure |
| Noninterference.ErasureHidesLocation | src/ha_rbac_gateway/filters.py:17-25 | Where the home is cannot be told after erasure |
| Noninterference.HiddenChangeLeavesNoTrace | src/ha_rbac_gateway/filters.py:140-146 | A `state_changed` frame about an unreadable entity can be dropped from any run without changing anything, then or later |
| Noninterference.FilterIgnoresErased | src/ha_rbac_gateway/ws_proxy.py:475-515 | The transform a command needs gives the same result, or raises alike, on the erased payload |
| SubscriptionStreams.RelayedIsPruned | src/ha_rbac_gateway/ws_proxy.py:520-530 | Over any run in which HA holds an entity subscription under the id when it sends events on it: the events relayed are exactly those the open session reads, each pruned under the registry view of its own instant, in order, and nothing from elsewhere |
| SubscriptionStreams.ClientSeesFilteredWorld | src/ha_rbac_gateway/ws_proxy.py:520-530 | While the registry view stays, folding what the client was relayed from the readable part of a world gives the readable part of the world HA's own stream builds |
| EntityStream.FilteredStreamIsFilteredWorld | src/ha_rbac_gateway/filters.py:118-137 | Folding a pruned stream of additions, changes and removals is restricting the fold of the whole stream, however changes are merged |
| EntityStream.FilterTwice | src/ha_rbac_gateway/filters.py:118-137 | Filtering by one set and then another is filtering by their intersection |
| EntityStream.SecondFilterDropsNothing | src/ha_rbac_gateway/ws_proxy.py:525-530 | On a stream already limited to allowed ids the second filter drops nothing |
| SubscriptionStreams.RewrittenStreamIsUntouched | src/ha_rbac_gateway/ws_proxy.py:293-313 | When HA keeps to the ids the subscription was rewritten to, every event passes the second filter as it is |
| Session.Connection.RouteClientMsg | src/ha_rbac_gateway/ws_proxy.py:216-291 | Routing a client message updates the tables, both logs and the trip switch exactly as the decision says, which `Routing.RoutedExactly` gives from the message |
| Session.Connection.RouteHaMsg | src/ha_rbac_gateway/ws_proxy.py:463-515 | Routing an HA message pops the pending entry, transforms the result or prunes the event, and relays, or ends the session when it raises |
| Session.Connection.RelayEvent | src/ha_rbac_gateway/ws_proxy.py:520-544 | An event is relayed, pruned, rewritten or swallowed by the kind of its subscription |
| Session.Connection.HandleSubscribeEntities | src/ha_rbac_gateway/ws_proxy.py:293-313 | The subscription goes out with the sorted allowed ids among those requested, or is answered as empty |
| Session.Connection.HandleCallService | src/ha_rbac_gateway/ws_proxy.py:350-386 | The call is forwarded, acknowledged or refused as its decision says; `Grants.CallExactly` gives it from the call and the control rules |
| Session.Connection.HandleLovelaceConfig | src/ha_rbac_gateway/ws_proxy.py:414-430 | The default route is rewritten to the user's default dashboard, listed dashboards pass, others are refused |
| Session.Connection.PumpHaFrame | src/ha_rbac_gateway/ws_proxy.py:441-461 | A coalesced array does what its messages do one by one |
| Session.Connection.PumpClientFrame | src/ha_rbac_gateway/ws_proxy.py:197-214 | The same for client frames, each message asking the trip switch for itself |
| CoalescedFrames.HaFrameIsRun | src/ha_rbac_gateway/ws_proxy.py:441-461 | Pumping an array frame of HA continues the run with its messages in order |
| CoalescedFrames.ClientFrameIsRun | src/ha_rbac_gateway/ws_proxy.py:197-214 | The same for an array frame of the client, each message with the trip answer it gets |
| GatewaySystem.SessionsAreRuns | src/ha_rbac_gateway/ws_proxy.py:185-214 | Each session of the running gateway, among any interleaving of ticks, refreshes, trip events, policy changes and other sessions, is a session run since its registration |
| GatewaySystem.AlwaysCurrent | src/ha_rbac_gateway/server.py:67-76 | Over any history of the whole gateway, hand edits and states out of step included, in which users have ids and each PUT and DELETE is orderly: every open session runs under the policy `find` gives its user now |
| GatewaySystem.OrderlyExactly | src/ha_rbac_gateway/server.py:67-76 | Orderly is exact: a change of the running store is orderly if and only if, of every possible user with a session, it leaves none open under a policy that is no longer theirs |
| GatewaySystem.OrderlyPutExactly | src/ha_rbac_gateway/admin_api.py:250-284 | While store and directory are in step a PUT is orderly if and only if it is not stored, or changes nothing, or writes a file that served nobody else and takes by id nobody whom a name alone serves |
| GatewaySystem.SyncedDeleteIsOrderly | src/ha_rbac_gateway/admin_api.py:286-305 | While store and directory are in step every DELETE is orderly |
| GatewaySystem.SlugStrandsSession | src/ha_rbac_gateway/admin_api.py:104-106 | From a fresh installation: a user has a policy and a session, a PUT for another user whose id shares the slug, as `a-b` does with `a b`, takes the file, and the session stays open though `find` gives its user nothing |
| GatewaySystem.UpstreamFollowsPolicy | src/ha_rbac_gateway/admin_api.py:250-305 | Over any such history, every frame any session ever wrote upstream was safe under the policy its user would have been given at that very instant |
| GatewayDeliveries.DeliveriesFollowPolicy | src/ha_rbac_gateway/ws_proxy.py:463-544 | After any such history, an awaited successful result or an event of a kept subscription reaches an open session's client only clean under the policy its user would be given at that instant |
| RunningGateway.Running.FromClient | src/ha_rbac_gateway/ws_proxy.py:216-291 | The gateway object, its registry, its switch and its sessions, routing a client message, make exactly the system's step |
| RunningGateway.Running.FromHa | src/ha_rbac_gateway/ws_proxy.py:441-473 | The same for a message of HA |
| RunningGateway.Running.Put | src/ha_rbac_gateway/admin_api.py:250-284 | The same for a PUT, with the sessions it closes |
| RunningGateway.Running.Delete | src/ha_rbac_gateway/admin_api.py:286-305 | The same for a DELETE |
| RunningGateway.Running.Accept | src/ha_rbac_gateway/server.py:48-62 | The same for a session that is accepted and registered, or refused |
| RunningGateway.Running.Lose | src/ha_rbac_gateway/ws_proxy.py:119-124 | The same for a session that closes and is unregistered |
| RunningGateway.Running.RefreshRegistry | src/ha_rbac_gateway/registry.py:85-97 | The same for a refresh of the registry, which succeeds or changes nothing |
| RunningGateway.Running.TripNow | src/ha_rbac_gateway/trip.py:36-40 | The same for tripping the switch |
| GatewaySystem.AnswersAreRecent | src/ha_rbac_gateway/trip.py:29-34 | Once the clock is past the check interval, every trip answer was true of the file at an instant within the last interval |
| GatewaySystem.TripForcesReread | src/ha_rbac_gateway/trip.py:36-40 | However much later it comes and whatever happens before it, the first check after a trip re-reads the file if the clock is then at least one interval past zero, and otherwise repeats the cached answer |
| GatewaySystem.TripStopsUpstream | src/ha_rbac_gateway/ws_proxy.py:222-224 | From the first true answer on, until the file is removed, no session writes another frame upstream, and no session that is new by then writes any |
| Trip.TripSwitch.IsTripped | src/ha_rbac_gateway/trip.py:29-34 | The file is read at most once per interval and the answer remembered |
| Grants.CallExactly | src/ha_rbac_gateway/filters.py:73-115 | The verdict on any call, from its two raw containers and the snapshot: no bare wildcard, label or floor; areas and devices only while the snapshot is fresh; something is addressed, by id or as registered in a given area or device; and a control rule covers every entity addressed |
| Grants.CallsNeedControl | src/ha_rbac_gateway/policy.py:279-280 | Policies with the same control rules get the same verdict on every call; without control rules every call is denied |
| ServiceCalls.ServiceCallAllowed | src/ha_rbac_gateway/filters.py:73-115 | True exactly when there is no bare wildcard, label or floor in either container, every area and device value of both resolves, at least one entity is addressed, and all of them may be controlled |
| ServiceCalls.ExpandTargets | src/ha_rbac_gateway/filters.py:87-106 | The loop that removes from the list whose copy it walks leaves exactly the entries that cannot be expanded, also when a kind occurs twice |
| ServiceCalls.ResolveServiceTargets | src/ha_rbac_gateway/filters.py:28-70 | Collects every listed id and, in order, everything that is not yet a set of entities |
| ServiceCalls.VerdictIsSymmetric | src/ha_rbac_gateway/filters.py:65-66 | Swapping service data and target does not change the verdict |
| ServiceCalls.CallsAreMonotone | src/ha_rbac_gateway/filters.py:89-115 | A call accepted under fewer rules or a staler snapshot is accepted under more rules or a fresher one |
| ServiceCalls.AreaGrantAllowsAreaCall | src/ha_rbac_gateway/filters.py:93-115 | On a fresh snapshot, control of a non-empty area makes a call on that area succeed, whatever parameters it carries, as long as they name no further target |
| Grants.AccessExactly | src/ha_rbac_gateway/policy.py:266-283 | On every view: control if and only if a control rule names the entity, its domain, or the area a fresh snapshot registers it in; reading if and only if a rule of either level does |
| Grants.DomainExactly | src/ha_rbac_gateway/policy.py:266-277 | The domain of an id is the part before its first dot, the whole id without one |
| Grants.EnumerationExactly | src/ha_rbac_gateway/policy.py:298-310 | An id is enumerated if and only if a rule lists it, or the snapshot is fresh, registers it, and some rule covers it |
| GatewayFreshness.AccessAges | src/ha_rbac_gateway/registry.py:106-147 | Over any history after a refresh at `t0` without another: up to and including `t0 + stale_max` control, reading and enumeration are exactly those of the refreshed snapshot, and from then on exactly the static ones, with no area or device visible |
| GatewayFreshness.RefreshLasts | src/ha_rbac_gateway/registry.py:85-110 | Whatever else happens, the registry is consulted as the snapshot of the last refresh, for exactly `stale_max` after it |
| GatewayFreshness.UnfetchedIsStatic | src/ha_rbac_gateway/registry.py:106-107 | Over any history before the first refresh access is static |
| GatewayFreshness.CacheAgesExactly | src/ha_rbac_gateway/registry.py:106-110 | The cache object counts as fresh exactly when it was fetched and its age is at most the limit |
| Evaluator.EnumerationRefinesPredicate | src/ha_rbac_gateway/policy.py:279-310 | Every enumerated id is readable; fresh, the enumeration is the static ids plus every registered readable entity; stale, just the static ids |
| Evaluator.EnumerableReadEntities | src/ha_rbac_gateway/policy.py:298-310 | The sorted list is exactly the enumerable set at that instant |
| Evaluator.IndexesAreInverse | src/ha_rbac_gateway/registry.py:112-147 | Area and device look-ups invert the forward maps, and the visible areas and devices are exactly those that own a registered readable entity |
| Evaluator.AccessIsMonotone | src/ha_rbac_gateway/policy.py:266-310 | Readable, controllable and enumerable sets, areas and devices only shrink as the snapshot ages and only grow as rules are added or raised; which they are is `Grants.AccessExactly` |
| Evaluator.ClockOnlyAges | src/ha_rbac_gateway/registry.py:106-110 | Between refreshes a later instant sees the same snapshot, fresh only if it was fresh before; until when is `GatewayFreshness.RefreshLasts` |
| Evaluator.StaleAccessIsStatic | src/ha_rbac_gateway/registry.py:106-135 | On a view that is not fresh access is exactly the entity and domain rules, and enumeration the static ids; when a view stops being fresh is `GatewayFreshness.AccessAges` |
| Evaluator.StaleIsListedOnlyExactly | src/ha_rbac_gateway/policy.py:266-283 | Past the limit access is the listed ids, as documented, exactly for policies without domain rules |
| Registry.RegistryCache.Refresh | src/ha_rbac_gateway/registry.py:85-97 | Replaces both indexes by those of the two lists, or raises and changes nothing |
| Registry.RegistryCache.EntitiesMatchingNow | src/ha_rbac_gateway/registry.py:128-135 | The registered entities in one of the domains or areas, none when stale |
| Registry.IndexIsLastEntry | src/ha_rbac_gateway/registry.py:88-94 | After any refresh both indexes list exactly the registered entities, each by the last entry that names it |
| Registry.AreaIsOwnOrDevices | src/ha_rbac_gateway/registry.py:85-93 | An entity's area is its own, else that of the last device entry with its device id, else none |
| Registry.DeviceAreasIsLastDevice | src/ha_rbac_gateway/registry.py:85 | The device index gives each listed device the area of its last entry |
| Filters.FilterCompressedEntitiesEvent | src/ha_rbac_gateway/filters.py:118-137 | The three sections restricted to allowed entities, empty ones left out, nothing when nothing survives, raising on a removed name that is no string |
| Filters.FilterPanels | src/ha_rbac_gateway/filters.py:207-236 | Exactly the panels of the user's dashboards and the essential ones, plus the alias of the default when the router's entry is missing |
| Filters.FilterStates | src/ha_rbac_gateway/policy.py:312-319 | Exactly the readable state objects, in order |
| Filters.RedactHomeLocation | src/ha_rbac_gateway/filters.py:17-25 | Coordinates that are present become zero and nothing else changes |
| DashboardCoherence.PanelsOpen | src/ha_rbac_gateway/filters.py:223-236 | Every panel kept or synthesized is an essential one, or its path is forwarded by the dashboard handler for a dashboard of the policy |
| DashboardCoherence.PanelsAreKept | src/ha_rbac_gateway/filters.py:222-230 | The user's panels and the essential ones stay as HA sent them, and nothing but the router's entry is added |
| DashboardCoherence.PanelsAreMonotone | src/ha_rbac_gateway/filters.py:222-230 | With more dashboards in the policy no panel that was kept is lost |
| DashboardCoherence.DefaultEntryExists | src/ha_rbac_gateway/filters.py:231-235 | If the default dashboard is among HA's panels, the router's default entry exists |
| DashboardCoherence.OpensExactly | src/ha_rbac_gateway/ws_proxy.py:420-430 | A path opens exactly when the policy lists it or it is the alias of a default; a missing path never opens beside the listed built-in |
| DashboardCoherence.LandingPanelOpens | src/ha_rbac_gateway/ws_proxy.py:534-542 | The landing panel written into the core event opens exactly for users with a default or the built-in dashboard |
| PolicyDocuments.AcceptedExactly | src/ha_rbac_gateway/policy.py:111-202 | Exactly which documents the parser accepts, key by key: known keys only, exactly one of id and name filled, rules with a well-shaped id and a known level, a boolean grant, a list of dashboard strings |
| PolicyDocuments.ParsedExactly | src/ha_rbac_gateway/policy.py:111-202 | For every accepted document: an id is under control if and only if some rule of the list has it with access `control`, under reading if and only if some rule has it with access `read` or none; token management only for `true`; the user is the one named |
| PolicyDocuments.ParsedDashboards | src/ha_rbac_gateway/policy.py:180-202 | The default dashboard is the one named, and a dashboard is allowed if and only if the document lists it |
| Policies.ParsePolicy | src/ha_rbac_gateway/policy.py:138-202 | Taking the document part by part gives the policy, or the rejection, that `PolicyDocuments.AcceptedExactly` and `ParsedExactly` give from the raw document |
| Policies.ParseRules | src/ha_rbac_gateway/policy.py:111-135 | One rule per item, in order, or a rejection if any item is malformed; what a rule means is `PolicyDocuments.ParsedExactly` |
| PolicyStores.DuplicateCheckExact | src/ha_rbac_gateway/policy.py:209-216 | The counting check accepts exactly the lists in which no two policies claim the same non-empty id or name |
| PolicyStores.LoadDir | src/ha_rbac_gateway/policy.py:218-232 | Reads the loadable files in sorted order and refuses the directory if one does not parse or two clash |
| PolicyStores.LoadExact | src/ha_rbac_gateway/policy.py:209-232 | Loading succeeds exactly when every policy file parses and no two claim one user; the store is then exactly the policies of the files |
| PolicyStores.LoadableExactly | src/ha_rbac_gateway/policy.py:218-232 | A file is read if and only if its name ends in `.yaml` or `.yml` and does not begin with a dot |
| PolicyStores.LeftoversAreNotLoaded | src/ha_rbac_gateway/admin_api.py:268-300 | Backups and half-written files are never read |
| PolicyStores.LoadInOrder | src/ha_rbac_gateway/policy.py:218-232 | The store holds one policy a file, in increasing order of the file names, which is the order `find` and the admin look in |
| PolicyStores.FindIsEligible | src/ha_rbac_gateway/policy.py:234-243 | What `find` gives is in the store, matches the identity, and is by name only if no policy has its id; it gives nothing only if nothing matches |
| PolicyStores.FindExact | src/ha_rbac_gateway/policy.py:234-243 | `find` gives a policy if and only if it is the eligible one, for an identity with an id, and for any when at most one policy sets an empty id |
| PolicyStores.FindIsOrderFree | src/ha_rbac_gateway/policy.py:234-243 | Permuting the files changes neither acceptance nor what `find` gives, under the same condition |
| PolicyStores.FindIsOrderFreeExactly | src/ha_rbac_gateway/policy.py:209-243 | For every accepted store, every permutation of the files gives the same policy if and only if the identity has an id or at most one policy sets an empty id |
| PolicyStores.EligibleIsUnique | src/ha_rbac_gateway/policy.py:209-243 | At most one policy is eligible for an identity, under the same condition |
| PolicyStores.EmptyIdIsOrderDependent | src/ha_rbac_gateway/policy.py:145-156 | Two policy files that set an empty id beside a name parse and load, and the order in which they are read then matters to an identity without an id |
| PolicyEditor.EditorToMapping | src/ha_rbac_gateway/admin_api.py:54-101 | Fills the document part by part, leaving out what is falsy, and raises exactly when a part cannot be read |
| PolicyEditor.FormExactly | src/ha_rbac_gateway/admin_api.py:54-101 | Which payloads can be read as a form, and where each of its parts is taken from |
| PolicyEditor.ToEditorExactly | src/ha_rbac_gateway/policy.py:73-93 | The form of a policy, part by part: each list holds exactly the control ids, then those that are only read, each once and in order |
| PolicyEditor.DocumentRoundTrip | src/ha_rbac_gateway/admin_api.py:71-101 | The document written, with its defaults left out, is taken apart by the parser into the same parts |
| EditorRoundTrips.EditorRoundTrip | src/ha_rbac_gateway/policy.py:73-93 | For every parsed policy, editor form, document and parser always succeed and give its normal form |
| EditorRoundTrips.NormalGrantsTheSame | src/ha_rbac_gateway/policy.py:78-83 | The normal form allows the same entities at every instant and for every registry, the same dashboards and tokens |
| EditorRoundTrips.NormalMatchesTheSame | src/ha_rbac_gateway/admin_api.py:71-76 | It matches the same identities if and only if the policy's id is not an empty string |
| EditorRoundTrips.SecondTripIsIdentity | src/ha_rbac_gateway/admin_api.py:54-101 | A second trip through the editor changes nothing |
| PutPayloads.RefusedExactly | src/ha_rbac_gateway/admin_api.py:250-265 | A PUT is refused, and changes nothing, exactly when its raw payload is not acceptable: no object, a user or dashboards of another shape, no user named or one named by something other than a string, a rule without a well-shaped id and a known level, a default that is no string, allowed dashboards that cannot be gone through, or a grant other than true |
| PolicyAdmin.PutIsMapUpdate | src/ha_rbac_gateway/admin_api.py:250-284 | For any key and any payload, by id or by name: a PUT that is not stored changes nobody's policy. A stored one leaves store and directory in step; whoever the payload's policy matches is given it, but for a match by name that an id in another file beats; anyone else's policy is unchanged if and only if it did not come from the file written |
| PolicyAdmin.WellAimedIsStored | src/ha_rbac_gateway/admin_api.py:146-151 | A PUT about the user its key addresses, by id or by name, that the parser takes is always stored unless a policy claims the key the other way round |
| PolicyAdmin.PutGivesThePolicy | src/ha_rbac_gateway/admin_api.py:260-277 | A payload that names the user by the id of the path, and that the parser takes, gives that user its policy unless the id is some policy's user name |
| PolicyAdmin.PutTouchesNobodyElse | src/ha_rbac_gateway/admin_api.py:146-151 | When the key has a file already or its slug is a new file, only those the new policy matches, or the policy the key addressed before, are affected |
| PolicyAdmin.PutGrantsThePayload | src/ha_rbac_gateway/admin_api.py:254-277 | After any stored PUT, whoever is served from the file written has exactly what the payload asks for: rules at each level, allowed and default dashboards, token management |
| PolicyAdmin.PayloadGrantsExactly | src/ha_rbac_gateway/admin_api.py:60-69 | An id is granted at a level if and only if the form has a rule for it at that level, reading being the default |
| PolicyAdmin.ReloadFailsExactly | src/ha_rbac_gateway/admin_api.py:268-279 | An accepted payload fails to reload exactly when another file claims its user, and exactly then the directory no longer matches the store |
| PolicyAdmin.ReloadCanFail | src/ha_rbac_gateway/admin_api.py:268-279 | With a policy for `u1`, a PUT for `u2` whose payload names `u1` is accepted by the parser, fails to reload, and leaves the directory out of step |
| PolicyAdmin.WriteReloadsExactly | src/ha_rbac_gateway/policy.py:209-232 | After one file is written, loading succeeds exactly when no other file claims the same user |
| PolicyAdmin.FrameOfChange | src/ha_rbac_gateway/policy.py:234-243 | Replacing or removing one file's policy changes `find` for an identity the new policy does not match if and only if that identity was served from the file |
| PolicyAdmin.DeleteIsMapRemoval | src/ha_rbac_gateway/admin_api.py:286-305 | DELETE never fails to reload, keeps store and directory in step, and takes a policy from exactly those who had the removed one |
| PolicyAdmin.DeleteUndoesPut | src/ha_rbac_gateway/admin_api.py:250-305 | For a key without a policy, DELETE after a stored PUT about that key restores directory and store exactly |
| PolicyChanges.StrandsExactly | src/ha_rbac_gateway/server.py:67-76 | For any two stores that loaded: everybody the key does not name who had a policy keeps it, if and only if no policy that goes serves such a user and none that comes takes one by id from a policy that serves by name |
| PolicyChanges.SparesExactly | src/ha_rbac_gateway/policy.py:234-243 | For any two stores that loaded: `find` is unchanged for everybody the key does not name, with a policy or without, if and only if the stores differ at most in policies for users it names |
| PolicyChanges.PutStrandsExactly | src/ha_rbac_gateway/admin_api.py:250-284 | For a stored PUT, the condition of `StrandsExactly` in terms of the store, the file and the payload before it |
| PolicyChanges.PutSparesExactly | src/ha_rbac_gateway/admin_api.py:250-284 | For a stored PUT, the condition of `SparesExactly`: the payload is about a user the key names and the file served nobody else, or nothing changes |
| PolicyChanges.ProperPutSpares | src/ha_rbac_gateway/admin_api.py:146-151 | A PUT about the user its key addresses, to a file of its own, spares everybody else however it ends |
| PolicyChanges.DeleteSpares | src/ha_rbac_gateway/admin_api.py:286-305 | While store and directory are in step DELETE spares everybody else and keeps them in step |
| PolicyAdmin.TemplateIsWellAimed | src/ha_rbac_gateway/admin_api.py:237-248 | The empty template given for a user without a policy is itself a payload that PUT accepts for that user |
| AdminRuns.StoreWasLoaded | src/ha_rbac_gateway/server.py:54-59 | After any history of PUTs, DELETEs and hand edits, with any payloads, the running store is a whole directory state that once loaded, and no two of its policies claim one user |
| PolicyAdmin.SafeFilenameIsLoadable | src/ha_rbac_gateway/admin_api.py:104-106 | Whatever the key, the name is one short loadable file of the directory, with no slash |
| PolicyAdmin.GoodKeyNamesItsFile | src/ha_rbac_gateway/admin_api.py:104-106 | A key of at most eighty letters, digits, hyphens and underscores names its own file |
| PolicyAdmin.NameExactly | src/ha_rbac_gateway/admin_api.py:104-106 | Any key is named by its first eighty characters, each other character a hyphen; the empty one is `user` |
| PolicyAdmin.SlugsCollide | src/ha_rbac_gateway/admin_api.py:104-106 | The keys `a b` and `a-b` share a file name, and on a fresh installation a PUT for the second leaves the user of the first without the policy just given |
| PolicyAdmin.SecondTakesFirst | src/ha_rbac_gateway/admin_api.py:146-151 | The same for any two ids that share a slug |
| PolicyAdmin.ExistingFileFor | src/ha_rbac_gateway/admin_api.py:146-151 | The file of the first policy the key addresses, else the slug |
| Gateways.Gateway.PutPolicy | src/ha_rbac_gateway/admin_api.py:250-284 | Does to directory and store what PUT means, closes the sessions the key names exactly when stored and touches no other; those it leaves open run under the policy their users would be given now if everybody else whom the store served keeps theirs |
| Gateways.Gateway.DeletePolicy | src/ha_rbac_gateway/admin_api.py:286-305 | The same for DELETE; and always so while store and directory are in step |
| Gateways.Gateway.DisconnectUser | src/ha_rbac_gateway/server.py:67-76 | Closes exactly the sessions whose user id or name is the key, changes nothing else of any, and counts them |
| Gateways.Gateway.ReloadPolicies | src/ha_rbac_gateway/server.py:54-59 | Swaps the store only if the whole directory loads |
| Gateways.Gateway.RegisterWs | src/ha_rbac_gateway/server.py:48-62 | Nobody without a policy gets a session, and a new session runs under the policy found |
| IdentityCache.OneQuestionPerToken | src/ha_rbac_gateway/identity.py:45-52 | In every interleaving at most one question to HA is in flight per token, and a waiting call is kept out only by such a question |
| IdentityCache.CacheServesReports | src/ha_rbac_gateway/identity.py:40-60 | Everything served from the cache was reported by HA for that token in reply to a question put less than its time to live before; the cache never exceeds 10,000 entries |
| IdentityCache.CachingIsTransparent | src/ha_rbac_gateway/identity.py:36-60 | If HA is consistent about its tokens, every call that did not fail returns just what HA says |
| IdentityCache.OnlyAnswersChangeCache | src/ha_rbac_gateway/identity.py:51-55 | Failed and cancelled questions leave the cache as it was and free the lock |
| IdentityCache.AnswersAreKept | src/ha_rbac_gateway/identity.py:56-60 | An answer enters the cache under its token until its time to live after the question, thirty seconds for a rejection, and nothing else in it changes, but that a cache grown over 10,000 entries is emptied |
| IdentityCache.GoodEntryIsServed | src/ha_rbac_gateway/identity.py:40-44 | A call that finds an entry still good returns it at once and changes nothing else |
| IdentityCache.WaiterIsServed | src/ha_rbac_gateway/identity.py:46-50 | So does a call that waited for the lock while another asked |
| IdentityCache.MissAsks | src/ha_rbac_gateway/identity.py:46-52 | Without a good entry the call that gets the lock asks HA |
| IdentityCache.AnswerServesNextCall | src/ha_rbac_gateway/identity.py:36-60 | End to end: as long as an answer is kept, a new call for the token is given it without a question |
| IdentityCache.IdentityResolver.Begin | src/ha_rbac_gateway/identity.py:40-45 | A fresh entry is served, else the token's one lock is made or found |
| IdentityCache.IdentityResolver.Recheck | src/ha_rbac_gateway/identity.py:46-50 | Under the lock the cache is asked again; a hit gives the lock back |
| IdentityCache.IdentityResolver.Learn | src/ha_rbac_gateway/identity.py:56-60 | An answer is kept for its time to live from before the question, and an overfull cache is emptied |
| IdentityCache.Loop.Resume | src/ha_rbac_gateway/identity.py:36-60 | The event loop, resuming one interleaved call at a time on the shared resolver, makes exactly the steps the invariants are proved over |
| RestResponses.GateExactly | src/ha_rbac_gateway/rest_proxy.py:69-101 | Who gets how far before a policy is asked, with the status of each refusal: login and static shell always, nothing else while tripped, public endpoints without a token, admins everything, users without a policy nothing |
| RestResponses.VerdictExactly | src/ha_rbac_gateway/rest_proxy.py:103-179 | The verdict on each request of a user with a policy, from path, verb and body: each of the five outcomes only where it is due, and a refusal only where no other is |
| RestResponses.RelayedExactly | src/ha_rbac_gateway/rest_proxy.py:123-179 | What is relayed for HA's answer: for the state list with 200 and a service call with 200 or 201 exactly the readable states in order, empty on another shape; a configuration without coordinates; everything else as it is |
| RestResponses.AnsweredExactly | src/ha_rbac_gateway/rest_proxy.py:69-179 | End to end for a restricted user: `GET /api/states` and `/api/config` and every forwarded service call are relayed filtered, and a request is relayed unexamined if and only if it is a login path, a static GET, a public prefix, one of two plain paths or the state of a readable entity |
| RestProxy.ServiceVerdictsAgree | src/ha_rbac_gateway/rest_proxy.py:145-178 | On a well-formed path, REST forwards a service call exactly when the WebSocket side does, with the body it checked, but for silenced services |
| RestProxy.StateChannelsAgree | src/ha_rbac_gateway/rest_proxy.py:123-136 | A state is in the filtered list exactly when its single read is forwarded, exactly when its changes are relayed; that the list endpoint delivers that list is `RestResponses.AnsweredExactly` |
| RestProxy.DenialsAreRedundant | src/ha_rbac_gateway/rest_proxy.py:103-119 | Every explicitly denied path is denied by the allowlist alone |
| RestProxy.TrippedForwards | src/ha_rbac_gateway/rest_proxy.py:69-81 | While tripped, exactly the login endpoints and the static shell are forwarded |
| RestProxy.RestIsMonotone | src/ha_rbac_gateway/rest_proxy.py:107-119 | A request forwarded under fewer rules or a staler snapshot is forwarded alike under more or fresher |
| RestProxy.ListsAreMonotone | src/ha_rbac_gateway/policy.py:312-319 | A state list filtered with more rights keeps every element it kept with fewer |
| RestProxy.SplitJoins | src/ha_rbac_gateway/rest_proxy.py:148 | The parts of a service path hold no slash and join to the path |

## Left out

- Transport: sockets, HTTP sessions, header stripping, compression and raw bodies; only which frame or request is forwarded, and which body is relayed, is modelled.
- The window between authentication and registration of a session: the model starts at a registered session, and a registration finds its policy at that instant.
- Admin and owner sessions on the WebSocket side, which bypass the router, and the admin check in front of the admin API.
- Suspension inside one routing step: a step is atomic, also where an empty entity subscription is answered by two frames in a row, and where closing a user's sessions awaits each socket.
- RunningGateway: hand edits of the policy directory are steps of the system but not methods of the object.
- The two pump methods read the clock once for all messages of a coalesced frame; in a run every message has its own instant.
- After a handler raises, the session is taken to end at once; frames already read from the other side are not delivered any more.
- YAML text, string escaping and non-string keys: writing and reading a document is the identity on document trees; a file that is no YAML is a document that is not a mapping.
- The token digest is taken to be injective, and `str.isalnum` is a parameter that is only known to reject the dot and the slash where that matters.
- Backup and temporary files of PUT and DELETE, and crashes between a write and its rename; their names are never loaded.
- Exact wording of denials and log lines; HTTP status codes are modelled for REST denials only, and a payload the editor cannot read is one outcome whether it is a 400 or a 500.
- NaN and infinities in JSON numbers, and rounding of the clock; numbers are integers or reals.
- A default panel given as a non-empty list, which `dict(panel)` may convert if it holds pairs, is taken to raise.
- HA's own behaviour: service execution, token minting, templates. Its answers are arbitrary.
- URL decoding, query parsing and bearer extraction; CORS, the `/context` and `/policies` listings, audit and access logs, configuration, the canary and the web panel.
- The order in which the keys of a mapping are visited when the editor payload gives `allowed` dashboards as an object: they are taken in sorted order, which the parsed set does not show.
- EntityStream.FilteredStreamIsFilteredWorld: fixes the allowed set while the stream is folded, because a set that changes between events has no single filtered world.
