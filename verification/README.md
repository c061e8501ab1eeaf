# A typed publish/subscribe dispatcher, modelled in Dafny

This project models the sequential core of a small Java event bus. It proves
properties of that model.

- **Subscriptions** are bound to one event type and one of six priorities.
  Each carries an ordered list of filters, an ordered list of expiries, a
  handler and an error action. Its mutable state is an active flag and a call
  counter.
- **Handler lists** exist one per event type. Each keeps its subscriptions in
  six priority buckets, in registration order. It caches a "baked" snapshot:
  the buckets concatenated from LOWEST to MONITOR.
- **Publishing an event** takes that snapshot once. It executes every entry in
  order and swallows whatever a subscription throws, so the remaining entries
  still run.
- **The subscription builder** accumulates filters and expiries, offers
  `ignoreCancelled` and `expireAfter(maxCalls)`, and finally builds the
  subscription and registers it.

## How the model is organised

Each Java class is one module, in its own file.

| file | module | models |
|---|---|---|
| `wrappers.dfy` | `Wrappers` | `Option` and `Result` |
| `event_priority.dfy` | `EventPriority` | the six priorities and their slots |
| `event_model.dfy` | `EventModel` | abstract events and the outcomes of user code |
| `handler_list.dfy` | `HandlerList` | one handler list, and the directory of all of them |
| `subscription.dfy` | `Subscription` | a subscription and `execute` |
| `event_bus.dfy` | `EventBus` | registration delegation, `fireEvent` and `call` |
| `subscription_builder.dfy` | `SubscriptionBuilder` | the fluent builder |
| `scenarios.dfy` | `Scenarios` | the repository's tests, as lemmas |

Modelling choices:

- **Identity.** A subscription is an identity, `SubId = nat`. Handler lists
  store ids. The bus keeps the subscription objects in `subs`, a map from id
  to `Subscription`. This matches the Java code, where lists compare
  subscriptions by reference.
- **User code.** Filters, expiries, handlers and error actions are function
  values.
  - A predicate either returns a boolean or throws (`Verdict`).
  - A handler or error action returns the event state it left behind, plus
    the throwable it raised, if any (`Run`). So a handler that mutates the
    event and then throws is expressible.
- **Expiry input.** An expiry sees a `View` of its subscription: the values
  its getters return.
- **Registry invariant.** `Coherent` says that a present cache equals the
  flattened buckets. `Register`, `Unregister`, `Bake` and `Listeners` all
  preserve it.
- **Bus invariant.** `EventBus.Valid` adds that every id in a bucket names a
  known subscription of that bucket's priority, and that no bucket holds an id
  twice.
- **Handler-list lookup.** The reflective per-type lookup of the handler list
  is the map `handlerLists`, from an event type to a position in the
  directory. A type missing from the map is a lookup that failed: register
  and unregister then do nothing, as in the Java `catch` blocks.
- **Unregistration from inside `execute`.** When `execute` asks for its own
  unregistration, the dispatcher carries it out through `UnregisterListener`
  while the dispatch is still running. The snapshot being dispatched is never
  affected.

In these places the model follows the Java code as written:

- **The cast.** It is an exact comparison of type tags. On a mismatch,
  `execute` takes the `CastRejected` path. The cast sits before the `try`, so
  its ClassCastException escapes `execute`, and `fireEvent` swallows it.
- **Throwing expiries.** An expiry that throws is also outside the `try`. Its
  failure escapes `execute` (`ExpiryRaised`).
- **Throwing filters.** A filter that throws is inside the `try`. It is
  handed to the error action, just like a throwing handler (`FilterRaised`).
- **Throwing error actions.** A failure raised by the error action itself
  escapes `execute`, and is then swallowed by the dispatch loop. It is not
  absorbed inside `execute`.
- **Unregistration and the active flag.** Unregistering from outside only
  removes the subscription from its handler list. The active flag changes
  only through an expiry.
- **Assertions in test handlers.** An assertion that fails inside a handler
  throws, and `execute` catches it and hands it to the error action. The
  scenario lemmas therefore prove directly that such handlers are never
  invoked, or that every check passes. They do not rely on a test failing.

## Model

| member | source | states |
|---|---|---|
| EventPriority.FromSlot | src/main/java/me/toddcarter/event/EventPriority.java:13-44 | the priority owning slot `k` (for `k` in 0..5) is one whose `getSlot` returns `k` |
| EventPriority.SlotRoundTrip | src/main/java/me/toddcarter/event/EventPriority.java:13-44 | going from a priority to its slot and back gives the same priority, so no two priorities share a slot |
| EventPriority.SlotsFollowDeclaration | src/main/java/me/toddcarter/event/EventPriority.java:13-34 | there are exactly six constants; the `i`-th declared one has slot `i`; every priority is among them; equal slots mean equal priorities |
| EventPriority.MonitorIsLast | src/main/java/me/toddcarter/event/EventPriority.java:30-34 | MONITOR has the greatest slot, strictly above every other priority's |
| HandlerList.Create | src/main/java/me/toddcarter/event/HandlerList.java:69-77 | a new handler list has six empty buckets and no cache; it is appended to the directory and earlier lists are kept; it is coherent and its snapshot lists no subscription |
| HandlerList.Register | src/main/java/me/toddcarter/event/HandlerList.java:84-89 | fails exactly when the id is already in its priority's bucket, with the error naming that priority; otherwise the id is appended at the end of that bucket, every other bucket is unchanged, and the cache is dropped |
| HandlerList.RegisterAll | src/main/java/me/toddcarter/event/HandlerList.java:96-100 | a failure is reported at the position of an element of the collection |
| HandlerList.RegisterAllKeeps | src/main/java/me/toddcarter/event/HandlerList.java:96-100 | registering a collection never removes an entry that was already registered |
| HandlerList.RegisterAllRegistersEach | src/main/java/me/toddcarter/event/HandlerList.java:96-100 | when the loop completes, every element of the collection is registered |
| HandlerList.RegisterAllStopsAtDuplicate | src/main/java/me/toddcarter/event/HandlerList.java:96-100 | when the loop throws at position `k`, the list is what registering the first `k` elements leaves, those `k` all succeed, and element `k` is a duplicate there |
| HandlerList.RegisterAllStep | src/main/java/me/toddcarter/event/HandlerList.java:96-100 | the collection is registered in its own order: extending a completed batch by one element registers exactly that element on the list the batch left, and a duplicate there stops the batch at that element's position |
| HandlerList.Remove | src/main/java/me/toddcarter/event/HandlerList.java:110-115 | the iterator loop removes every occurrence of the id and keeps the multiset of the other entries |
| HandlerList.RemoveDistributes | src/main/java/me/toddcarter/event/HandlerList.java:110-115 | removing an id from a concatenation removes it from each part, so the relative order of the remaining entries is kept |
| HandlerList.Unregister | src/main/java/me/toddcarter/event/HandlerList.java:107-118 | every bucket loses every occurrence of the id, and the id occurs nowhere afterwards; the cache is dropped when something was removed; the list is unchanged otherwise; coherence is kept |
| HandlerList.UnregisterKeepsOthers | src/main/java/me/toddcarter/event/HandlerList.java:107-118 | removing one id keeps every other id that was in the list |
| HandlerList.RegisterThenUnregister | src/main/java/me/toddcarter/event/HandlerList.java:84-118 | registering an id that was in no bucket, then unregistering it, restores every bucket, and the snapshot taken afterwards equals the flattening of the original buckets |
| HandlerList.Bake | src/main/java/me/toddcarter/event/HandlerList.java:123-130 | a present cache is left alone; a missing one becomes the buckets flattened LOWEST to MONITOR; the buckets never change; coherence is kept |
| HandlerList.BakeIdempotent | src/main/java/me/toddcarter/event/HandlerList.java:123-124 | baking twice is the same as baking once |
| HandlerList.Listeners | src/main/java/me/toddcarter/event/HandlerList.java:137-141 | always returns a snapshot, which is now the cache; on a coherent list it equals the flattened buckets |
| HandlerList.ConcatSix | src/main/java/me/toddcarter/event/HandlerList.java:126-128 | flattening lays the six buckets end to end, from slot 0 to slot 5 |
| HandlerList.SnapshotOrdered | src/main/java/me/toddcarter/event/HandlerList.java:123-141 | the snapshot's priority slots never decrease along it, and each priority's bucket appears in it as one contiguous segment in registration order |
| HandlerList.BakeAll | src/main/java/me/toddcarter/event/HandlerList.java:27-33 | every handler list has a cache afterwards, equal to its flattened buckets when the list was coherent; no bucket changes |
| HandlerList.UnregisterAll | src/main/java/me/toddcarter/event/HandlerList.java:38-49 | every bucket of every handler list is empty, every cache is absent, and no id occurs anywhere |
| HandlerList.UnregisterAllOf | src/main/java/me/toddcarter/event/HandlerList.java:56-62 | each handler list becomes `unregister` of it; the subscription occurs in none of them afterwards; coherence is kept |
| Subscription.New | src/main/java/me/toddcarter/subscription/Subscription.java:29-39 | a new subscription is active with counter 0, keeps the given configuration, and takes its register time from the clock reading |
| Subscription.ScanAll | src/main/java/me/toddcarter/subscription/Subscription.java:51-65 | predicates are tested in list order. The scan stops at the first one that returns the stopping value, or at the first that throws, and every earlier one returned the other value. It is clear exactly when all of them returned the other value |
| Subscription.ScanAppend | src/main/java/me/toddcarter/subscription/Subscription.java:51-65 | appending a predicate never changes an outcome decided by an earlier one; the new predicate is consulted only when all earlier ones passed |
| Subscription.Execute | src/main/java/me/toddcarter/subscription/Subscription.java:42-76 | The paths are: an inactive subscription only asks to be unregistered; a wrong type raises ClassCast; the expiries are tested in order over the subscription's own state, before any filter; the first true one deactivates it and asks for unregistration, and the handler does not run; the filters are then tested in order; the first false one suppresses the handler and the error action silently; a filter or handler that throws goes to the error action, and the event is passed on as the handler left it. The counter rises by one exactly on a normal handler return. The active flag only ever goes from true to false, and only through an expiry. |
| Subscription.Replay | src/main/java/me/toddcarter/subscription/Subscription.java:42-76 | repeated executions record one path per event and never change a subscription's configuration |
| Subscription.CounterCountsDeliveries | src/main/java/me/toddcarter/subscription/Subscription.java:68-71 | over any sequence of executions, the counter grows by exactly the number of normal handler returns, and never decreases |
| Subscription.InactiveIsTerminal | src/main/java/me/toddcarter/subscription/Subscription.java:43-46 | an inactive subscription stays exactly as it is, and every later execution only asks to be unregistered |
| Subscription.NeverReactivated | src/main/java/me/toddcarter/subscription/Subscription.java:42-57 | a subscription active after a sequence of executions was active before it, and no execution in between expired it |
| EventBus.RegisterListener | src/main/java/me/toddcarter/eventbus/EventBus.java:20-30 | A failed lookup changes nothing. Otherwise it fails exactly when the subscription is already in its priority's bucket of the resolved list, and that duplicate error reaches the caller. On success the id is appended to that bucket. Every other bucket and every other list is unchanged, and the resolved list's cache is dropped. |
| EventBus.UnregisterListener | src/main/java/me/toddcarter/eventbus/EventBus.java:38-48 | a failed lookup changes nothing; otherwise the resolved list becomes `unregister` of it and every other list is unchanged; no entry is ever added; the bus stays valid |
| EventBus.Deliver | src/main/java/me/toddcarter/eventbus/EventBus.java:68-79 | One loop iteration is exactly one `execute` of the entry on the current event: the path, the resulting event and the entry's new state are those of `Subscription.Execute`. Whatever escapes `execute` is swallowed. A requested unregistration makes the resolved handler list `unregister` of it, with the entry gone and every other list unchanged; without a request no list changes. Other subscriptions are untouched and the counter follows the path taken. |
| EventBus.DeliverAll | src/main/java/me/toddcarter/eventbus/EventBus.java:68-79 | the dispatch visits every snapshot entry exactly once, in snapshot order, whatever each execution did; the bus stays valid and keeps its subscriptions and lookups |
| EventBus.DeliverAllSplit | src/main/java/me/toddcarter/eventbus/EventBus.java:72-78 | dispatching a snapshot in two parts, the second from the state the first left, gives the same bus, event and trace as dispatching it whole |
| EventBus.DispatchRunsExecute | src/main/java/me/toddcarter/eventbus/EventBus.java:72-78 | the i-th visit of a dispatch takes the path `execute` takes on the i-th entry, in the state and on the event the first i visits left |
| EventBus.DispatchStepState | src/main/java/me/toddcarter/eventbus/EventBus.java:72-78 | after i + 1 visits the event and the i-th entry are what `execute` of that entry made of the state the first i visits left |
| EventBus.DeliverKeepsOthers | src/main/java/me/toddcarter/subscription/Subscription.java:42-57 | one visit keeps every id of every handler list, except the visited entry when its execution asked to be unregistered |
| EventBus.DispatchKeepsUnrequested | src/main/java/me/toddcarter/subscription/Subscription.java:42-57 | an id whose visits never asked to be unregistered is still in every handler list it was in before the dispatch |
| EventBus.DispatchKeepsConfig | src/main/java/me/toddcarter/subscription/Subscription.java:15-27 | a dispatch changes no subscription's configuration, only active flags and counters |
| EventBus.DispatchSkipsOthers | src/main/java/me/toddcarter/eventbus/EventBus.java:68-79 | a subscription absent from the snapshot is left exactly as it was |
| EventBus.DispatchOnlyRemoves | src/main/java/me/toddcarter/eventbus/EventBus.java:68-79 | every entry in a handler list after a dispatch was in it before |
| EventBus.CountersMatchDeliveries | src/main/java/me/toddcarter/subscription/Subscription.java:67-71 | over a dispatch, each subscription's counter grows by exactly the number of its normal handler returns in the trace |
| EventBus.DispatchNeverReactivates | src/main/java/me/toddcarter/subscription/Subscription.java:43-56 | an inactive subscription is still inactive after a dispatch |
| EventBus.RequestedUnregistrationsTakeEffect | src/main/java/me/toddcarter/subscription/Subscription.java:42-57 | every visited entry whose execution asked to be unregistered is absent from its handler list when the dispatch is over |
| EventBus.FireEvent | src/main/java/me/toddcarter/eventbus/EventBus.java:68-79 | the trace's ids are exactly the flattened buckets of the event's handler list, in order; the bus stays valid; the event keeps its type |
| EventBus.FireDispatchesBuckets | src/main/java/me/toddcarter/eventbus/EventBus.java:68-72 | `fireEvent` is the dispatch of the flattened buckets, run on the bus where that handler list has been baked |
| EventBus.Baked | src/main/java/me/toddcarter/eventbus/EventBus.java:69-70 | taking the snapshot changes no bucket, no subscription and no lookup, and keeps the bus valid; the event's list now caches its flattened buckets, as `getRegisteredListeners` leaves it, and every other list, cache included, is untouched |
| EventBus.SnapshotOfKnown | src/main/java/me/toddcarter/eventbus/EventBus.java:69-70 | on a valid bus the snapshot is the flattened buckets; it holds exactly the ids registered in the list, and all of them are known subscriptions |
| EventBus.FireSkipsUnregistered | src/main/java/me/toddcarter/eventbus/EventBus.java:68-79 | a subscription in none of the buckets of the event's handler list is neither visited nor changed |
| EventBus.Call | src/main/java/me/toddcarter/eventbus/EventBus.java:57-66 | a call dispatches to exactly the flattened buckets of the event's handler list; the bus stays valid and keeps its subscriptions, lookups, id counter and number of lists |
| EventBus.CallDispatches | src/main/java/me/toddcarter/eventbus/EventBus.java:57-79 | in either mode, `call` is the dispatch of the flattened buckets on the bus where the event's list has been baked, so every visit is an `execute` of its entry |
| EventBus.SyncAndAsyncAgree | src/main/java/me/toddcarter/eventbus/EventBus.java:57-66 | `call(event, true)` and `call(event, false)` do the same thing |
| EventBus.ThrowingHandlerNeverCounts | src/main/java/me/toddcarter/subscription/Subscription.java:59-75 | a subscription whose handler always throws keeps its counter through a publish, and the publish still visits every entry |
| EventBus.NoDeliveriesOfThrowing | src/main/java/me/toddcarter/subscription/Subscription.java:67-75 | a subscription whose handler always throws has no normal return in any dispatch trace |
| SubscriptionBuilder.NoOp | src/main/java/me/toddcarter/subscription/SubscriptionBuilder.java:41-41 | the default handler leaves the event as it was and returns normally |
| SubscriptionBuilder.PrintStackTrace | src/main/java/me/toddcarter/subscription/SubscriptionBuilder.java:42-42 | the default error action leaves the event as it was and raises nothing |
| SubscriptionBuilder.NewBuilder | src/main/java/me/toddcarter/subscription/SubscriptionBuilder.java:34-43 | a new builder has the given type and priority, no filters and no expiries, a handler that changes nothing, and an error action that changes nothing |
| SubscriptionBuilder.AddFilter | src/main/java/me/toddcarter/subscription/SubscriptionBuilder.java:50-54 | the filter is appended after the existing ones, which are kept; the expiries, type, priority, handler and error action are unchanged |
| SubscriptionBuilder.ExpireIf | src/main/java/me/toddcarter/subscription/SubscriptionBuilder.java:74-78 | the expiry is appended after the existing ones, which are kept; the filters, type, priority, handler and error action are unchanged |
| SubscriptionBuilder.NotCancelled | src/main/java/me/toddcarter/subscription/SubscriptionBuilder.java:60-65 | the filter returns true exactly when the event is not a cancelled Cancellable event |
| SubscriptionBuilder.IgnoreCancelled | src/main/java/me/toddcarter/subscription/SubscriptionBuilder.java:59-67 | adds one filter after the existing ones; it rejects exactly the cancelled Cancellable events; the expiries, type, priority, handler and error action are unchanged |
| SubscriptionBuilder.ExpireAfter | src/main/java/me/toddcarter/subscription/SubscriptionBuilder.java:85-89 | fails with IllegalArgument exactly when `maxCalls < 1`; otherwise it appends the expiry that is true once the counter reaches `maxCalls` |
| SubscriptionBuilder.OnError | src/main/java/me/toddcarter/subscription/SubscriptionBuilder.java:111-115 | replaces the error action and keeps the filters, expiries, type, priority and handler |
| SubscriptionBuilder.AttachHandler | src/main/java/me/toddcarter/subscription/SubscriptionBuilder.java:122-128 | It creates a subscription with a fresh id, built from the accumulated filters and expiries, with the given handler and the clock reading. The id is appended to its priority's bucket in its type's handler list. The duplicate error cannot occur, and every other bucket and list is unchanged. |
| SubscriptionBuilder.ErrorActionReachesSubscription | src/main/java/me/toddcarter/subscription/SubscriptionBuilder.java:111-128 | the subscription built after `onError(a)`, a filter and an expiry reports to `a`, runs the given handler and holds the earlier filters and expiries followed by the added ones |
| SubscriptionBuilder.FiltersRunInOrderAdded | src/main/java/me/toddcarter/subscription/SubscriptionBuilder.java:50-54 | a filter added last is consulted only when every earlier filter passed, and never changes an outcome they decided |
| SubscriptionBuilder.ExpiriesRunInOrderAdded | src/main/java/me/toddcarter/subscription/SubscriptionBuilder.java:74-78 | an expiry added last is consulted only when no earlier expiry fired or threw |
| Scenarios.AttachToEmpty | src/main/java/me/toddcarter/subscription/SubscriptionBuilder.java:122-128 | a subscription built for a type whose handler list is empty becomes that list's only entry |
| Scenarios.PublishToSole | src/main/java/me/toddcarter/eventbus/EventBus.java:68-79 | A publish to a handler list whose only entry is `id` runs `execute` on it exactly once. The trace, the event, the subscription and the handler list are what that execution determines. |
| Scenarios.PublishFiltered | src/main/java/me/toddcarter/subscription/Subscription.java:61-64 | when that entry's first filter rejects the event, the publish records `FilteredBy(0)`, leaves the event alone and keeps the counter |
| Scenarios.PriorityChain | src/test/java/me/toddcarter/EventTest.java:91-125 | the checkers for slots `k..5`, dispatched in slot order on a counter that starts at `k`, all return normally, and the counter ends at 6 |
| Scenarios.ChainCounts | src/test/java/me/toddcarter/EventTest.java:91-125 | each of those checkers counts exactly one call |
| Scenarios.PriorityOrder | src/test/java/me/toddcarter/EventTest.java:91-125 | on a bus holding one checker per priority, one publish visits them lowest to highest, every check passes, and the counter ends at 6 |
| Scenarios.PriorityOrderEndToEnd | src/test/java/me/toddcarter/EventTest.java:90-126 | This is the priority test. It registers the six slot checkers, lowest first, and publishes a plain event. The checkers run in the order 0..5, every check passes, the counter ends at 6, and each checker counts exactly one call. |
| Scenarios.RegisterThenPublish | src/test/java/me/toddcarter/EventTest.java:13-21 | a subscription built with the marking handler is the only one run by the next publish; the mark is set and one call is counted |
| Scenarios.ExpiryDelivers | src/main/java/me/toddcarter/subscription/SubscriptionBuilder.java:85-89 | below two calls, a publish runs the counting handler and raises the counter by one |
| Scenarios.ExpiryExpires | src/main/java/me/toddcarter/subscription/Subscription.java:51-57 | at two calls, a publish expires the subscription instead: the handler does not run, and the subscription becomes inactive and leaves its handler list |
| Scenarios.ExpireAfterTwoOverThreePublishes | src/test/java/me/toddcarter/EventTest.java:60-75 | This is the expiry test. With `expireAfter(2)`, three publishes of the same event run the handler on the first two, and the event's counter rises by exactly 2. The third publish expires the subscription: it is inactive, its counter is 2, and it is out of its handler list. |
| Scenarios.FilterSuppresses | src/test/java/me/toddcarter/EventTest.java:77-88 | This is the filter test. With the filter `value > 0`, a publish of an event whose value is not positive records `FilteredBy(0)`. The handler is not invoked, the error action is not invoked, and nothing escapes. The event and the counter are unchanged. |
| Scenarios.IgnoreCancelledSuppresses | src/test/java/me/toddcarter/EventTest.java:46-58 | with `ignoreCancelled`, publishing a cancelled Cancellable event stops at that filter: the always-failing handler is not run, and the event and counter are unchanged |
| Scenarios.UnregisterThenPublish | src/test/java/me/toddcarter/EventTest.java:23-32 | a subscription unregistered right after it was built is not visited by the next publish and is left untouched; the handler list holds exactly what it held before the registration |

## Left out

- Concurrency is not modelled: `synchronized`, `volatile`, the atomic fields, the lock on the list of all handler lists, and the serialisation of one subscription's executions. Everything is sequential. The spin loop in `getRegisteredListeners` therefore runs `bake` at most once.
- Reflection is not modelled. The lookup of a type's handler list is a map from event type to handler list. A missing key stands for every failure the `catch` blocks swallow, and `printStackTrace` has no effect.
- Asynchronous execution is not modelled. `Events.callAsync`'s `CompletableFuture` and the `Thread.holdsLock` guard in `call` are out, so both modes dispatch on the caller's thread.
- `EventBus.FireEvent` looks up the event's handler list in the same `handlerLists` map that registration uses. Java reaches the list through two accessors: `registerListener` and `unregisterListener` call the static `getHandlerList` by reflection, while `fireEvent` calls the instance method `event.getHandlers()`. The model assumes that both return the same list, as they do in `TestEvent` and `TestCancellableEvent`. An event class whose accessors return different lists is not modelled. `FireEvent` also requires the event's type to be in the map. Java can publish an event whose reflective lookup fails, using the list that `getHandlers()` returns, but the model cannot publish such an event. The `getHandlers` of other event classes is not part of this model.
- The wall clock is a parameter. The register time is the `now` argument of `New` and `AttachHandler`.
- `expireAfter(time, unit)` is left out because it reads the wall clock. As written, it compares the deadline with the fixed register time, not with the current time.
- Java generics and subtyping are not modelled. `Class.cast` is an exact comparison of type tags, so an event of a subclass is not accepted by a subscription to its superclass.
- `Objects.requireNonNull` checks are left out, because there is no null in the model.
- `Subscription.Execute`: the call counter is an unbounded `nat`. The wrap-around of Java's 64-bit counter after 2^63 increments is not modelled.
- Builder aliasing is not modelled. `handler(h)` passes the builder's own filter and expiry lists to the subscription, so a later `filter` call on the same builder would also change a built subscription. Here the built subscription holds values.
- The `Events` facade is left out, because it only forwards to one static bus. `HandlerList.getHandlerLists` is left out, because it only returns a copy of the directory.
- `Cancellable` and the test fixture classes are left out. Cancellability is a flag on the event, and fields are named integers with default 0.
- Each test is modelled in isolation. The scenario lemmas start from any valid bus whose handler list for the test type is empty, and `Scenarios.StartIsEmpty` shows that the bus with both test types freshly created is such a bus. The suite itself does not run that way. `TestEvent` and `TestCancellableEvent` keep their handler lists in static fields, and no test clears them, so one run of the suite shares those lists across tests. Depending on the order JUnit picks, `testPriority` in a full run may also visit the NORMAL subscriptions left by `testRegister` and `testFilter`.
- User code cannot call back into the bus. A handler maps the event state to a new state and an optional failure; an error action does the same; a filter or an expiry only returns a verdict. None of them can register, unregister or publish, and filters and expiries cannot change the event. `EventBus.DispatchOnlyRemoves`, `EventBus.DispatchSkipsOthers` and `EventBus.FireSkipsUnregistered` depend on these restrictions: in Java a handler that registers a subscription or publishes a nested event during a dispatch breaks them.
