# contraption/events — registry and dispatch, modelled in Dafny

This project models the core of the PHP library `contraption/events`. It has two registries of `Handler` records that share one dispatch loop:

- `EventBus` is an object that owns its state.
- `IsObservable` is a trait whose state is static on the class that uses it.

It also models the two small value types `Handler` and `IsCancellable`.

**Registration.** A listener (for the bus) or an observer (for the trait) is registered by class name or as an object. Each public method with exactly one `#[Subscribe]` (or `#[Observe]`) attribute becomes a `Handler`, which is filed in a multimap under its subject:

- for the bus, the class named by the method's single parameter type;
- for the trait, the attribute's action string.

**Dispatch.** Dispatching selects handlers as follows:

- `fire` selects the handlers whose subject is the event's class or one of its ancestors.
- `notifyObservers` selects those filed under exactly the action.

It then calls them in stored order. Before calling a non-static handler, it creates the listener instance lazily and caches it. `fire` stops early in three cases: the optional response handler rejects a response, a Cancellable event becomes cancelled, or a handler throws. `notifyObservers` stops early only when a handler throws.

Files:

| file | module | models |
|---|---|---|
| results.dfy | `Results` | `Option` (PHP's nullable values) and `Result` (a value or a thrown exception) |
| errors.dfy | `Errors` | the exceptions raised: `InvalidArgumentException`, `ReflectionException`, `RuntimeException` with `previous`, `ArgumentCountError`, a handler's own |
| reflection.dfy | `Reflection` | what reflection reports about a method, given as input |
| cancellation.dfy | `Cancellation` | `IsCancellable` as a class with its two fields |
| handlers.dfy | `Handlers` | `Handler` (an immutable value), PHP truthiness, the call `handle` makes |
| collections.dfy | `Collections` | the assumed semantics of the collection library: filter, find/remove, and the multimap with ordered keys and groups |
| registry.dfy | `Registry` | the handler multimap both registries keep: storing, removing an owner, selecting |
| dispatch.dfy | `Dispatch` | the `foreach` both dispatchers share, as the specification function `Run`, with its properties |
| event_bus.dfy | `Bus` | `EventBus` as a class with its five fields |
| observable.dfy | `Observable` | the static state of one observable class as a class with lazily set fields |

**How the PHP is rendered in Dafny:**

- **Code that changes state becomes methods.** The code that changes state in place is modelled as methods on classes: `Cancellable`, `EventBus` and `ObservableClass`. They have `modifies` frames, and their loops carry invariants.
  - Each method is proved equal to a pure specification function. The methods `fire` and `notifyObservers` both equal `Dispatch.Run`. The registration loops equal `Registry.Store` and `Observable.CreateAll`.
  - The properties the library promises are lemmas about those functions.
- **Reflection is an input.** It is a list of `MethodInfo` descriptors, or `None` when `new ReflectionClass` throws.
- **Class ancestry is a parameter.** It is `isSubclassOf(child, parent)`, a given relation on class names that stands for `is_subclass_of` and is otherwise unconstrained. Selection tests equality with the fired class separately, so nothing depends on whether the relation relates a class to itself.
- **Handler calls are an oracle.** `world(k, call)` says what the k-th call of a dispatch did. It either returned a value or threw an exception, and in both cases it may first have called `setCancelled` on the event; that write stays on the event even when the handler throws.
- **Instances are records, not objects.** The instance creator is `NewInstance` (the default `new $class`) or a user closure, named by a number. The instance it makes for a listener is the record `Created(creator, listener, serial)`, where `serial` is the number of earlier creator calls. Each state keeps the log of creator calls, so "created at most once" can be stated.
- **Cancellability is part of `Event`.** `isEventCancellable` is `event.cancellation != null`. The Cancellable part of an event is a `Cancellable` object, shared with the handlers.
- **Lazy static properties are `Option` fields.** `IsObservable`'s static properties start unset (`None`), and each lazy getter sets its field on first use.
- **`getInstanceCreator` is a function.** It is `GetInstanceCreator` in both classes.

**Assumed semantics of the collection library**, whose source is not part of this model:

- multimap keys iterate in the order they were first inserted;
- the values under a key keep insertion order;
- `get` on a missing key yields an empty sequence;
- `filter` works in place on its receiver, which is why `getHandlersForEvent` filters a `copy()` and `unregister` filters each group through `map`;
- filtering keeps a key whose group becomes empty;
- `map` and `filter` run eagerly, in order.

**What a failed registration leaves behind:**

- There is no rollback. `register` and `registerObserver` cache a supplied object before scanning, and the cached object stays when scanning fails (src/EventBus.php:71-72, src/Concerns/IsObservable.php:36-37).
- `registerHandlersForObserver` puts each handler as soon as it is created, with no rollback. An observer whose later method has the wrong parameter count therefore leaves its earlier handlers stored (src/Concerns/IsObservable.php:64-72). `Observable.FailedRegistrationKeepsEarlierHandlers` shows a concrete case. Those handlers are orphaned: a failed `registerObserver` does not record the observer, so `unregisterObserver` with its name changes no registration, and `notifyObservers` still calls them. This follows from the contracts of `Observable.ObservableClass.RegisterObserver`, `UnregisterObserver` and `NotifyObservers`.
- `EventBus` creates every handler before putting any, so a failing bus registration stores nothing (src/EventBus.php:133-137).

## Model

| member | source | states |
|---|---|---|
| Cancellation.Cancellable.constructor | src/Concerns/IsCancellable.php:7-9 | a fresh cancellable object is not cancelled and has a null message |
| Cancellation.Cancellable.SetCancelled | src/Concerns/IsCancellable.php:11-15 | afterwards `isCancelled()` is exactly the flag passed and `getCancellationMessage()` exactly the message passed; an omitted message resets it to null, and `false` uncancels |
| Cancellation.Cancellable.IsCancelled | src/Concerns/IsCancellable.php:17-20 | `isCancelled()` is the flag of the object's cancellation state: false on a fresh object, and afterwards the flag `SetCancelled` last wrote (their contracts) |
| Cancellation.Cancellable.GetCancellationMessage | src/Concerns/IsCancellable.php:22-25 | `getCancellationMessage()` is the message of the object's cancellation state: null on a fresh object, and afterwards the message `SetCancelled` last wrote, null when it was omitted |
| Handlers.Truthy | src/EventBus.php:52 | PHP's conversion to bool that `!` applies to a response: null, false, 0, "", "0" and an empty array are falsy, everything else truthy; `RejectionEndsDispatch` and `CancellationEndsDispatch` state what a falsy or truthy response does to the loop |
| Handlers.Handler.Handle | src/Handler.php:33-36 | the call goes to the given instance when there is one, otherwise statically to the listener class; it invokes the handler's method with the subject |
| Handlers.BindHandle | src/Handler.php:33 | binding `handle`'s arguments fails, with an ArgumentCountError, exactly when the nullable first argument is not passed at all; otherwise the call is `Handle`'s |
| Handlers.StaticCallAsWrittenThrows | src/EventBus.php:44 | the static call as written (`handle(subject: ...)`) always fails with ArgumentCountError and never reaches the handler |
| Handlers.StaticCallAsWritten | src/EventBus.php:44 | the static call as the loop writes it, `handle(subject: ...)`: binding `handle`'s arguments with the first one omitted; `StaticCallAsWrittenThrows` states that it always fails with ArgumentCountError |
| Handlers.StaticCall | src/Handler.php:35 | the intended static call: on the listener class, with the handler's method and the subject, and it is what binding a null instance yields |
| Collections.Filter | src/EventBus.php:99 | a filter keeps at most the elements it is given |
| Collections.FilterMembers | src/EventBus.php:88-90 | an element survives a filter exactly when it was present and satisfies the predicate |
| Collections.FilterAppend | src/EventBus.php:99-101 | filtering a concatenation filters each part |
| Collections.FilterKeepsAll | src/EventBus.php:88-90 | a filter that every element passes changes nothing |
| Collections.FilterDropsAll | src/EventBus.php:88-90 | a filter that no element passes leaves nothing |
| Collections.FilterMultiset | src/EventBus.php:88-90 | a filter keeps every passing element as many times as it occurred, and drops the others entirely |
| Collections.FirstIndex | src/EventBus.php:85 | `find` yields the position of the first occurrence |
| Collections.RemoveAt | src/EventBus.php:85 | `remove` drops exactly one element, the one at that position |
| Collections.MultiMap.Put | src/EventBus.php:136 | `put` appends the value to its key's group only; a new key goes after all existing keys |
| Collections.MultiMap.Get | src/Concerns/IsObservable.php:130 | `get`: the group stored under a key, empty for a key never put; `Put` states how it grows, `FilterValues` how filtering changes it, and `Observable.NotifiedHandlersIff` which handlers `notifyObservers` takes from it |
| Collections.MultiMap.Flatten | src/EventBus.php:101 | `flatten()`: the groups concatenated in key order; `FlattenMembers` states that it holds exactly the stored values and `FlattenFilter` that filtering commutes with it |
| Collections.MultiMap.FilterValues | src/EventBus.php:87-91 | filtering the groups keeps every key and filters each group |
| Collections.PutKeepsWf | src/EventBus.php:136 | `put` keeps keys distinct and in step with the groups |
| Collections.EmptyMultiMap | src/EventBus.php:33 | a new multimap has no values under any key |
| Collections.ConcatFilter | src/EventBus.php:99-101 | flattening groups filtered one by one is filtering the flattened groups |
| Collections.FlattenFilter | src/EventBus.php:99-101 | `filter` then `flatten` equals `flatten` then `filter`, in stored order |
| Collections.ConcatMembers | src/EventBus.php:101 | a value is in the concatenation of groups exactly when some listed key's group holds it |
| Collections.FlattenMembers | src/EventBus.php:101 | a value is in the flattened multimap exactly when some key's group holds it |
| Collections.ConcatIgnoresAbsentKey | src/EventBus.php:136 | changing the group of an unlisted key does not change the concatenation |
| Collections.ConcatAppendKey | src/EventBus.php:136 | listing one more key appends its group |
| Collections.ConcatGrowGroup | src/EventBus.php:136 | growing a listed key's group adds exactly that value to the concatenation |
| Collections.PutAddsOne | src/EventBus.php:136 | `put` adds exactly one value to what the multimap stores |
| Registry.PutKeepsWellFormed | src/EventBus.php:136 | putting a handler under its own subject keeps every handler filed under its subject |
| Registry.Store | src/EventBus.php:135-137 | the `each` that puts every handler under its subject, in order; `StoreAddsExactly`, `StoreAppendsToGroups` and `StoreKeepsWellFormed` state what it adds, where and in which order, and `Bus.EventBus.PutEach` is proved to equal it |
| Registry.StoreAddsExactly | src/EventBus.php:135-137 | storing a handler list adds exactly those handlers, each as often as listed |
| Registry.StoreAppendsToGroups | src/EventBus.php:135-137 | each subject's group grows by the stored handlers with that subject, in the given order |
| Registry.StoreKeepsWellFormed | src/EventBus.php:135-137 | storing keeps every handler filed under its own subject |
| Registry.Matching | src/EventBus.php:99-101 | the filter of `getHandlersForEvent`: a handler's subject is the fired class, or the fired class is its subclass; `Bus.HandlerSelectedIff` states selection by it in both directions and `Bus.SubclassHandlersSkipParentEvents` that it does not select downwards |
| Registry.RemoveOwner | src/EventBus.php:87-91 | unregistering's filtering drops exactly the listener's handlers from every group, keeps every key and keeps the other handlers in order |
| Registry.StoreSnoc | src/Concerns/IsObservable.php:71 | storing one more handler is one more `put` |
| Registry.StorePrefix | src/EventBus.php:135-137 | the loop of `each` stores one more handler per turn |
| Registry.StoreKeepsOwned | src/EventBus.php:76-77 | once a listener's handlers are stored and the listener is recorded, every handler belongs to a recorded listener |
| Registry.RemoveOwnerKeepsOwned | src/EventBus.php:84-91 | removing one occurrence of a listener and all its handlers keeps every handler owned by a recorded listener |
| Registry.RemoveOwnerUndoesStore | src/EventBus.php:82-95 | unregistering a listener that had no handler undoes storing its handlers: every group reads as before |
| Dispatch.AcquireInstance | src/EventBus.php:109-118 | `getListenerInstance` returns the cached instance, and the cache and the creator log stay as they were; otherwise it calls the creator once, and caches and returns its result; other entries are untouched |
| Dispatch.FlagAfter | src/EventBus.php:43-49 | what a call leaves of the event's cancellation state: the last `setCancelled` the handler made, whether it then returned or threw, and only on a Cancellable event; `RunFlags`, `DispatchTracksCancellation` and `ThrowKeepsCancellation` state it over a whole loop |
| Dispatch.Verdict | src/EventBus.php:43-58 | the checks after a call in the loop's order: an exception ends it first, then a falsy response-handler result, then a cancelled Cancellable event; `RejectionEndsDispatch`, `CancellationEndsDispatch` and `ExceptionEndsDispatch` state each case |
| Dispatch.CallFor | src/EventBus.php:43-50 | the call for a handler: its method with the subject, statically on the listener class for a static handler, otherwise on the listener's cached instance; `RunCallAt` and `DispatchFollowsOrder` state that the k-th call of a loop is the one for its k-th handler |
| Dispatch.Step | src/EventBus.php:43-58 | one turn of the `foreach`: acquire the instance unless the handler is static, call it, apply its cancellation, take the verdict; `StepAppends`, `StepCreation` and `StepEndsOnVerdict` state what a turn changes, and `Bus.EventBus.CallHandler` is proved to equal it |
| Dispatch.Run | src/EventBus.php:42-59 | the loop makes at most one call per handler, at least one when there is a handler, and one effect and one cancellation state per call; it calls the creator at most once per call |
| Dispatch.RunFromIsRun | src/EventBus.php:42-59 | running the index loop from handler `i` is running the handlers that remain |
| Dispatch.StepAppends | src/EventBus.php:43-50 | one turn only appends to the calls, effects, cancellation states and creator log |
| Dispatch.RunKeepsPrefix | src/EventBus.php:42-59 | a loop only appends to the calls, effects, cancellation states and creator log |
| Dispatch.RunStopsOnlyOnVerdict | src/EventBus.php:52-58 | if a handler is skipped, the loop stopped on a verdict |
| Dispatch.StepEndsOnVerdict | src/EventBus.php:52-58 | after one turn, the verdict and the cancellation state are those of that call |
| Dispatch.RunEndsOnLastVerdict | src/EventBus.php:52-58 | after a loop over handlers, its verdict and the event's cancellation state are those of its last call |
| Dispatch.RunEffects | src/EventBus.php:43-50 | each call's effect is what the world answers to that call at that position |
| Dispatch.RunFlags | src/EventBus.php:56 | each cancellation state follows from the previous one and the call's effect: only a Cancellable event's state changes, and only by a `setCancelled` |
| Dispatch.RunVerdicts | src/EventBus.php:52-58 | every call but the last had a verdict that let the loop go on |
| Dispatch.RunKeepsInstances | src/EventBus.php:109-118 | a loop never replaces or drops a cached instance, so an instance supplied to `register` is never recreated |
| Dispatch.StepCreation | src/EventBus.php:109-118 | a turn calls the creator at most once, only for a listener without a cached instance, and caches the result |
| Dispatch.RunCreations | src/EventBus.php:109-118 | each creator call of a loop is for a listener that had no instance before it, and its result is the instance cached at the end |
| Dispatch.RunInstancesComeFromCreations | src/EventBus.php:109-118 | every instance cached after a loop was cached before it or made by one of its creator calls |
| Dispatch.RunCreationsDistinct | src/EventBus.php:109-118 | a loop calls the creator at most once per listener |
| Dispatch.RunCachesListeners | src/EventBus.php:46-48 | every listener whose non-static handler was called has a cached instance at the end |
| Dispatch.RunCallAt | src/EventBus.php:42-50 | the i-th call of a loop is the call for its i-th handler, on the listener's cached instance or statically |
| Dispatch.DispatchFollowsOrder | src/EventBus.php:42-50 | handlers run in stored order, each at most once; the k-th call is for the k-th handler, on its cached instance or statically, and gets the world's answer |
| Dispatch.DispatchTracksCancellation | src/EventBus.php:56 | the k-th cancellation state is the one the k-th call's effect leaves |
| Dispatch.DispatchStopsOnlyWhenTold | src/EventBus.php:52-58 | every call before the last one let the loop go on; the last call's verdict is the dispatch's; the loop made no call exactly when there was no handler; skipping a handler means a stop |
| Dispatch.RejectionEndsDispatch | src/EventBus.php:52-53 | a falsy response-handler result for call k ends the dispatch there, whatever the cancellation state |
| Dispatch.CancellationEndsDispatch | src/EventBus.php:56-57 | a Cancellable event cancelled after call k ends the dispatch there, unless the response was rejected first |
| Dispatch.ExceptionEndsDispatch | src/EventBus.php:42-50 | a handler that throws ends the dispatch, and its exception is what the dispatch reports |
| Dispatch.FirstHandlerAlwaysRuns | src/EventBus.php:42-56 | the first selected handler always runs, even for an event cancelled beforehand |
| Dispatch.ThrowKeepsCancellation | src/EventBus.php:43-49 | a handler that calls `setCancelled` on a Cancellable event and then throws ends the dispatch with that exception and leaves the event in the state it set |
| Dispatch.WithoutChecksEveryHandlerRuns | src/Concerns/IsObservable.php:133-142 | without a response handler or a Cancellable subject, every handler runs unless one throws |
| Bus.Event.constructor | src/EventBus.php:38-40 | an event carries its class and, when Cancellable, its cancellation state |
| Bus.Subscribes | src/EventBus.php:129-132 | the filter of `registerHandlersForListener`: a public method with exactly one #[Subscribe]; `OnlySubscribedMethodsBecomeHandlers` and `ListenerHandlersSucceedIff` state that exactly these methods become handlers |
| Bus.CreateHandler | src/EventBus.php:147-172 | a handler is made exactly when the method has one parameter with a named, non-builtin type; the type name is its subject; otherwise the first failing check throws InvalidArgumentException |
| Bus.CreateHandlers | src/EventBus.php:133-134 | the map yields one handler per method in order, or the exception of the first method that fails |
| Bus.ListenerHandlers | src/EventBus.php:125-145 | a class that cannot be loaded is a RuntimeException carrying the ReflectionException as `previous` |
| Bus.ListenerHandlersSucceedIff | src/EventBus.php:125-171 | scanning succeeds exactly when there is a subscribed method and every subscribed method has the right signature; the handlers are then one per subscribed method, in order |
| Bus.OnlySubscribedMethodsBecomeHandlers | src/EventBus.php:129-134 | every handler comes from a public method with exactly one #[Subscribe] and belongs to the listener being registered |
| Bus.NoHandlersMessageIsDistinct | src/EventBus.php:139-141 | the zero-handlers exception cannot be confused with a signature exception |
| Bus.NoHandlersIffNoSubscribedMethod | src/EventBus.php:137-141 | scanning a loaded class throws for want of handlers exactly when it has no subscribed method |
| Bus.HandlersForEvent | src/EventBus.php:97-102 | the handlers for an event are the stored handlers whose subject matches, in stored order |
| Bus.HandlerSelectedIff | src/EventBus.php:97-102 | a handler is selected exactly when it is registered and its subject is the fired class or one of its ancestors |
| Bus.SubclassHandlersSkipParentEvents | src/EventBus.php:100 | a handler for a subclass is never selected for an event of its parent class |
| Bus.EventBus.constructor | src/EventBus.php:29-34 | a new bus has no listener, no instance, no handler and no creator |
| Bus.EventBus.GetInstanceCreator | src/EventBus.php:120-123 | the creator is the closure set last when there is one, and `new $class` otherwise |
| Bus.EventBus.SetInstanceCreator | src/EventBus.php:174-179 | the closure becomes the creator, and nothing else changes |
| Bus.EventBus.GetListenerInstance | src/EventBus.php:109-118 | the method is `AcquireInstance` over the bus's cache and creator log |
| Bus.EventBus.RegisterHandlersForListener | src/EventBus.php:125-145 | a failing scan throws and stores nothing; a successful one stores its handlers in order |
| Bus.EventBus.PutEach | src/EventBus.php:135-137 | the `each` puts every handler under its subject, in order |
| Bus.EventBus.Register | src/EventBus.php:64-80 | a closure is refused before any change; a supplied object is cached under its class name even if scanning fails; the listener is recorded only after its handlers are stored; every handler belongs to a recorded listener |
| Bus.EventBus.Unregister | src/EventBus.php:82-95 | an unknown name changes nothing; otherwise one occurrence of the listener, its instance and all its handlers go, and the other handlers keep their order |
| Bus.EventBus.Fire | src/EventBus.php:36-62 | `fire` is `Run` over the selected handlers with the bus's cache, its creator and the event's cancellation state; it returns the very event unless a handler threw; it changes no registration |
| Bus.EventBus.CallHandlers | src/EventBus.php:42-59 | the `foreach` of `fire` ends in the state `Run` describes |
| Bus.EventBus.CallHandler | src/EventBus.php:43-58 | one turn of the `foreach` is one `Step`: the call, its effect on the event's cancellation state, and the checks in the source's order |
| Observable.Observes | src/Concerns/IsObservable.php:58-62 | the filter of `registerHandlersForObserver`: a public method with exactly one #[Observe]; `OneVisitPerObservingMethod` and `ObserverRegistrationSucceedsIff` state that exactly these methods are visited |
| Observable.CreateObserverHandler | src/Concerns/IsObservable.php:83-90 | a handler for the attribute's action is made exactly when the method has one parameter; otherwise InvalidArgumentException |
| Observable.Visits | src/Concerns/IsObservable.php:65-67 | the inner loop visits a method once per #[Observe] attribute, in order |
| Observable.AllVisits | src/Concerns/IsObservable.php:64-67 | the turns of the nested loops: the methods in order, and within each its #[Observe] attributes in order; `AllVisitsAppend` and `AllVisitsSnoc` state how the outer loop builds it and `OneVisitPerObservingMethod` what one method contributes |
| Observable.CreateAll | src/Concerns/IsObservable.php:64-73 | the two loops of `registerHandlersForObserver` over their turns: each creates and puts a handler until one throws; `CreateAllIsPrefix` and `CreateAllStops` state what is put and where it stops, and `Observable.ObservableClass.RegisterMethodHandlers` is proved to carry it on |
| Observable.AllVisitsAppend | src/Concerns/IsObservable.php:64-73 | the turns over two method lists are the turns over each |
| Observable.CreateAllIsPrefix | src/Concerns/IsObservable.php:63-73 | the handlers put are those of the longest prefix of turns that succeed, in order; the exception is that of the next turn |
| Observable.CreateAllStops | src/Concerns/IsObservable.php:64-73 | once a turn has thrown, later turns are never reached |
| Observable.VisitStep | src/Concerns/IsObservable.php:67-72 | one more turn of the inner loop puts the next handler or ends with its exception |
| Observable.ThrowEndsMethod | src/Concerns/IsObservable.php:67-72 | when an attribute throws, the method's later attributes are never reached |
| Observable.AllVisitsSnoc | src/Concerns/IsObservable.php:64-73 | the outer loop's next turn adds that method's visits |
| Observable.ThrowEndsMethods | src/Concerns/IsObservable.php:64-73 | when a method throws, later methods are never reached |
| Observable.ObserverRegistration | src/Concerns/IsObservable.php:54-81 | a class that cannot be loaded is a RuntimeException carrying the ReflectionException, before any put |
| Observable.ObserverRegistrationSucceedsIff | src/Concerns/IsObservable.php:58-77 | registration succeeds exactly when there is an observing method and all of them take one parameter; the handlers are then one per observing method, in order, for its action |
| Observable.OneVisitPerObservingMethod | src/Concerns/IsObservable.php:60-67 | a method with exactly one #[Observe] is visited once, with that action |
| Observable.FailedRegistrationKeepsEarlierHandlers | src/Concerns/IsObservable.php:64-72 | there is no rollback: when the second method has two parameters, registration throws with the first method's handler already put |
| Observable.NotifiedHandlersIff | src/Concerns/IsObservable.php:130 | the handlers notified for an action are exactly the stored handlers whose subject is that action string; there is no ancestry matching |
| Observable.ObservableClass.constructor | src/Concerns/IsObservable.php:21-27 | before first use, no static collection and no creator is set, and each reads as empty |
| Observable.ObservableClass.GetObserverInstances | src/Concerns/IsObservable.php:45-52 | the getter sets the map to an empty one on first use and otherwise returns it unchanged |
| Observable.ObservableClass.GetObservers | src/Concerns/IsObservable.php:101-108 | the getter sets the sequence to an empty one on first use and otherwise returns it unchanged |
| Observable.ObservableClass.GetActionHandlers | src/Concerns/IsObservable.php:92-99 | the getter sets the multimap to an empty one on first use and otherwise returns it unchanged |
| Observable.ObservableClass.GetInstanceCreator | src/Concerns/IsObservable.php:157-160 | the creator is the closure set last when there is one, and `new $class` otherwise |
| Observable.ObservableClass.SetInstanceCreator | src/Concerns/IsObservable.php:123-126 | the closure becomes the creator |
| Observable.ObservableClass.GetListenerInstance | src/Concerns/IsObservable.php:146-155 | the method is `AcquireInstance` over the class's cache, which is set on first use, and its creator log |
| Observable.ObservableClass.RegisterHandlersForObserver | src/Concerns/IsObservable.php:54-81 | the error thrown is `ObserverRegistration`'s, and exactly its handlers are stored, including those put before a failure |
| Observable.ObservableClass.RegisterMethodHandlers | src/Concerns/IsObservable.php:64-73 | one turn of the outer loop carries on `CreateAll` over that method's attributes, storing each handler as it is made |
| Observable.ObservableClass.RegisterObserver | src/Concerns/IsObservable.php:29-43 | a closure is refused before any change; a supplied object is cached even if scanning fails; handlers put before a failure stay; the observer is recorded only on success |
| Observable.ObservableClass.UnregisterObserver | src/Concerns/IsObservable.php:110-121 | an unknown name changes no registration; otherwise one occurrence of the observer, its instance and all its handlers go |
| Observable.ObservableClass.NotifyObservers | src/Concerns/IsObservable.php:128-144 | notification is `Run` over the handlers stored under exactly the action, with the observable as subject, no response handler and no cancellation; only an exception ends it early; it changes no registration |
| Observable.ObservableClass.CallHandlers | src/Concerns/IsObservable.php:133-142 | the `foreach` of `notifyObservers` ends in the state `Run` describes |
| Observable.ObservableClass.CallHandler | src/Concerns/IsObservable.php:134-141 | one turn of the `foreach` is one `Step` |

## Left out

- src/Events.php, the directory of named buses, and the interfaces and attribute classes under src/Contracts and src/Attributes are not part of this model. They hold no registry or dispatch logic. `Contracts\Observable` declares `notifyObservers` as returning `bool` while the trait returns nothing; the model follows the trait.
- Reflection itself (`getMethods`, `getAttributes`, parameter types) is an input list of method descriptors. Only whether the class loads is modelled, and a failure to load is `None`.
- What a handler does besides returning or throwing, possibly after calling `setCancelled` on the event, is not modelled. This includes a handler that re-enters the bus.
- The instance creator is an abstract factory. A creator or constructor that throws, and `new $class` on a class without a usable constructor, are not modelled.
- The response handler is a pure function of the response. A response handler that throws is not modelled.
- PHP floats among handler responses are not modelled, so `Truthy` has no float case. Objects are always truthy.
- Chaining is not modelled. `unregister`, `unregisterObserver` and `setInstanceCreator` return nothing. `register`, `registerObserver` and the `registerHandlersFor*` methods can throw, and return the exception they would throw as an `Option<Exception>` instead of `static`.
- The collection library's own code is not part of this model. Its assumed behaviour is stated above and in collections.dfy.
- `Observable.ObservableClass`: models the static state of one class that uses the trait. Whether PHP shares that state between a class and its subclasses is not modelled.
- `Handler` is a value, and its getters are its fields. Two handlers with the same fields are therefore equal, whereas PHP compares the objects by identity. Neither registry compares handlers, so nothing observable depends on this.

## Findings

| source | as written | input that shows it | evidently intended | confidence | as-written member | corrected member |
|---|---|---|---|---|---|---|
| src/EventBus.php:44 | `handle(subject: $event)` passes only the subject to `handle(?object $handler, object $subject)`; the nullable first parameter has no default (src/Handler.php:33), so PHP 8 raises ArgumentCountError | a listener with a public static method carrying #[Subscribe], then `fire` of its event class | call the method statically on the listener class by passing a null instance (src/Handler.php:35) | high, not executed | Handlers.StaticCallAsWrittenThrows | Handlers.StaticCall |
| src/Concerns/IsObservable.php:135 | `handle(subject: $this)` omits the required first argument in the same way | an observer with a public static method carrying #[Observe('a')], then `notifyObservers('a')` | call the method statically on the observer class | high, not executed | Handlers.StaticCallAsWrittenThrows | Handlers.StaticCall |
