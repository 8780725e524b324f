/**
 * The event bus: listeners are registered by class name or as objects, each
 * public method carrying exactly one #[Subscribe] attribute becomes a handler
 * for the class of its single parameter, and firing an event calls the handlers
 * registered for its class or for any of its ancestors.
 */
module Bus {
  import opened Results
  import opened Errors
  import opened Reflection
  import opened Cancellation
  import opened Collections
  import opened Handlers
  import opened Registry
  import opened Dispatch

  /** A fired event: its class and, when the class is Cancellable, its cancellation part. */
  class Event {
    const eventClass: string
    const cancellation: Cancellable?

    constructor (eventClass: string, cancellation: Cancellable?)
      ensures this.eventClass == eventClass && this.cancellation == cancellation
    {
      this.eventClass := eventClass;
      this.cancellation := cancellation;
    }
  }

  const ListenerClosureMessage := "Event listeners cannot be closures"
  const UnableToRegisterMessage := "Unable to register listener"
  const ParameterCountMessage := "Event handlers must have exactly 1 parameter"
  const UntypedMessage := "Listeners must use the event as a parameter type"
  const UnnamedTypeMessage := "Listeners must use the event as a named parameter type"
  const BuiltinTypeMessage := "Events cannot use built in types"

  function NoHandlersMessage(listener: string): string {
    "Listener " + listener + " has 0 event handler methods"
  }

  /** A method `getMethods(IS_PUBLIC)` returns that carries exactly one #[Subscribe]. */
  predicate Subscribes(m: MethodInfo) {
    m.isPublic && m.subscribeCount == 1
  }

  /** `createHandler`: a handler for the class named by the single parameter's type, or the first check that fails. */
  function CreateHandler(listener: string, m: MethodInfo): (r: Result<Handler, Exception>)
    ensures r.Success? <==> m.parameterCount == 1 && m.firstParameterType.Named?
    ensures r.Success? ==>
      r.value.subject == m.firstParameterType.name && r.value.listener == listener &&
      r.value.methodName == m.name && r.value.isStatic == m.isStatic
    ensures r.Failure? ==> r.error.InvalidArgument?
  {
    if m.parameterCount != 1 then Failure(InvalidArgument(ParameterCountMessage))
    else match m.firstParameterType
      case Untyped => Failure(InvalidArgument(UntypedMessage))
      case Unnamed => Failure(InvalidArgument(UnnamedTypeMessage))
      case Builtin(_) => Failure(InvalidArgument(BuiltinTypeMessage))
      case Named(name) => Success(Handler(name, listener, m.name, m.isStatic))
  }

  /**
   * The `map` over the subscribed methods: every handler, one per method in order,
   * or the exception of the first method that fails (the mapping is eager, so no
   * handler is stored when one fails).
   */
  function CreateHandlers(listener: string, ms: seq<MethodInfo>): (r: Result<seq<Handler>, Exception>)
    ensures r.Success? <==> forall i :: 0 <= i < |ms| ==> CreateHandler(listener, ms[i]).Success?
    ensures r.Success? ==> |r.value| == |ms|
    ensures r.Success? ==> forall i :: 0 <= i < |ms| ==> r.value[i] == CreateHandler(listener, ms[i]).value
    ensures r.Failure? ==> exists i :: 0 <= i < |ms| && CreateHandler(listener, ms[i]) == Failure(r.error)
                                && forall j :: 0 <= j < i ==> CreateHandler(listener, ms[j]).Success?
    decreases |ms|
  {
    if ms == [] then Success([])
    else
      var first := CreateHandler(listener, ms[0]);
      if first.Failure? then Failure(first.error)
      else
        var rest := CreateHandlers(listener, ms[1..]);
        if rest.Failure? then
          assert forall i :: 1 <= i < |ms| ==> ms[1..][i - 1] == ms[i];
          Failure(rest.error)
        else
          assert forall i :: 1 <= i < |ms| ==> ms[1..][i - 1] == ms[i];
          Success([first.value] + rest.value)
  }

  /**
   * `registerHandlersForListener` as a value: the handlers it stores, in order,
   * or the exception it throws. A class reflection cannot load is reported as a
   * RuntimeException wrapping the reflection failure.
   */
  function ListenerHandlers(listener: string, reflection: Option<seq<MethodInfo>>): (r: Result<seq<Handler>, Exception>)
    ensures reflection.None? ==> r == Failure(Runtime(UnableToRegisterMessage, ReflectionFailure(listener)))
  {
    if reflection.None? then Failure(Runtime(UnableToRegisterMessage, ReflectionFailure(listener)))
    else
      var created := CreateHandlers(listener, Filter(reflection.value, Subscribes));
      if created.Failure? then created
      else if |created.value| == 0 then Failure(InvalidArgument(NoHandlersMessage(listener)))
      else created
  }

  /**
   * Registration succeeds exactly when the class loads, has a subscribed method,
   * and every subscribed method has the right signature; the handlers are then
   * one per subscribed method, in order, all owned by the listener.
   */
  lemma ListenerHandlersSucceedIff(listener: string, methods: seq<MethodInfo>)
    ensures var subscribed := Filter(methods, Subscribes);
      ListenerHandlers(listener, Some(methods)).Success? <==>
        |subscribed| > 0 && forall i :: 0 <= i < |subscribed| ==>
          subscribed[i].parameterCount == 1 && subscribed[i].firstParameterType.Named?
    ensures var subscribed := Filter(methods, Subscribes); var r := ListenerHandlers(listener, Some(methods));
      r.Success? ==> |r.value| == |subscribed| && forall i :: 0 <= i < |subscribed| ==>
        r.value[i] == Handler(subscribed[i].firstParameterType.name, listener, subscribed[i].name, subscribed[i].isStatic)
  {
    var subscribed := Filter(methods, Subscribes);
    var r := ListenerHandlers(listener, Some(methods));
    if |subscribed| > 0 && forall i :: 0 <= i < |subscribed| ==>
         subscribed[i].parameterCount == 1 && subscribed[i].firstParameterType.Named? {
      assert CreateHandlers(listener, subscribed).Success?;
    }
  }

  /** Only public methods with exactly one #[Subscribe] attribute become handlers, for the listener being registered. */
  lemma OnlySubscribedMethodsBecomeHandlers(listener: string, methods: seq<MethodInfo>, h: Handler)
    requires ListenerHandlers(listener, Some(methods)).Success?
    requires h in ListenerHandlers(listener, Some(methods)).value
    ensures h.listener == listener
    ensures exists m :: m in methods && Subscribes(m) && m.name == h.methodName && m.isStatic == h.isStatic
                        && m.firstParameterType == ParamType.Named(h.subject)
  {
    var subscribed := Filter(methods, Subscribes);
    var hs := ListenerHandlers(listener, Some(methods)).value;
    var i :| 0 <= i < |hs| && hs[i] == h;
    var m := subscribed[i];
    FilterMembers(methods, Subscribes, m);
  }

  /** The missing-handlers message differs from every signature message (they differ at their ninth character). */
  lemma NoHandlersMessageIsDistinct(listener: string, m: MethodInfo)
    requires CreateHandler(listener, m).Failure?
    ensures CreateHandler(listener, m).error != InvalidArgument(NoHandlersMessage(listener))
  {
    assert NoHandlersMessage(listener)[8] == ' ';
    assert ParameterCountMessage[8] == 'n';
    assert UntypedMessage[8] == 's' && UnnamedTypeMessage[8] == 's';
    assert BuiltinTypeMessage[8] == 'a';
  }

  /** A loaded class fails for want of handlers exactly when it has no subscribed method. */
  lemma NoHandlersIffNoSubscribedMethod(listener: string, methods: seq<MethodInfo>)
    ensures ListenerHandlers(listener, Some(methods)) == Failure(InvalidArgument(NoHandlersMessage(listener)))
            <==> Filter(methods, Subscribes) == []
  {
    var subscribed := Filter(methods, Subscribes);
    var created := CreateHandlers(listener, subscribed);
    if created.Failure? {
      var i :| 0 <= i < |subscribed| && CreateHandler(listener, subscribed[i]) == Failure(created.error);
      NoHandlersMessageIsDistinct(listener, subscribed[i]);
    }
  }

  /** `getHandlersForEvent`: per subject, the handlers matching the class, flattened in key order. */
  function HandlersForEvent(registry: MultiMap<Handler>, eventClass: string, isSubclassOf: (string, string) -> bool)
    : (r: seq<Handler>)
    requires registry.Wf()
    ensures r == Filter(registry.Flatten(), Matching(eventClass, isSubclassOf))
  {
    FlattenFilter(registry, Matching(eventClass, isSubclassOf));
    registry.FilterValues(Matching(eventClass, isSubclassOf)).Flatten()
  }

  /**
   * A handler is dispatched for a fired class exactly when it is registered and
   * its subject is that class or one of its ancestors.
   */
  lemma HandlerSelectedIff(registry: MultiMap<Handler>, eventClass: string, isSubclassOf: (string, string) -> bool, h: Handler)
    requires registry.Wf()
    ensures h in HandlersForEvent(registry, eventClass, isSubclassOf) <==>
      (exists k :: h in registry.Get(k)) && (h.subject == eventClass || isSubclassOf(eventClass, h.subject))
  {
    FilterMembers(registry.Flatten(), Matching(eventClass, isSubclassOf), h);
    FlattenMembers(registry, h);
  }

  /**
   * With an asymmetric class hierarchy, a handler for a subclass is never
   * dispatched for an event of its parent class.
   */
  lemma SubclassHandlersSkipParentEvents(registry: MultiMap<Handler>, parent: string, child: string,
                                         isSubclassOf: (string, string) -> bool, h: Handler)
    requires registry.Wf()
    requires isSubclassOf(child, parent) && !isSubclassOf(parent, child) && parent != child
    requires h.subject == child
    ensures h !in HandlersForEvent(registry, parent, isSubclassOf)
  {
    HandlerSelectedIff(registry, parent, isSubclassOf, h);
  }

  /** Handlers are filed under their subject, and each belongs to a registered listener. */
  ghost predicate Consistent(eventHandlers: MultiMap<Handler>, listeners: seq<string>) {
    WellFormed(eventHandlers) && OwnedByAny(eventHandlers, listeners)
  }

  class EventBus {
    var listenerInstances: map<string, Instance>
    var listeners: seq<string>
    var eventHandlers: MultiMap<Handler>
    var instanceCreator: Option<nat>
    /** The listener of each call made to the instance creator so far. */
    var creatorCalls: seq<string>

    ghost predicate Valid()
      reads this`eventHandlers, this`listeners
    {
      Consistent(eventHandlers, listeners)
    }

    constructor ()
      ensures Valid()
      ensures listenerInstances == map[] && listeners == [] && instanceCreator == None && creatorCalls == []
      ensures forall k :: eventHandlers.Get(k) == []
    {
      listenerInstances := map[];
      listeners := [];
      eventHandlers := EmptyMultiMap();
      instanceCreator := None;
      creatorCalls := [];
    }

    /** `getInstanceCreator`: the closure set last, or else `new $class`. */
    function GetInstanceCreator(): (c: Creator)
      reads this
      ensures c.CustomCreator? <==> instanceCreator.Some?
      ensures c.CustomCreator? ==> c.closure == instanceCreator.value
    {
      CreatorOf(instanceCreator)
    }

    method SetInstanceCreator(closure: nat)
      requires Valid()
      modifies this
      ensures Valid()
      ensures GetInstanceCreator() == CustomCreator(closure)
      ensures listenerInstances == old(listenerInstances) && listeners == old(listeners)
      ensures eventHandlers == old(eventHandlers) && creatorCalls == old(creatorCalls)
    {
      instanceCreator := Some(closure);
    }

    /** `getListenerInstance`: the cached instance, or a new one from the creator, cached from then on. */
    method GetListenerInstance(listener: string) returns (instance: Instance)
      modifies this`listenerInstances, this`creatorCalls
      ensures (instance, listenerInstances, creatorCalls)
              == AcquireInstance(listener, old(listenerInstances), old(creatorCalls), GetInstanceCreator())
    {
      if listener !in listenerInstances {
        var created := Created(GetInstanceCreator(), listener, |creatorCalls|);
        creatorCalls := creatorCalls + [listener];
        listenerInstances := listenerInstances[listener := created];
      }
      instance := listenerInstances[listener];
    }

    /** `registerHandlersForListener`: stores each handler under its subject, or throws before storing any. */
    method RegisterHandlersForListener(listener: string, reflection: Option<seq<MethodInfo>>) returns (error: Option<Exception>)
      modifies this`eventHandlers
      ensures match ListenerHandlers(listener, reflection)
        case Failure(e) => error == Some(e) && eventHandlers == old(eventHandlers)
        case Success(hs) => error == None && eventHandlers == Store(old(eventHandlers), hs)
    {
      if reflection.None? {
        return Some(Runtime(UnableToRegisterMessage, ReflectionFailure(listener)));
      }
      var created := CreateHandlers(listener, Filter(reflection.value, Subscribes));
      if created.Failure? {
        return Some(created.error);
      }
      var hs := created.value;
      PutEach(hs);
      if |hs| == 0 {
        return Some(InvalidArgument(NoHandlersMessage(listener)));
      }
      error := None;
    }

    /** The `each` of `registerHandlersForListener`: puts every handler under its subject, in order. */
    method PutEach(hs: seq<Handler>)
      modifies this`eventHandlers
      ensures eventHandlers == Store(old(eventHandlers), hs)
    {
      ghost var initial := eventHandlers;
      for j := 0 to |hs|
        invariant eventHandlers == Store(initial, hs[..j])
      {
        StorePrefix(initial, hs, j);
        eventHandlers := eventHandlers.Put(hs[j].subject, hs[j]);
      }
      assert hs[..|hs|] == hs;
    }

    /**
     * `register`: a closure is refused; an object is cached as its class's instance
     * before its handlers are read (and stays cached if that fails); the listener is
     * recorded only once its handlers are stored.
     */
    method Register(listener: Registrant, reflection: Option<seq<MethodInfo>>) returns (error: Option<Exception>)
      requires Valid()
      modifies this
      ensures Valid()
      ensures instanceCreator == old(instanceCreator) && creatorCalls == old(creatorCalls)
      ensures listener.Given? && listener.className == ClosureClass ==>
        && error == Some(InvalidArgument(ListenerClosureMessage))
        && listenerInstances == old(listenerInstances) && listeners == old(listeners) && eventHandlers == old(eventHandlers)
      ensures !(listener.Given? && listener.className == ClosureClass) ==>
        && listenerInstances == (if listener.Given?
                                 then old(listenerInstances)[listener.className := Supplied(listener.className, listener.id)]
                                 else old(listenerInstances))
        && match ListenerHandlers(listener.className, reflection)
           case Failure(e) => error == Some(e) && listeners == old(listeners) && eventHandlers == old(eventHandlers)
           case Success(hs) => error == None && listeners == old(listeners) + [listener.className]
                               && eventHandlers == Store(old(eventHandlers), hs)
    {
      if listener.Given? {
        if listener.className == ClosureClass {
          return Some(InvalidArgument(ListenerClosureMessage));
        }
        listenerInstances := listenerInstances[listener.className := Supplied(listener.className, listener.id)];
      }
      var name := listener.className;
      error := RegisterHandlersForListener(name, reflection);
      if error.None? {
        StoreKeepsWellFormed(old(eventHandlers), ListenerHandlers(name, reflection).value);
        var hs := ListenerHandlers(name, reflection).value;
        forall i | 0 <= i < |hs|
          ensures hs[i].listener == name
        {
          OnlySubscribedMethodsBecomeHandlers(name, reflection.value, hs[i]);
        }
        StoreKeepsOwned(old(eventHandlers), old(listeners), hs, name);
        listeners := listeners + [name];
      }
    }

    /**
     * `unregister`: for a registered listener, drops one occurrence of it, its
     * cached instance and every handler it owns; otherwise does nothing.
     */
    method Unregister(listener: string)
      requires Valid()
      modifies this
      ensures Valid()
      ensures instanceCreator == old(instanceCreator) && creatorCalls == old(creatorCalls)
      ensures listener !in old(listeners) ==>
        listeners == old(listeners) && listenerInstances == old(listenerInstances) && eventHandlers == old(eventHandlers)
      ensures listener in old(listeners) ==>
        && listeners == RemoveAt(old(listeners), FirstIndex(old(listeners), listener))
        && listenerInstances == old(listenerInstances) - {listener}
        && eventHandlers == RemoveOwner(old(eventHandlers), listener)
      ensures listener in old(listeners) ==>
        forall k, i :: 0 <= i < |eventHandlers.Get(k)| ==> eventHandlers.Get(k)[i].listener != listener
    {
      if listener in listeners {
        RemoveOwnerKeepsOwned(eventHandlers, listeners, listener);
        listeners := RemoveAt(listeners, FirstIndex(listeners, listener));
        listenerInstances := listenerInstances - {listener};
        ghost var before := eventHandlers;
        eventHandlers := RemoveOwner(eventHandlers, listener);
        forall k, i | 0 <= i < |eventHandlers.Get(k)|
          ensures eventHandlers.Get(k)[i].listener != listener
        {
          FilterMembers(before.Get(k), NotOwnedBy(listener), eventHandlers.Get(k)[i]);
        }
      }
    }

    /**
     * `fire`: calls the handlers selected for the event's class in order and returns
     * the event, unless a handler threw. It is the dispatch `Run` over those handlers,
     * with the bus's cached instances, its instance creator and the event's
     * cancellation state.
     */
    method Fire(event: Event, responseHandler: Option<Value -> Value>, isSubclassOf: (string, string) -> bool,
                world: (nat, Call<Event>) -> Effect)
      returns (outcome: Result<Event, Exception>, trace: seq<Call<Event>>)
      requires Valid()
      modifies this, event.cancellation
      ensures Valid()
      ensures listeners == old(listeners) && eventHandlers == old(eventHandlers) && instanceCreator == old(instanceCreator)
      ensures var r := Run(HandlersForEvent(old(eventHandlers), event.eventClass, isSubclassOf),
                           Start(old(listenerInstances), old(creatorCalls),
                                 if event.cancellation != null then old(event.cancellation.State()) else NotCancelled),
                           Env(event, event.cancellation != null, responseHandler, old(GetInstanceCreator()), world));
        && listenerInstances == r.instances && creatorCalls == r.creatorCalls && trace == r.trace
        && (event.cancellation != null ==> event.cancellation.State() == r.flag)
        && outcome == if r.halt.Aborted? then Failure(r.halt.exception) else Success(event)
    {
      var handlers := HandlersForEvent(eventHandlers, event.eventClass, isSubclassOf);
      ghost var env := Env(event, event.cancellation != null, responseHandler, GetInstanceCreator(), world);
      ghost var s0: State<Event> := Start(listenerInstances, creatorCalls,
                                          if event.cancellation != null then event.cancellation.State() else NotCancelled);
      RunFromIsRun(handlers, 0, s0, env);
      assert handlers[0..] == handlers;
      outcome, trace := CallHandlers(handlers, event, responseHandler, world, s0, env);
    }

    /** The `foreach` of `fire` over the selected handlers. */
    method CallHandlers(handlers: seq<Handler>, event: Event, responseHandler: Option<Value -> Value>,
                        world: (nat, Call<Event>) -> Effect, ghost s0: State<Event>, ghost env: Env<Event>)
      returns (outcome: Result<Event, Exception>, trace: seq<Call<Event>>)
      requires env == Env(event, event.cancellation != null, responseHandler, GetInstanceCreator(), world)
      requires s0 == Start(listenerInstances, creatorCalls,
                           if event.cancellation != null then event.cancellation.State() else NotCancelled)
      modifies this`listenerInstances, this`creatorCalls, event.cancellation
      ensures var r := RunFrom(handlers, 0, s0, env);
        && listenerInstances == r.instances && creatorCalls == r.creatorCalls && trace == r.trace
        && (event.cancellation != null ==> event.cancellation.State() == r.flag)
        && outcome == if r.halt.Aborted? then Failure(r.halt.exception) else Success(event)
    {
      var cancellable := event.cancellation != null;
      ghost var st := s0;
      trace := [];
      outcome := Success(event);
      var i := 0;
      while i < |handlers|
        invariant 0 <= i <= |handlers|
        invariant st.halt.Running?
        invariant st.instances == listenerInstances && st.creatorCalls == creatorCalls && st.trace == trace
        invariant cancellable ==> st.flag == event.cancellation.State()
        invariant RunFrom(handlers, 0, s0, env) == RunFrom(handlers, i, st, env)
        invariant outcome == Success(event)
      {
        var call, halt := CallHandler(handlers[i], event, responseHandler, world, |trace|, st, env);
        trace := trace + [call];
        st := Step(handlers[i], st, env);
        if !halt.Running? {
          if halt.Aborted? {
            outcome := Failure(halt.exception);
          }
          return;
        }
        i := i + 1;
      }
    }

    /**
     * One turn of the `foreach` of `fire`: the call for `h`, on the cached or newly
     * created listener instance, with the cancellation the handler set applied to the
     * event, and then the checks that end the loop: an exception, a response the
     * response handler rejects, a cancelled event.
     */
    method CallHandler(h: Handler, event: Event, responseHandler: Option<Value -> Value>,
                       world: (nat, Call<Event>) -> Effect, position: nat,
                       ghost st: State<Event>, ghost env: Env<Event>)
      returns (call: Call<Event>, halt: Halt)
      requires env == Env(event, event.cancellation != null, responseHandler, GetInstanceCreator(), world)
      requires position == |st.trace|
      requires st.instances == listenerInstances && st.creatorCalls == creatorCalls
      requires event.cancellation != null ==> st.flag == event.cancellation.State()
      modifies this`listenerInstances, this`creatorCalls, event.cancellation
      ensures var next := Step(h, st, env);
        && listenerInstances == next.instances && creatorCalls == next.creatorCalls
        && next.trace == st.trace + [call] && halt == next.halt
        && (event.cancellation != null ==> event.cancellation.State() == next.flag)
    {
      if h.isStatic {
        call := StaticCall(h, event);
      } else {
        var instance := GetListenerInstance(h.listener);
        call := h.Handle(Some(instance), event);
      }
      var effect := world(position, call);
      if event.cancellation != null && effect.setCancelled.Some? {
        event.cancellation.SetCancelled(effect.setCancelled.value.canceled, effect.setCancelled.value.message);
      }
      if effect.Threw? {
        return call, Aborted(effect.exception);
      }
      if responseHandler.Some? && !Truthy(responseHandler.value(effect.response)) {
        return call, Rejected;
      }
      if event.cancellation != null && event.cancellation.IsCancelled() {
        return call, Cancelled;
      }
      halt := Running;
    }
  }
}
