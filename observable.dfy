/**
 * The observable trait: the static state that one class using `IsObservable`
 * shares among all its users. Observers are registered by class name or as
 * objects; each public method with exactly one #[Observe(action)] attribute
 * becomes a handler for that action, and `notifyObservers(action)` calls the
 * handlers stored under exactly that action string.
 */
module Observable {
  import opened Results
  import opened Errors
  import opened Reflection
  import opened Collections
  import opened Handlers
  import opened Registry
  import opened Dispatch
  import opened Cancellation

  const ObserverClosureMessage := "Observers cannot be closures"
  const UnableToRegisterObserverMessage := "Unable to register observer"
  const ObserverParameterMessage := "Observer methods must have exactly 1 parameter"

  function NoActionHandlersMessage(observer: string): string {
    "Observer " + observer + " has 0 action handler methods"
  }

  /** A method `getMethods(IS_PUBLIC)` returns that carries exactly one #[Observe]. */
  predicate Observes(m: MethodInfo) {
    m.isPublic && |m.observeActions| == 1
  }

  /** `createHandler`: a handler for the attribute's action; only the parameter count is checked. */
  function CreateObserverHandler(observer: string, m: MethodInfo, action: string): (r: Result<Handler, Exception>)
    ensures r.Success? <==> m.parameterCount == 1
    ensures r.Success? ==>
      r.value.subject == action && r.value.listener == observer &&
      r.value.methodName == m.name && r.value.isStatic == m.isStatic
    ensures r.Failure? ==> r.error == InvalidArgument(ObserverParameterMessage)
  {
    if m.parameterCount != 1 then Failure(InvalidArgument(ObserverParameterMessage))
    else Success(Handler(action, observer, m.name, m.isStatic))
  }

  /** One turn of the inner `foreach`: a method with the action of one of its #[Observe] attributes. */
  datatype Visit = Visit(observing: MethodInfo, action: string)

  /** The inner loop's turns for one method, in attribute order. */
  function Visits(m: MethodInfo): (v: seq<Visit>)
    ensures |v| == |m.observeActions|
    ensures forall k :: 0 <= k < |v| ==> v[k] == Visit(m, m.observeActions[k])
  {
    seq(|m.observeActions|, k requires 0 <= k < |m.observeActions| => Visit(m, m.observeActions[k]))
  }

  /** Every turn of both loops, method by method. */
  function AllVisits(ms: seq<MethodInfo>): seq<Visit>
    decreases |ms|
  {
    if ms == [] then [] else Visits(ms[0]) + AllVisits(ms[1..])
  }

  lemma {:induction false} AllVisitsAppend(a: seq<MethodInfo>, b: seq<MethodInfo>)
    ensures AllVisits(a + b) == AllVisits(a) + AllVisits(b)
    decreases |a|
  {
    if a == [] {
      assert a + b == b;
    } else {
      assert (a + b)[1..] == a[1..] + b;
      AllVisitsAppend(a[1..], b);
    }
  }

  /** What the loops have done: the handlers they put, in order, and the exception that stopped them, if any. */
  datatype Scan = Scan(handlers: seq<Handler>, error: Option<Exception>)

  /** The loops over `visits`: each creates a handler and puts it, until one throws. */
  function CreateAll(observer: string, visits: seq<Visit>): Scan
    decreases |visits|
  {
    if visits == [] then Scan([], None)
    else
      var before := CreateAll(observer, visits[..|visits| - 1]);
      var last := visits[|visits| - 1];
      if before.error.Some? then before
      else match CreateObserverHandler(observer, last.observing, last.action)
        case Failure(e) => Scan(before.handlers, Some(e))
        case Success(h) => Scan(before.handlers + [h], None)
  }

  /**
   * The handlers put are those of the longest prefix of visits whose methods take one
   * parameter, one each and in order; the exception, if any, is that of the next visit.
   */
  lemma {:induction false} CreateAllIsPrefix(observer: string, visits: seq<Visit>)
    ensures var s := CreateAll(observer, visits);
      && |s.handlers| <= |visits|
      && (forall i :: 0 <= i < |s.handlers| ==>
            CreateObserverHandler(observer, visits[i].observing, visits[i].action) == Success(s.handlers[i]))
      && (s.error.None? <==> |s.handlers| == |visits|)
      && (s.error.Some? ==>
            CreateObserverHandler(observer, visits[|s.handlers|].observing, visits[|s.handlers|].action) == Failure(s.error.value))
    decreases |visits|
  {
    if visits != [] {
      var init := visits[..|visits| - 1];
      CreateAllIsPrefix(observer, init);
      var before := CreateAll(observer, init);
      forall i | 0 <= i < |before.handlers|
        ensures visits[i] == init[i]
      {
      }
    }
  }

  /** Once a visit has thrown, later methods are never reached. */
  lemma {:induction false} CreateAllStops(observer: string, visits: seq<Visit>, rest: seq<Visit>)
    requires CreateAll(observer, visits).error.Some?
    ensures CreateAll(observer, visits + rest) == CreateAll(observer, visits)
    decreases |rest|
  {
    if rest == [] {
      assert visits + rest == visits;
    } else {
      var init := rest[..|rest| - 1];
      assert (visits + rest)[..|visits + rest| - 1] == visits + init;
      CreateAllStops(observer, visits, init);
    }
  }

  /** One more turn of the inner loop: the next attribute's handler is put, or its exception ends the scan. */
  lemma VisitStep(observer: string, done: seq<Visit>, m: MethodInfo, j: nat, stored: seq<Handler>)
    requires j < |m.observeActions|
    requires CreateAll(observer, done + Visits(m)[..j]) == Scan(stored, None)
    ensures CreateAll(observer, done + Visits(m)[..j + 1])
         == match CreateObserverHandler(observer, m, m.observeActions[j])
              case Failure(e) => Scan(stored, Some(e))
              case Success(h) => Scan(stored + [h], None)
  {
    var visited := done + Visits(m)[..j + 1];
    assert visited[..|visited| - 1] == done + Visits(m)[..j];
    assert visited[|visited| - 1] == Visit(m, m.observeActions[j]);
  }

  /** When the j-th attribute of a method throws, its later attributes are never reached. */
  lemma ThrowEndsMethod(observer: string, done: seq<Visit>, m: MethodInfo, j: nat)
    requires j < |m.observeActions|
    requires CreateAll(observer, done + Visits(m)[..j + 1]).error.Some?
    ensures CreateAll(observer, done + Visits(m)) == CreateAll(observer, done + Visits(m)[..j + 1])
  {
    CreateAllStops(observer, done + Visits(m)[..j + 1], Visits(m)[j + 1..]);
    assert (done + Visits(m)[..j + 1]) + Visits(m)[j + 1..] == done + Visits(m);
  }

  /** The turns of both loops over one more method. */
  lemma AllVisitsSnoc(methods: seq<MethodInfo>, i: nat)
    requires i < |methods|
    ensures AllVisits(methods[..i + 1]) == AllVisits(methods[..i]) + Visits(methods[i])
  {
    assert methods[..i + 1] == methods[..i] + [methods[i]];
    AllVisitsAppend(methods[..i], [methods[i]]);
    assert AllVisits([methods[i]]) == Visits(methods[i]) + AllVisits([]);
  }

  /** When a method of the i-th turn throws, the later methods are never reached. */
  lemma ThrowEndsMethods(observer: string, methods: seq<MethodInfo>, i: nat)
    requires i < |methods|
    requires CreateAll(observer, AllVisits(methods[..i + 1])).error.Some?
    ensures CreateAll(observer, AllVisits(methods)) == CreateAll(observer, AllVisits(methods[..i + 1]))
  {
    assert methods == methods[..i + 1] + methods[i + 1..];
    AllVisitsAppend(methods[..i + 1], methods[i + 1..]);
    CreateAllStops(observer, AllVisits(methods[..i + 1]), AllVisits(methods[i + 1..]));
  }

  /**
   * `registerHandlersForObserver` as a value: the handlers it has put when it
   * finishes or throws, and the exception. A class reflection cannot load is a
   * RuntimeException wrapping the reflection failure, before any put.
   */
  function ObserverRegistration(observer: string, reflection: Option<seq<MethodInfo>>): (s: Scan)
    ensures reflection.None? ==> s == Scan([], Some(Runtime(UnableToRegisterObserverMessage, ReflectionFailure(observer))))
  {
    if reflection.None? then Scan([], Some(Runtime(UnableToRegisterObserverMessage, ReflectionFailure(observer))))
    else
      var s := CreateAll(observer, AllVisits(Filter(reflection.value, Observes)));
      if s.error.None? && |s.handlers| == 0 then Scan([], Some(InvalidArgument(NoActionHandlersMessage(observer))))
      else s
  }

  /**
   * A loaded observer registers without error exactly when it has an observing
   * method and all of them take one parameter; the handlers are then one per
   * observing method, in order, for its action.
   */
  lemma ObserverRegistrationSucceedsIff(observer: string, methods: seq<MethodInfo>)
    ensures var observing := Filter(methods, Observes); forall i :: 0 <= i < |observing| ==> Observes(observing[i])
    ensures var observing := Filter(methods, Observes); var s := ObserverRegistration(observer, Some(methods));
      s.error.None? <==> |observing| > 0 && forall i :: 0 <= i < |observing| ==> observing[i].parameterCount == 1
    ensures var observing := Filter(methods, Observes); var s := ObserverRegistration(observer, Some(methods));
      s.error.None? ==> |s.handlers| == |observing| && forall i :: 0 <= i < |observing| ==>
        s.handlers[i] == Handler(observing[i].observeActions[0], observer, observing[i].name, observing[i].isStatic)
  {
    var observing := Filter(methods, Observes);
    forall i | 0 <= i < |observing|
      ensures Observes(observing[i])
    {
      FilterMembers(methods, Observes, observing[i]);
    }
    OneVisitPerObservingMethod(observing);
    var visits := AllVisits(observing);
    CreateAllIsPrefix(observer, visits);
  }

  /** Each observing method is visited once, with its single action. */
  lemma {:induction false} OneVisitPerObservingMethod(ms: seq<MethodInfo>)
    requires forall i :: 0 <= i < |ms| ==> |ms[i].observeActions| == 1
    ensures |AllVisits(ms)| == |ms|
    ensures forall i :: 0 <= i < |ms| ==> AllVisits(ms)[i] == Visit(ms[i], ms[i].observeActions[0])
    decreases |ms|
  {
    if ms != [] {
      OneVisitPerObservingMethod(ms[1..]);
      assert Visits(ms[0]) == [Visit(ms[0], ms[0].observeActions[0])];
      forall i | 1 <= i < |ms|
        ensures AllVisits(ms)[i] == Visit(ms[i], ms[i].observeActions[0])
      {
        assert ms[1..][i - 1] == ms[i];
      }
    }
  }

  /**
   * There is no rollback: an observer whose second observing method takes two
   * parameters fails, yet the first method's handler has been put.
   */
  lemma FailedRegistrationKeepsEarlierHandlers(observer: string, good: MethodInfo, bad: MethodInfo)
    requires Observes(good) && good.parameterCount == 1
    requires Observes(bad) && bad.parameterCount == 2
    ensures ObserverRegistration(observer, Some([good, bad]))
         == Scan([Handler(good.observeActions[0], observer, good.name, good.isStatic)],
                 Some(InvalidArgument(ObserverParameterMessage)))
  {
    assert Filter([good, bad], Observes) == [good, bad] by {
      assert [good, bad][1..] == [bad];
    }
    OneVisitPerObservingMethod([good, bad]);
    var visits := AllVisits([good, bad]);
    assert visits == [Visit(good, good.observeActions[0]), Visit(bad, bad.observeActions[0])];
    var h := Handler(good.observeActions[0], observer, good.name, good.isStatic);
    assert visits[..|visits| - 1] == visits[..1];
    assert visits[..1][..0] == [];
    assert CreateAll(observer, visits[..1]) == Scan([h], None);
  }

  /** Exactly the handlers stored under an action string are notified for it: there is no ancestry matching. */
  lemma NotifiedHandlersIff(registry: MultiMap<Handler>, action: string, h: Handler)
    requires WellFormed(registry)
    ensures h in registry.Get(action) <==> h in registry.Flatten() && h.subject == action
  {
    FlattenMembers(registry, h);
    if h in registry.Flatten() && h.subject == action {
      var k :| h in registry.Get(k);
      var i :| 0 <= i < |registry.Get(k)| && registry.Get(k)[i] == h;
    }
  }

  /**
   * The static state of one observable class. The three collections are unset
   * (None) until their getter first runs; the views read an unset one as empty.
   */
  class ObservableClass {
    var observerInstances: Option<map<string, Instance>>
    var observers: Option<seq<string>>
    var actionHandlers: Option<MultiMap<Handler>>
    var instanceCreator: Option<nat>
    /** The observer of each call made to the instance creator so far. */
    var creatorCalls: seq<string>

    function Instances(): map<string, Instance>
      reads this
    {
      observerInstances.GetOr(map[])
    }

    function Observers(): seq<string>
      reads this
    {
      observers.GetOr([])
    }

    function ActionHandlers(): MultiMap<Handler>
      reads this
    {
      actionHandlers.GetOr(EmptyMultiMap())
    }

    /** Every handler is filed under its own action. */
    ghost predicate Valid()
      reads this`actionHandlers
    {
      actionHandlers.None? || WellFormed(actionHandlers.value)
    }

    /** Before any use, no static collection is set and no creator is. */
    constructor ()
      ensures Valid()
      ensures observerInstances == None && observers == None && actionHandlers == None
      ensures instanceCreator == None && creatorCalls == []
      ensures Instances() == map[] && Observers() == [] && forall k :: ActionHandlers().Get(k) == []
    {
      observerInstances := None;
      observers := None;
      actionHandlers := None;
      instanceCreator := None;
      creatorCalls := [];
    }

    /** `getObserverInstances`: sets the map to an empty one on first use. */
    method GetObserverInstances() returns (instances: map<string, Instance>)
      modifies this`observerInstances
      ensures instances == old(Instances()) && observerInstances == Some(instances)
    {
      if observerInstances.None? {
        observerInstances := Some(map[]);
      }
      instances := observerInstances.value;
    }

    /** `getObservers`: sets the sequence to an empty one on first use. */
    method GetObservers() returns (names: seq<string>)
      modifies this`observers
      ensures names == old(Observers()) && observers == Some(names)
    {
      if observers.None? {
        observers := Some([]);
      }
      names := observers.value;
    }

    /** `getActionHandlers`: sets the multimap to an empty one on first use. */
    method GetActionHandlers() returns (handlers: MultiMap<Handler>)
      modifies this`actionHandlers
      ensures handlers == old(ActionHandlers()) && actionHandlers == Some(handlers)
    {
      if actionHandlers.None? {
        actionHandlers := Some(EmptyMultiMap());
      }
      handlers := actionHandlers.value;
    }

    /** `getInstanceCreator`: the closure set last, or else `new $class`. */
    function GetInstanceCreator(): (c: Creator)
      reads this
      ensures c.CustomCreator? <==> instanceCreator.Some?
      ensures c.CustomCreator? ==> c.closure == instanceCreator.value
    {
      CreatorOf(instanceCreator)
    }

    method SetInstanceCreator(closure: nat)
      modifies this`instanceCreator
      ensures GetInstanceCreator() == CustomCreator(closure)
    {
      instanceCreator := Some(closure);
    }

    /** `getListenerInstance`: the cached observer instance, or a new one from the creator, cached from then on. */
    method GetListenerInstance(observer: string) returns (instance: Instance)
      modifies this`observerInstances, this`creatorCalls
      ensures observerInstances.Some?
      ensures (instance, Instances(), creatorCalls)
              == AcquireInstance(observer, old(Instances()), old(creatorCalls), GetInstanceCreator())
    {
      var instances := GetObserverInstances();
      if observer !in instances {
        var created := Created(GetInstanceCreator(), observer, |creatorCalls|);
        creatorCalls := creatorCalls + [observer];
        instances := GetObserverInstances();
        observerInstances := Some(instances[observer := created]);
      }
      instances := GetObserverInstances();
      instance := instances[observer];
    }

    /**
     * `registerHandlersForObserver`: puts each observing method's handler as soon as
     * it is created; a method with the wrong parameter count throws with the earlier
     * handlers already stored.
     */
    method RegisterHandlersForObserver(observer: string, reflection: Option<seq<MethodInfo>>) returns (error: Option<Exception>)
      modifies this`actionHandlers
      ensures var s := ObserverRegistration(observer, reflection);
        && error == s.error
        && actionHandlers == if |s.handlers| > 0 then Some(Store(old(ActionHandlers()), s.handlers)) else old(actionHandlers)
    {
      if reflection.None? {
        return Some(Runtime(UnableToRegisterObserverMessage, ReflectionFailure(observer)));
      }
      var methods := Filter(reflection.value, Observes);
      ghost var initial := old(ActionHandlers());
      var handlerCount := 0;
      ghost var stored: seq<Handler> := [];
      for i := 0 to |methods|
        invariant CreateAll(observer, AllVisits(methods[..i])) == Scan(stored, None)
        invariant handlerCount == |stored|
        invariant actionHandlers == if |stored| > 0 then Some(Store(initial, stored)) else old(actionHandlers)
      {
        AllVisitsSnoc(methods, i);
        var thrown;
        thrown, handlerCount, stored := RegisterMethodHandlers(observer, methods[i], handlerCount, AllVisits(methods[..i]), initial, stored, old(actionHandlers));
        if thrown.Some? {
          ThrowEndsMethods(observer, methods, i);
          return thrown;
        }
      }
      assert methods[..|methods|] == methods;
      if handlerCount == 0 {
        return Some(InvalidArgument(NoActionHandlersMessage(observer)));
      }
      error := None;
    }

    /**
     * The inner `foreach` of `registerHandlersForObserver` for one method: a handler
     * per #[Observe] attribute, each put as soon as it is created, until one throws.
     * `handlerCount` is the count the outer loop shares by reference; `unset` is
     * the multimap field as it was before the first put.
     */
    method RegisterMethodHandlers(observer: string, m: MethodInfo, handlerCount: nat,
                                  ghost done: seq<Visit>, ghost initial: MultiMap<Handler>, ghost stored: seq<Handler>,
                                  ghost unset: Option<MultiMap<Handler>>)
      returns (error: Option<Exception>, count: nat, ghost storedAfter: seq<Handler>)
      requires CreateAll(observer, done) == Scan(stored, None)
      requires handlerCount == |stored|
      requires initial == unset.GetOr(EmptyMultiMap())
      requires actionHandlers == if |stored| > 0 then Some(Store(initial, stored)) else unset
      modifies this`actionHandlers
      ensures CreateAll(observer, done + Visits(m)) == Scan(storedAfter, error)
      ensures count == |storedAfter|
      ensures actionHandlers == if |storedAfter| > 0 then Some(Store(initial, storedAfter)) else unset
    {
      var attributes := m.observeActions;
      count := handlerCount;
      storedAfter := stored;
      assert done + Visits(m)[..0] == done;
      for j := 0 to |attributes|
        invariant CreateAll(observer, done + Visits(m)[..j]) == Scan(storedAfter, None)
        invariant count == |storedAfter|
        invariant actionHandlers == if |storedAfter| > 0 then Some(Store(initial, storedAfter)) else unset
      {
        var created := CreateObserverHandler(observer, m, attributes[j]);
        VisitStep(observer, done, m, j, storedAfter);
        if created.Failure? {
          ThrowEndsMethod(observer, done, m, j);
          return Some(created.error), count, storedAfter;
        }
        var handler := created.value;
        count := count + 1;
        var handlers := GetActionHandlers();
        StoreSnoc(initial, storedAfter, handler);
        actionHandlers := Some(handlers.Put(handler.subject, handler));
        storedAfter := storedAfter + [handler];
      }
      assert Visits(m)[..|attributes|] == Visits(m);
      error := None;
    }

    /**
     * `registerObserver`: a closure is refused; an object is cached as its class's
     * instance before its handlers are read (and stays cached if that fails); the
     * observer is recorded only if registration succeeds, whereas handlers put
     * before a failure stay stored.
     */
    method RegisterObserver(observer: Registrant, reflection: Option<seq<MethodInfo>>) returns (error: Option<Exception>)
      requires Valid()
      modifies this`observerInstances, this`observers, this`actionHandlers
      ensures Valid()
      ensures observer.Given? && observer.className == ClosureClass ==>
        && error == Some(InvalidArgument(ObserverClosureMessage))
        && observerInstances == old(observerInstances) && observers == old(observers) && actionHandlers == old(actionHandlers)
      ensures !(observer.Given? && observer.className == ClosureClass) ==>
        var name := observer.className;
        var s := ObserverRegistration(name, reflection);
        && observerInstances == (if observer.Given?
                                 then Some(old(Instances())[name := Supplied(name, observer.id)])
                                 else old(observerInstances))
        && error == s.error
        && actionHandlers == (if |s.handlers| > 0 then Some(Store(old(ActionHandlers()), s.handlers)) else old(actionHandlers))
        && observers == (if s.error.None? then Some(old(Observers()) + [name]) else old(observers))
    {
      if observer.Given? {
        if observer.className == ClosureClass {
          return Some(InvalidArgument(ObserverClosureMessage));
        }
        var instances := GetObserverInstances();
        observerInstances := Some(instances[observer.className := Supplied(observer.className, observer.id)]);
      }
      var name := observer.className;
      ghost var before := ActionHandlers();
      assert WellFormed(before);
      error := RegisterHandlersForObserver(name, reflection);
      StoreKeepsWellFormed(before, ObserverRegistration(name, reflection).handlers);
      if error.None? {
        var names := GetObservers();
        observers := Some(names + [name]);
      }
    }

    /**
     * `unregisterObserver`: for a recorded observer, drops one occurrence of it, its
     * cached instance and every handler it owns; otherwise changes nothing (beyond
     * setting the observers sequence on first use).
     */
    method UnregisterObserver(observer: string)
      requires Valid()
      modifies this`observerInstances, this`observers, this`actionHandlers
      ensures Valid()
      ensures observer !in old(Observers()) ==>
        && observers == Some(old(Observers()))
        && observerInstances == old(observerInstances) && actionHandlers == old(actionHandlers)
      ensures observer in old(Observers()) ==>
        && observers == Some(RemoveAt(old(Observers()), FirstIndex(old(Observers()), observer)))
        && observerInstances == Some(old(Instances()) - {observer})
        && WellFormed(old(ActionHandlers()))
        && actionHandlers == Some(RemoveOwner(old(ActionHandlers()), observer))
    {
      var names := GetObservers();
      if observer in names {
        names := GetObservers();
        observers := Some(RemoveAt(names, FirstIndex(names, observer)));
        var instances := GetObserverInstances();
        observerInstances := Some(instances - {observer});
        var handlers := GetActionHandlers();
        actionHandlers := Some(RemoveOwner(handlers, observer));
      }
    }

    /**
     * `notifyObservers`: calls, in stored order, every handler stored under exactly
     * `action`, with the observable object `self` as the subject; there is no response
     * handler and no cancellation stop, so only a handler that throws ends it early.
     */
    method NotifyObservers(self: nat, action: string, world: (nat, Call<nat>) -> Effect)
      returns (error: Option<Exception>, trace: seq<Call<nat>>)
      requires Valid()
      modifies this`observerInstances, this`actionHandlers, this`creatorCalls
      ensures Valid()
      ensures actionHandlers == Some(old(ActionHandlers()))
      ensures var hs := old(ActionHandlers()).Get(action);
              var r := Run(hs, Start(old(Instances()), old(creatorCalls), NotCancelled),
                           Env(self, false, None, GetInstanceCreator(), world));
        && Instances() == r.instances && creatorCalls == r.creatorCalls && trace == r.trace
        && error == (if r.halt.Aborted? then Some(r.halt.exception) else None)
        && (observerInstances.None? ==> old(observerInstances).None?)
    {
      var handlers := GetActionHandlers();
      var selected := handlers.Get(action);
      trace := [];
      error := None;
      if |selected| > 0 {
        ghost var env := Env(self, false, None, GetInstanceCreator(), world);
        ghost var s0: State<nat> := Start(Instances(), creatorCalls, NotCancelled);
        RunFromIsRun(selected, 0, s0, env);
        assert selected[0..] == selected;
        error, trace := CallHandlers(selected, self, world, s0, env);
      }
    }

    /** The `foreach` of `notifyObservers`. */
    method CallHandlers(handlers: seq<Handler>, self: nat, world: (nat, Call<nat>) -> Effect,
                        ghost s0: State<nat>, ghost env: Env<nat>)
      returns (error: Option<Exception>, trace: seq<Call<nat>>)
      requires env == Env(self, false, None, GetInstanceCreator(), world)
      requires s0 == Start(Instances(), creatorCalls, NotCancelled)
      modifies this`observerInstances, this`creatorCalls
      ensures var r := RunFrom(handlers, 0, s0, env);
        && Instances() == r.instances && creatorCalls == r.creatorCalls && trace == r.trace
        && error == (if r.halt.Aborted? then Some(r.halt.exception) else None)
        && (observerInstances.None? ==> old(observerInstances).None?)
    {
      ghost var st := s0;
      ghost var unset := observerInstances.None?;
      trace := [];
      error := None;
      var i := 0;
      while i < |handlers|
        invariant 0 <= i <= |handlers|
        invariant st.halt.Running?
        invariant st.instances == Instances() && st.creatorCalls == creatorCalls && st.trace == trace
        invariant RunFrom(handlers, 0, s0, env) == RunFrom(handlers, i, st, env)
        invariant observerInstances.None? ==> unset
        invariant error == None
      {
        var call, halt := CallHandler(handlers[i], self, world, |trace|, st, env);
        trace := trace + [call];
        st := Step(handlers[i], st, env);
        if !halt.Running? {
          error := Some(halt.exception);
          return;
        }
        i := i + 1;
      }
    }

    /**
     * One turn of the `foreach` of `notifyObservers`: the call for `h`, on the cached
     * or newly created observer instance; only an exception ends the loop.
     */
    method CallHandler(h: Handler, self: nat, world: (nat, Call<nat>) -> Effect, position: nat,
                       ghost st: State<nat>, ghost env: Env<nat>)
      returns (call: Call<nat>, halt: Halt)
      requires env == Env(self, false, None, GetInstanceCreator(), world) && position == |st.trace|
      requires st.instances == Instances() && st.creatorCalls == creatorCalls
      modifies this`observerInstances, this`creatorCalls
      ensures var next := Step(h, st, env);
        && Instances() == next.instances && creatorCalls == next.creatorCalls
        && next.trace == st.trace + [call] && halt == next.halt
        && (observerInstances.None? ==> old(observerInstances).None?)
    {
      if h.isStatic {
        call := StaticCall(h, self);
      } else {
        var instance := GetListenerInstance(h.listener);
        call := h.Handle(Some(instance), self);
      }
      var effect := world(position, call);
      halt := if effect.Threw? then Aborted(effect.exception) else Running;
    }
  }
}
