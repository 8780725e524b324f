/**
 * The immutable handler descriptor and what a call to a handler looks like:
 * the receiver (an instance or, for a static method, the class name), the
 * method and the fired subject, and what the call did.
 */
module Handlers {
  import opened Results
  import opened Errors
  import opened Cancellation

  /** A PHP value a handler or a response handler can return (floats are not modelled). */
  datatype Value = Null | Bool(b: bool) | Int(i: int) | Str(s: string) | Array(size: nat) | Object(id: nat)

  /** PHP's conversion of a value to bool, which `!` applies. */
  predicate Truthy(v: Value) {
    match v
    case Null => false
    case Bool(b) => b
    case Int(i) => i != 0
    case Str(s) => s != "" && s != "0"
    case Array(n) => n > 0
    case Object(_) => true
  }

  /** The instance creator: the default `new $class`, or a closure the user set. */
  datatype Creator = NewInstance | CustomCreator(closure: nat)

  /** `$instanceCreator ?? fn($class) => new $class`: the closure set last, if any, else the default. */
  function CreatorOf(instanceCreator: Option<nat>): Creator {
    if instanceCreator.Some? then CustomCreator(instanceCreator.value) else NewInstance
  }

  /** A listener or observer object: one the caller handed over, or the one a creator returned on its `serial`-th call. */
  datatype Instance = Supplied(className: string, id: nat) | Created(creator: Creator, listener: string, serial: nat)

  /** What `register` accepts: a class name, or an object of the named class. */
  datatype Registrant = Named(className: string) | Given(className: string, id: nat)

  const ClosureClass := "Closure"

  datatype Receiver = OnInstance(instance: Instance) | OnClass(className: string)

  /** One `call_user_func([$receiver, $method], $argument)`. */
  datatype Call<S> = Call(receiver: Receiver, methodName: string, argument: S)

  /**
   * What a called handler did: it returned a value or it threw, having possibly
   * called `setCancelled` on the subject before either (the last such call is kept).
   */
  datatype Effect =
    | Returned(response: Value, setCancelled: Option<CancelState>)
    | Threw(exception: Exception, setCancelled: Option<CancelState>)

  /**
   * A handler: the subject (event class or action) it answers, the class that
   * declares it, the method name and whether the method is static. Its fields
   * are its getters (`getSubject`, `getHandler`, `isStatic`); a value never changes.
   */
  datatype Handler = Handler(subject: string, listener: string, methodName: string, isStatic: bool) {

    /** The call `handle` makes: on the instance when there is one, otherwise statically on the listener class. */
    function Handle<S(==)>(handler: Option<Instance>, fired: S): (c: Call<S>)
      ensures c.methodName == methodName && c.argument == fired
      ensures handler.Some? ==> c.receiver == OnInstance(handler.value)
      ensures handler.None? ==> c.receiver == OnClass(listener)
    {
      Call(if handler.Some? then OnInstance(handler.value) else OnClass(listener), methodName, fired)
    }
  }

  const HandleArgumentMissing := "Contraption\\Events\\Handler::handle(): Argument #1 ($handler) not passed"

  /**
   * PHP's binding of the arguments of `handle(?object $handler, object $subject)`:
   * `handler` is None when the caller did not pass the first argument at all.
   * That parameter is nullable but has no default value, so leaving it out is an ArgumentCountError.
   */
  function BindHandle<S(==)>(h: Handler, handler: Option<Option<Instance>>, fired: S): (r: Result<Call<S>, Exception>)
    ensures r.Failure? <==> handler.None?
    ensures r.Failure? ==> r.error.ArgumentCount?
    ensures r.Success? ==> r.value == h.Handle(handler.value, fired)
  {
    if handler.None? then Failure(ArgumentCount(HandleArgumentMissing))
    else Success(h.Handle(handler.value, fired))
  }

  /** A static handler's call as the dispatch loops write it, `handle(subject: ...)`, passing only the subject. */
  function StaticCallAsWritten<S(==)>(h: Handler, fired: S): Result<Call<S>, Exception> {
    BindHandle(h, None, fired)
  }

  /** The call as written never reaches the handler: it always fails before call_user_func. */
  lemma StaticCallAsWrittenThrows<S>(h: Handler, fired: S)
    requires h.isStatic
    ensures StaticCallAsWritten(h, fired) == Failure(ArgumentCount(HandleArgumentMissing))
    ensures forall c :: StaticCallAsWritten(h, fired) != Success(c)
  {
  }

  /** The evidently intended static call: a null instance, so the method is called on the listener class. */
  function StaticCall<S(==)>(h: Handler, fired: S): (c: Call<S>)
    ensures c.receiver == OnClass(h.listener) && c.methodName == h.methodName && c.argument == fired
    ensures BindHandle(h, Some(None), fired) == Success(c)
  {
    h.Handle(None, fired)
  }
}
