/**
 * What reflection reports about one public or non-public method of a listener or observer class.
 * The registry never inspects classes itself here: the caller passes these descriptors.
 */
module Reflection {

  /** The declared type of a method's first parameter. */
  datatype ParamType =
    | Untyped                 // hasType() is false
    | Unnamed                 // a union or intersection type, not a ReflectionNamedType
    | Builtin(name: string)   // int, string, array, ...
    | Named(name: string)     // a class or interface name

  datatype MethodInfo = MethodInfo(
    name: string,
    isPublic: bool,
    isStatic: bool,
    subscribeCount: nat,          // number of #[Subscribe] attributes
    observeActions: seq<string>,  // the action of each #[Observe] attribute, in order
    parameterCount: nat,
    firstParameterType: ParamType)
}
