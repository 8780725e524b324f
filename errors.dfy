/** The exceptions the registry and its callers can raise. */
module Errors {

  datatype Exception =
    | InvalidArgument(message: string)
      /** ReflectionException raised by `new ReflectionClass` for a class that cannot be loaded */
    | ReflectionFailure(className: string)
      /** RuntimeException carrying the exception that caused it as `previous` */
    | Runtime(message: string, previous: Exception)
      /** ArgumentCountError: a required parameter was not passed */
    | ArgumentCount(message: string)
      /** any exception thrown by a user's handler method */
    | Thrown(className: string)
}
