/** Optional values, the framework's exceptions, and the results of operations that can throw. */
module Wrappers {

  datatype Option<T> = None | Some(value: T)

  /** The exceptions the framework throws, and the engine errors PHP raises on its behalf. */
  datatype Exception =
    | InvalidArgumentException(message: string)
    | RouteNotFound(message: string)
    | NotFoundException(message: string)
    | BadMethodCallException(message: string)
    | LogicException(message: string)
      /** A value of the wrong type reached a typed parameter, return or builtin. */
    | TypeError
      /** A typed property was read before it was ever assigned. */
    | UninitializedProperty(property: string)
      /** An object that does not implement ArrayAccess was indexed like an array. */
    | CannotUseObjectAsArray(className: string)

  /** The outcome of an operation that returns a value or throws. */
  datatype Result<T> = Ok(value: T) | Err(error: Exception) {
    predicate IsFailure() { Err? }

    function PropagateFailure<U>(): Result<U>
      requires Err?
    {
      Err(error)
    }

    function Extract(): T
      requires Ok?
    {
      value
    }
  }

  /** The outcome of an operation that returns nothing or throws. */
  datatype Outcome = Pass | Fail(error: Exception)
}
