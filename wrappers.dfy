/** Optional values, results, and the .NET exceptions the modelled code can raise. */
module Wrappers {

  /** A value that may be missing: a C# `null`. */
  datatype Option<+T> = None | Some(value: T) {
    predicate IsFailure() { None? }

    function PropagateFailure<U>(): Option<U>
      requires None?
    {
      None
    }

    function Extract(): T
      requires Some?
    {
      value
    }
  }

  /** The outcome of an operation that may throw. */
  datatype Result<+R, +E> = Ok(value: R) | Err(error: E) {
    predicate IsFailure() { Err? }

    function PropagateFailure<U>(): Result<U, E>
      requires Err?
    {
      Err(error)
    }

    function Extract(): R
      requires Ok?
    {
      value
    }
  }

  /** The exceptions raised on the modelled code paths. */
  datatype Exception =
    | ArgumentException(duplicateKey: string)     // Enumerable.ToDictionary met a key twice
    | InvalidOperationException(message: string)  // SingleOrDefault on several keys, or an unknown property
    | NotSupportedException(message: string)      // an entity state outside the enum's named values
}
