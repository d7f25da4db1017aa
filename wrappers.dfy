/** Optional values and the error outcomes of operations whose Java versions throw. */
module Wrappers {

  /** `None` stands for Java's `null` where the source checks for it. */
  datatype Option<+T> = None | Some(value: T)

  /** The unchecked exceptions the modelled code throws. */
  datatype Failure =
    | IllegalArgument   // java.lang.IllegalArgumentException
    | IllegalState      // java.lang.IllegalStateException
    | NullPointer       // java.lang.NullPointerException, e.g. from Objects.requireNonNull

  /** The result of a `void` operation that may throw. */
  datatype Outcome = Ok | Err(failure: Failure)

  /** The result of a value-returning operation that may throw. */
  datatype Result<+T> = Success(value: T) | Fail(failure: Failure)
}
