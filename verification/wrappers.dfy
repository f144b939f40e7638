/** Optional and fallible values shared by the tile-layer modules. */
module Wrappers {

  /**
   Nothing, or exactly one value. Inside a function body `var v :- e;`
   gives up with `None` as soon as `e` is `None`, and binds `v` otherwise.
   */
  datatype Option<+T> = None | Some(value: T) {

    predicate IsFailure() {
      None?
    }

    function Extract(): T
      requires Some?
    {
      value
    }

    function PropagateFailure<U>(): Option<U>
      requires None?
    {
      None
    }
  }

  /** The outcome of an operation that either produces a value or reports why it could not. */
  datatype Result<+R, +E> = Success(value: R) | Failure(error: E)
}
