/** Failure values of the fixed-size containers.

    `MADNESS_ASSERT(cond)` in the containers throws when `cond` is false; the
    model turns each such assertion into an explicit error result that names
    the condition that failed. */
module Errors {

  /** The failed assertion, identified by the condition text the source asserts. */
  datatype Error = AssertionFailed(condition: string)

  /** Either the value an operation produced or the assertion that stopped it. */
  datatype Result<+T> = Ok(value: T) | Err(error: Error) {

    predicate IsFailure() {
      Err?
    }

    function PropagateFailure<U>(): Result<U>
      requires Err?
    {
      Err(error)
    }

    function Extract(): T
      requires Ok?
    {
      value
    }
  }
}
