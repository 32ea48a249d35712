/** Option and Result types shared by the whole model.
    `None` stands for JavaScript's `undefined`; a `Failure` stands for an
    exception thrown by the modelled code. */
module Wrappers {

  datatype Option<+T> = None | Some(value: T)

  /** The two kinds of exception the core raises: a schema or sanity check
      that throws an `Error`, and a `TypeError` from reading a property of
      `undefined`/`null` or calling something that is not a function. */
  datatype ErrorKind = SchemaViolation | TypeError

  datatype Result<+T> = Success(value: T) | Failure(error: ErrorKind) {

    predicate IsFailure() {
      Failure?
    }

    function PropagateFailure<U>(): Result<U>
      requires Failure?
    {
      Failure(error)
    }

    function Extract(): T
      requires Success?
    {
      value
    }
  }
}
