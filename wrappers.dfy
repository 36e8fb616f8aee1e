/** Failure-carrying results shared by every module of the model.

    The source signals failures with Python exceptions; here each operation that can fail
    returns a `Result`, and `Error` names the exception class together with its message
    where the source fixes one. */
module Wrappers {

  datatype Option<+T> = None | Some(value: T)

  /** The Python exceptions the core raises or lets propagate. */
  datatype Error =
    | RuntimeError(message: string)
    | KeyError(message: string)
    | ValueError(message: string)
    | TypeError
    | AttributeError
      /** DataJoint's IntegrityError: the database refuses to delete a key a part row refers to. */
    | IntegrityError
      /** An exception raised by injected code (a trigger, a make method) and propagated unchanged. */
    | Raised

  datatype Result<+T> = Ok(value: T) | Err(error: Error) {
    predicate IsFailure() { Err? }

    function PropagateFailure<U>(): Result<U>
      requires Err?
    {
      Err(error)
    }

    function Extract(): T
      requires Ok?
    {
      value
    }
  }
}
