/** Failure-compatible wrappers used by every module of the model, and the
    Python exception classes that the marshaller can raise. */
module Wrappers {

  /** Python's `None` or a present value. */
  datatype Option<+T> = None | Some(value: T) {

    predicate IsFailure() {
      None?
    }

    function PropagateFailure<U>(): Option<U>
      requires None?
    {
      None
    }

    function Extract(): T
      requires Some?
    {
      value
    }
  }

  /** The exception a Python operation raises. `NotModelled` marks the few
      conversions of structured Python values that the model does not
      interpret (they are listed in the README). */
  datatype Error =
    | ValueError(what: string)
    | KeyError(key: string)
    | IndexError(what: string)
    | TypeError(what: string)
    | AttributeError(name: string)
    | NameError(name: string)
    | NotModelled(what: string)

  /** The outcome of an operation that may raise. */
  datatype Result<+T> = Ok(value: T) | Err(error: Error) {

    predicate IsFailure() {
      Err?
    }

    function PropagateFailure<U>(): Result<U>
      requires Err?
    {
      Err(error)
    }

    function Extract(): T
      requires Ok?
    {
      value
    }
  }
}
