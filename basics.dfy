/** Option and Result: the two failure-carrying wrappers the model uses for
    Python's `None` returns and raised exceptions. */
module Basics {

  datatype Option<+T> = None | Some(value: T)

  datatype Result<+T, +E> = Ok(value: T) | Err(error: E)
  {
    predicate IsFailure() {
      Err?
    }

    function PropagateFailure<U>(): Result<U, E>
      requires Err?
    {
      Err(error)
    }

    function Extract(): T
      requires Ok?
    {
      value
    }
  }

  /** The exceptions the modelled Python code can raise and not catch. */
  datatype PyError =
    | KeyError(key: string)
    | TypeError(reason: string)
    | AttributeError(reason: string)
    | IndexError(reason: string)
    | ValueError(reason: string)
    | CalledProcessError(returnCode: int)
    | RequestError(reason: string)
}
