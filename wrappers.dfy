/** Option and Result, the failure-compatible wrappers used for the .NET
    exceptions and nullable values of the trivia service. */
module Wrappers {

  datatype Option<+T> = None | Some(value: T)

  datatype Result<+T, +E> = Success(value: T) | Failure(error: E) {

    predicate IsFailure() {
      Failure?
    }

    function PropagateFailure<U>(): Result<U, E>
      requires Failure?
    {
      Failure(error)
    }

    function Extract(): T
      requires Success?
    {
      value
    }
  }
}

/** The .NET exceptions the core throws or lets escape, as values. */
module Exceptions {

  datatype Exception =
    /** A JsonElement accessor applied to a value of the wrong kind. */
    | InvalidOperation(required: JsonValueKind, actual: JsonValueKind)
    /** JsonElement.GetProperty on an object without that property. */
    | KeyNotFound(key: string)
    | ArgumentNull(paramName: string)
    | ArgumentOutOfRange(paramName: string, message: string)
    /** A plain `new Exception(message)`. */
    | GeneralException(message: string)

  /** System.Text.Json's JsonValueKind. */
  datatype JsonValueKind = Object | Array | String | Number | True | False | Null
}
