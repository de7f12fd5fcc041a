/** Error values and the failure-carrying wrappers every other module returns.

    Go functions in the controller return either a plain `error` (modelled by
    `Outcome`) or a value together with an `error` (modelled by `Result`). */
module Errors {

  datatype Option<+T> = None | Some(value: T)

  /** The errors the controller can see or produce. */
  datatype Error =
      /** The Kubernetes API server's NotFound status: the object does not exist. */
    | NotFound
      /** The API server refused a create because the object already exists. */
    | AlreadyExists
      /** The API server refused an update whose resourceVersion is stale. */
    | Conflict
      /** Any other API server or transport failure, with its reason. */
    | ServerFailure(reason: string)
      /** An error built from a fixed message (`errors.New`, `fmt.Errorf` without `%w`). */
    | Message(text: string)
      /** `fmt.Errorf("<context>: %w", cause)`: the cause with operation context in front. */
    | Wrapped(context: string, cause: Error)
  {
    /** `kubeerrors.IsNotFound` on an error returned by the API server. */
    predicate IsNotFound() {
      NotFound?
    }
  }

  /** A Go `error` return: nil (Pass) or an error (Fail). */
  datatype Outcome = Pass | Fail(error: Error)
  {
    /** The error returned, if any. */
    function Failure(): Option<Error> {
      if Fail? then Some(error) else None
    }
  }

  /** A Go `(value, error)` return. */
  datatype Result<+T> = Ok(value: T) | Err(error: Error)
  {
    /** The error returned, if any. */
    function Failure(): Option<Error> {
      if Err? then Some(error) else None
    }
  }
}
