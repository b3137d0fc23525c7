/** Outcomes of the modelled Python code: a value, or the exception it raises instead. */
module Wrappers {

  datatype Option<+T> = None | Some(value: T)

  /** An exception escaping a Python function of the model.
      `Http` is ninja's `HttpError`: the framework answers with `status` and the JSON body
      `{"detail": detail}`.
      `Invalid` is a pydantic validation error on a request field, which ninja answers with 422.
      `Crash` is any other Python exception (TypeError, AttributeError, DoesNotExist,
      MultipleObjectsReturned, ...), named by `reason`; it is not turned into a chosen answer. */
  datatype Failure = Http(status: int, detail: string) | Invalid(field: string) | Crash(reason: string)

  /** A value, or the exception raised instead. */
  datatype Result<+T> = Ok(value: T) | Err(error: Failure) {
    predicate IsFailure() { Err? }

    function PropagateFailure<U>(): Result<U>
      requires Err?
    {
      Err(error)
    }

    function Extract(): T
      requires Ok?
    {
      value
    }
  }

  /** A check that returns nothing or raises. */
  datatype Outcome = Pass | Fail(error: Failure) {
    predicate IsFailure() { Fail? }

    function PropagateFailure(): Outcome
      requires Fail?
    {
      this
    }
  }

  /** Python's sequencing of two checks: the second runs only when the first passed. */
  function Then(first: Outcome, second: Outcome): Outcome
  {
    if first.Fail? then first else second
  }

  // The HTTP statuses the core raises (Python's `http.HTTPStatus`).
  const UNAUTHORIZED: int := 401
  const FORBIDDEN: int := 403
  const NOT_FOUND: int := 404
  const UNPROCESSABLE_ENTITY: int := 422
  const INTERNAL_SERVER_ERROR: int := 500

  /** `HttpError(HTTPStatus.UNPROCESSABLE_ENTITY, detail)`, the validators' failure. */
  function Unprocessable(detail: string): Failure
  {
    Http(UNPROCESSABLE_ENTITY, detail)
  }
}
