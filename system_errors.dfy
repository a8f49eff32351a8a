/**
 * Errors that carry the HTTP status they should be reported with
 * (internal/systemerrors/systemerrors.go). A Go `error` is modelled by its
 * message.
 */
module SystemErrors {
  import opened Common

  /** `Reason`: an HTTP status code. */
  type Reason = int

  const NotFound: Reason := StatusNotFound
  const UserError: Reason := StatusBadRequest
  const InternalError: Reason := StatusInternalServerError

  /** `apiError`: the wrapped error and the reason code, nothing else. */
  datatype ApiError = ApiError(err: string, code: Reason) {
    /** The reason code as a plain number. */
    function Reason(): (r: int)
      ensures r == code
    {
      code
    }

    /** The wrapped error's own message. */
    function Error(): (m: string)
      ensures m == err
    {
      err
    }
  }

  /** WrapSystemError: the error reports the given reason and the wrapped error's message. */
  function WrapSystemError(err: string, intention: Reason): (e: ApiError)
    ensures e.Reason() == intention && e.Error() == err
  {
    ApiError(err, intention)
  }

  /** An error is fully determined by its message and reason: wrapping keeps no other state. */
  lemma WrapRoundTrip(e: ApiError)
    ensures WrapSystemError(e.Error(), e.Reason()) == e
  {
  }

  /** The three reasons are the statuses Not Found, Bad Request and Internal Server Error, all distinct. */
  lemma ReasonCodes()
    ensures NotFound == 404 && UserError == 400 && InternalError == 500
    ensures NotFound != UserError && UserError != InternalError && NotFound != InternalError
  {
  }
}
