/** HTTP replies of the auth routes: a status code and, on success, the token body. */
module Http {
  import opened Wrappers

  const StatusOk: int := 200
  const StatusNoContent: int := 204
  const StatusUnauthorized: int := 401
  const StatusForbidden: int := 403
  /** What the web framework answers when a handler raises an exception it does not handle. */
  const StatusServerError: int := 500

  /** A reply: the status and the `{"token": ...}` body, present only on success. */
  datatype Response = Response(status: int, token: Option<string>)

  /** A route's reply together with the session store it leaves behind. */
  datatype Exchange<S> = Exchange(response: Response, store: S)

  /** An `HTTPException` (or unhandled error) with the given status: no body. */
  function Refusal(status: int): Response {
    Response(status, None)
  }
}
