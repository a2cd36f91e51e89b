/** The outcome kinds of the workflows and the HTTP status each is answered with. */
module Outcomes {
  import opened Wrappers

  datatype ErrorKind = DuplicateUsername | WeakPassword | NotFound | InvalidCredential | Unauthorized | Forbidden | Internal

  /** The status codes of the error responses. */
  function StatusCode(e: ErrorKind): (code: int)
    ensures 400 <= code < 600
    ensures code == 400 <==> e == DuplicateUsername || e == WeakPassword
    ensures code == 500 <==> e == Internal
  {
    match e
    case DuplicateUsername => 400
    case WeakPassword => 400
    case NotFound => 404
    case InvalidCredential => 401
    case Unauthorized => 401
    case Forbidden => 403
    case Internal => 500
  }

  const Created: int := 201
  const Ok: int := 200

  /**
   * The status a workflow's response carries: 201 for a successful register
   * (`creates`), 200 for every other success, and the error's status for a
   * failure. A response is 2xx exactly when the workflow succeeded.
   */
  function Answer<T>(r: Result<T, ErrorKind>, creates: bool): (code: int)
    ensures 200 <= code < 300 <==> r.Success?
    ensures r.Success? ==> code == if creates then Created else Ok
    ensures r.Failure? ==> code == StatusCode(r.error)
  {
    match r
    case Success(_) => if creates then Created else Ok
    case Failure(e) => StatusCode(e)
  }
}
