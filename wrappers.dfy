/** What the route models share: an optional value, a route's reply with its
    HTTP status codes, and the seven-day lifetime of codes and invite tokens. */
module Wrappers {

  datatype Option<+T> = None | Some(value: T) {
    function GetOr(default: T): T {
      match this
      case Some(v) => v
      case None => default
    }
  }

  /** What an HTTP route handler answers: a success body, or an error status
      code with the error text the handler puts in its JSON body. */
  datatype Reply<+T> = Success(body: T) | Failure(status: nat, error: string)

  const BadRequest: nat := 400
  const Unauthorized: nat := 401
  const Forbidden: nat := 403
  const InternalError: nat := 500

  /** Seven days in milliseconds: how long a sign-up code and an invite token stay valid. */
  const SevenDaysMs: nat := 7 * 24 * 60 * 60 * 1000
}
