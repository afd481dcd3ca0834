/**
 * The small vocabulary the backend borrows from its web framework:
 * HTTP status values, an optional value, the `Result<T, Status>` that
 * handlers return, and the request-guard outcome (a guard either
 * produces its value or forwards the request with a status).
 */
module Http {

  /** An HTTP status, identified by its numeric code. */
  datatype Status = Status(code: nat)

  const Accepted := Status(202)
  const Unauthorized := Status(401)
  const Forbidden := Status(403)
  const NotFound := Status(404)
  const InternalServerError := Status(500)

  datatype Option<+T> = None | Some(value: T)

  /** A handler result: a value, or the status the request fails with. */
  datatype Result<+T> = Ok(value: T) | Err(status: Status)

  /** A request guard's verdict: the guard value, or forward with a status. */
  datatype Outcome<+T> = Success(value: T) | Forward(status: Status)

  /**
   * A captured inbound request, kept opaque: all the relay needs of it is
   * its JSON serialisation, which may fail (None).
   */
  datatype RequestData = RequestData(json: Option<string>)
}
