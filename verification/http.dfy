/**
 * The backend's HTTP vocabulary: statuses, the `{success, message, data}` envelope, the exceptions
 * a controller can throw, and the authenticated principal.
 */
module Http {
  import opened Wrappers
  import opened Dtos

  datatype Status = Ok | NoContent | BadRequest | Unauthorized | NotFound | InternalServerError

  function Code(s: Status): nat {
    match s
    case Ok => 200
    case NoContent => 204
    case BadRequest => 400
    case Unauthorized => 401
    case NotFound => 404
    case InternalServerError => 500
  }

  predicate IsSuccessful(s: Status) {
    200 <= Code(s) < 300
  }

  /** The response envelope. A success built from data alone has no message of its own here. */
  datatype Envelope<T> = Envelope(success: bool, message: Option<string>, data: Option<T>)

  function OkMessage<T>(message: string, data: Option<T>): Envelope<T> {
    Envelope(true, Some(message), data)
  }

  function OkData<T>(data: T): Envelope<T> {
    Envelope(true, None, Some(data))
  }

  function ErrorEnvelope<T>(message: string): Envelope<T> {
    Envelope(false, Some(message), None)
  }

  /** A response: a status and a body, absent for bodiless responses such as 404 and 204. */
  datatype Response<T> = Response(status: Status, body: Option<Envelope<T>>)

  /** The exceptions that reach the global handler. */
  datatype Exception =
    | BadCredentials
    | ArgumentNotValid
      /** An empty `Optional` unwrapped with `orElseThrow()`. */
    | NoSuchElement
    | OtherException(name: string)

  /** A controller method either returns a response or throws. */
  datatype Outcome<T> = Returned(response: Response<T>) | Threw(exception: Exception)

  /** The authenticated caller: the username (an email) and the role its authority carries. */
  datatype Principal = Principal(username: string, role: Role)
}
