/**
 * The global exception handler (backend/.../common/GlobalExceptionHandler.java): how an exception
 * escaping a controller becomes a status and an error envelope.
 */
module GlobalExceptionHandler {
  import opened Wrappers
  import opened Http

  const InvalidCredentials := "Invalid credentials"
  const ValidationFailed := "Validation failed"
  const ServerError := "Server error"

  /**
   * Bad credentials are 401, failed argument validation is 400, anything else is 500; every body is
   * an error envelope with no data.
   */
  function Handle(e: Exception): (r: Response<()>)
    ensures !IsSuccessful(r.status) && r.body.Some? && !r.body.value.success && r.body.value.data.None?
    ensures e.BadCredentials? ==> r.status == Unauthorized && r.body.value.message == Some(InvalidCredentials)
    ensures e.ArgumentNotValid? ==> r.status == BadRequest && r.body.value.message == Some(ValidationFailed)
    ensures e.NoSuchElement? || e.OtherException? ==>
              r.status == InternalServerError && r.body.value.message == Some(ServerError)
  {
    match e
    case BadCredentials => Response(Unauthorized, Some(ErrorEnvelope(InvalidCredentials)))
    case ArgumentNotValid => Response(BadRequest, Some(ErrorEnvelope(ValidationFailed)))
    case _ => Response(InternalServerError, Some(ErrorEnvelope(ServerError)))
  }

  /** The status alone tells which handler ran: 401 only for bad credentials, 400 only for validation. */
  lemma StatusIdentifiesHandler(e: Exception)
    ensures Handle(e).status == Unauthorized <==> e.BadCredentials?
    ensures Handle(e).status == BadRequest <==> e.ArgumentNotValid?
    ensures Handle(e).status == InternalServerError <==> !e.BadCredentials? && !e.ArgumentNotValid?
  {
  }

  /**
   * What the caller receives: the returned response, or the handler's status and error message for
   * the exception.
   */
  function Dispatch<T>(o: Outcome<T>): (r: Response<T>)
    ensures o.Returned? ==> r == o.response
    ensures o.Threw? ==> !IsSuccessful(r.status) && r.status == Handle(o.exception).status && r.body.Some? &&
                         r.body.value == ErrorEnvelope(Handle(o.exception).body.value.message.value)
  {
    match o
    case Returned(response) => response
    case Threw(e) =>
      var h := Handle(e);
      Response(h.status, Some(ErrorEnvelope(h.body.value.message.value)))
  }
}
