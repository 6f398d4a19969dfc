/** custom_exception_handler (store/exceptions.py): wraps whatever response
    the framework's own handler produced for an exception in the uniform
    envelope, and answers 500 when it produced none. */
module Exceptions {
  import opened Common

  /** The body of the framework's response: a mapping that may carry a
      "detail" key, or something else (a list, for a ValidationError raised
      with a bare string). */
  datatype Payload = Mapping(detail: Option<string>) | NotMapping

  datatype FrameworkResponse = FrameworkResponse(status: int, payload: Payload)

  /** The exceptions that reach the handler from the modelled views. */
  datatype Raised =
    | NotFound(notFoundDetail: string)            // Http404 / NotFound
    | AuthenticationFailed(authDetail: string)    // raised by the authenticator
    | PermissionDenied                            // a permission class refused
    | Unhandled                                   // anything the framework does not know

  const UnauthorizedMessage: string := "Authentication credentials were not provided or are invalid"
  const ForbiddenMessage: string := "You do not have permission to perform this action"
  const DefaultMessage: string := "An error occurred"
  const UnexpectedMessage: string := "An unexpected error occurred"

  /** The framework's own handler: a response for the exceptions it knows,
      none for the rest. */
  function FrameworkHandler(e: Raised): (r: Option<FrameworkResponse>)
    ensures r.None? <==> e.Unhandled?
    ensures r.Some? ==> r.value.payload.Mapping?
  {
    match e
    case NotFound(d) => Some(FrameworkResponse(404, Mapping(Some(d))))
    case AuthenticationFailed(d) => Some(FrameworkResponse(401, Mapping(Some(d))))
    case PermissionDenied => Some(FrameworkResponse(403, Mapping(Some("You do not have permission to perform this action."))))
    case Unhandled => None
  }

  /** custom_exception_handler. The envelope's code is the response status,
      its data is always {} and success always false; 401 and 403 get fixed
      messages, any other status the detail or a default, and no response
      becomes a 500. */
  function Handle(resp: Option<FrameworkResponse>): (r: Envelope<Empty>)
    requires resp.None? || resp.value.payload.Mapping?
    ensures r.code == r.status && r.data == Some(Empty) && !r.success
    ensures resp.Some? ==> r.status == resp.value.status
    ensures resp.None? ==> r.status == 500 && r.message == UnexpectedMessage
    ensures resp.Some? && resp.value.status == 401 ==> r.message == UnauthorizedMessage
    ensures resp.Some? && resp.value.status == 403 ==> r.message == ForbiddenMessage
    ensures resp.Some? && resp.value.status != 401 && resp.value.status != 403 ==>
              r.message == resp.value.payload.detail.GetOr(DefaultMessage)
  {
    match resp
    case None => Envelope(500, 500, UnexpectedMessage, Some(Empty), false)
    case Some(FrameworkResponse(status, payload)) =>
      var message := if status == 401 then UnauthorizedMessage
                     else if status == 403 then ForbiddenMessage
                     else payload.detail.GetOr(DefaultMessage);
      Envelope(status, status, message, Some(Empty), false)
  }

  /** What a client sees for an exception raised in a view. */
  function HandleException(e: Raised): (r: Envelope<Empty>)
    ensures r.code == r.status && r.data == Some(Empty) && !r.success
    ensures e.Unhandled? <==> r.status == 500
  {
    Handle(FrameworkHandler(e))
  }

  /** The detail of a 401 or 403 never reaches the client: two responses
      that differ only in their detail give the same envelope. */
  lemma FixedMessagesIgnoreDetail(status: int, d1: Option<string>, d2: Option<string>)
    requires status == 401 || status == 403
    ensures Handle(Some(FrameworkResponse(status, Mapping(d1)))) == Handle(Some(FrameworkResponse(status, Mapping(d2))))
  {
  }

  /** Any other status passes its detail through unchanged, so distinct
      details stay distinct. */
  lemma OtherStatusesKeepDetail(status: int, d1: string, d2: string)
    requires status != 401 && status != 403 && d1 != d2
    ensures Handle(Some(FrameworkResponse(status, Mapping(Some(d1))))).message !=
            Handle(Some(FrameworkResponse(status, Mapping(Some(d2))))).message
  {
  }

  /** A missing product in a detail view: the 404 carries the framework's
      "No Product matches the given query." */
  lemma ProductNotFoundEnvelope()
    ensures HandleException(NotFound("No Product matches the given query."))
              == Envelope(404, 404, "No Product matches the given query.", Some(Empty), false)
  {
  }
}
