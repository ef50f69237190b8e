/**
 * The boundary translation of failures into HTTP replies: each exception
 * kind becomes a status code and a list of messages.
 */
module GlobalExceptionHandler {
  import opened Wrappers
  import opened FlightModel

  const BadRequest: int := 400
  const InternalServerError: int := 500

  /** A reply: its status code and its error body. */
  datatype ResponseEntity = ResponseEntity(status: int, body: ErrorResponse)

  /**
   * An entry of a binding result: an error on one field, or an error on the
   * object as a whole.
   */
  datatype ObjectError =
    | FieldError(field: string, defaultMessage: string)
    | GlobalError(objectName: string, defaultMessage: string)

  /** One violated constraint on a method parameter. */
  datatype ConstraintViolation = ConstraintViolation(propertyPath: string, message: string)

  /** The exceptions the handler is registered for. */
  datatype HandledException =
    | Service(serviceException: ServiceException)
    | MethodArgumentNotValid(errors: seq<ObjectError>)
    | ConstraintViolations(violations: seq<ConstraintViolation>)

  function HandleBusinessException(message: string): (r: ResponseEntity)
    ensures r.status == BadRequest
    ensures r.body.messages == [message]
  {
    ResponseEntity(BadRequest, ErrorResponse([message]))
  }

  function HandleTechnicalException(message: string): (r: ResponseEntity)
    ensures r.status == InternalServerError
    ensures r.body.messages == [message]
  {
    ResponseEntity(InternalServerError, ErrorResponse([message]))
  }

  /**
   * The default messages of the binding errors, in order, each error being
   * cast to a field error; the cast fails (`None`) as soon as one is not.
   */
  function FieldErrorMessages(errors: seq<ObjectError>): (ms: Option<seq<string>>)
    ensures ms.Some? <==> forall i | 0 <= i < |errors| :: errors[i].FieldError?
    ensures ms.Some? ==> |ms.value| == |errors|
    ensures ms.Some? ==> forall i | 0 <= i < |errors| :: ms.value[i] == errors[i].defaultMessage
  {
    if errors == [] then Some([])
    else if errors[0].GlobalError? then None
    else match FieldErrorMessages(errors[1..])
      case None => None
      case Some(rest) => Some([errors[0].defaultMessage] + rest)
  }

  /**
   * Body validation failure: 400 with one message per field error, in order
   * (the list itself, not a joined string). `None` is the handler itself
   * failing on a binding error that is not a field error.
   */
  function HandleValidationExceptions(errors: seq<ObjectError>): (r: Option<ResponseEntity>)
    ensures r.Some? <==> forall i | 0 <= i < |errors| :: errors[i].FieldError?
    ensures r.Some? ==> r.value.status == BadRequest && |r.value.body.messages| == |errors|
    ensures r.Some? ==> forall i | 0 <= i < |errors| :: r.value.body.messages[i] == errors[i].defaultMessage
  {
    match FieldErrorMessages(errors)
    case None => None
    case Some(messages) => Some(ResponseEntity(BadRequest, ErrorResponse(messages)))
  }

  /** Parameter constraint failure: 400 with one message per violation, in order. */
  function HandleConstraintViolation(violations: seq<ConstraintViolation>): (r: ResponseEntity)
    ensures r.status == BadRequest
    ensures |r.body.messages| == |violations|
    ensures forall i | 0 <= i < |violations| :: r.body.messages[i] == violations[i].message
  {
    ResponseEntity(BadRequest,
      ErrorResponse(seq(|violations|, i requires 0 <= i < |violations| => violations[i].message)))
  }

  /** Picks the handler registered for the exception's kind. */
  function Handle(ex: HandledException): (r: Option<ResponseEntity>)
    ensures r.Some? ==> r.value.status == BadRequest || r.value.status == InternalServerError
    ensures r.None? ==> ex.MethodArgumentNotValid?
    ensures ex.Service? ==> && r.Some?
                            && r.value.body.messages == [ex.serviceException.message]
                            && (r.value.status == InternalServerError <==> ex.serviceException.TechnicalException?)
    ensures ex.MethodArgumentNotValid? ==>
              && (r.Some? <==> forall i | 0 <= i < |ex.errors| :: ex.errors[i].FieldError?)
              && (r.Some? ==> && r.value.status == BadRequest
                              && |r.value.body.messages| == |ex.errors|
                              && forall i | 0 <= i < |ex.errors| :: r.value.body.messages[i] == ex.errors[i].defaultMessage)
    ensures ex.ConstraintViolations? ==>
              && r.Some? && r.value.status == BadRequest
              && |r.value.body.messages| == |ex.violations|
              && forall i | 0 <= i < |ex.violations| :: r.value.body.messages[i] == ex.violations[i].message
  {
    match ex
    case Service(BusinessException(message)) => Some(HandleBusinessException(message))
    case Service(TechnicalException(message)) => Some(HandleTechnicalException(message))
    case MethodArgumentNotValid(errors) => HandleValidationExceptions(errors)
    case ConstraintViolations(violations) => Some(HandleConstraintViolation(violations))
  }
}
