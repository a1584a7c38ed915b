/**
 * The JSON envelope every HTTP response of the service carries
 * (src/utils/response.js). A success body is `{success: true, message, data, meta}`,
 * a failure body `{success: false, message, errors}`.
 */
module Response {
  import opened Wrappers

  /** One entry of a validation error list after the error handler reshapes it. */
  datatype FieldError = FieldError(field: string, message: string)

  /** One entry of the `errors` array a Sequelize validation error carries. */
  datatype ValidationItem = ValidationItem(path: string, message: string)

  /** The `errors` member of a failure body. */
  datatype Errors =
    | EmptyObject                            // `{}`
    | FieldErrors(items: seq<FieldError>)    // reshaped validation errors
    | RawErrors(raw: seq<ValidationItem>)    // an error's own `errors` array, passed through

  /** A `data` or `meta` member: the default `{}` or a supplied value. */
  datatype Payload<+T> = Empty | Data(value: T)

  /** Pagination-style metadata; the service never supplies any. */
  type Meta = map<string, int>

  /** A failure: its HTTP status and the body `{success: false, message, errors}`. */
  datatype ErrorReply = ErrorReply(status: int, message: string, errors: Errors)

  /**
   * A response: its HTTP status and its body. `Succeeded?` is the body's
   * `success` flag.
   */
  datatype Envelope<+D> =
    | Succeeded(status: int, message: string, data: Payload<D>, meta: Payload<Meta>)
    | Failed(status: int, message: string, errors: Errors)

  function PayloadOf<T>(x: Option<T>): (p: Payload<T>)
    ensures p.Empty? <==> x.None?
    ensures x.Some? ==> p.value == x.value
  {
    match x
    case None => Empty
    case Some(v) => Data(v)
  }

  /** `successResponse`: every argument left out falls back to 200, 'Success', `{}`, `{}`. */
  function SuccessResponse<D>(statusCode: Option<int>, message: Option<string>,
                              data: Option<D>, meta: Option<Meta>): (r: Envelope<D>)
    ensures r.Succeeded?
    ensures r.status == (if statusCode.Some? then statusCode.value else 200)
    ensures r.message == (if message.Some? then message.value else "Success")
    ensures data.None? ==> r.data == Empty
    ensures data.Some? ==> r.data == Data(data.value)
    ensures meta.None? ==> r.meta == Empty
    ensures meta.Some? ==> r.meta == Data(meta.value)
  {
    Succeeded(statusCode.GetOr(200), message.GetOr("Success"), PayloadOf(data), PayloadOf(meta))
  }

  /** `errorResponse`: every argument left out falls back to 500, 'Server Error', `{}`. */
  function ErrorResponse(statusCode: Option<int>, message: Option<string>,
                         errors: Option<Errors>): (r: ErrorReply)
    ensures r.status == (if statusCode.Some? then statusCode.value else 500)
    ensures r.message == (if message.Some? then message.value else "Server Error")
    ensures r.errors == (if errors.Some? then errors.value else EmptyObject)
  {
    ErrorReply(statusCode.GetOr(500), message.GetOr("Server Error"), errors.GetOr(EmptyObject))
  }

  /** `notFoundResponse`: 404, default message 'Resource not found', never any error detail. */
  function NotFoundResponse(message: Option<string>): (r: ErrorReply)
    ensures r == ErrorReply(404, message.GetOr("Resource not found"), EmptyObject)
  {
    ErrorResponse(Some(404), Some(message.GetOr("Resource not found")), None)
  }

  /** `badRequestResponse`: 400, default message 'Bad request'; the only helper forwarding errors. */
  function BadRequestResponse(message: Option<string>, errors: Option<Errors>): (r: ErrorReply)
    ensures r == ErrorReply(400, message.GetOr("Bad request"), errors.GetOr(EmptyObject))
  {
    ErrorResponse(Some(400), Some(message.GetOr("Bad request")), errors)
  }

  /** `unauthorizedResponse`: 401, default message 'Unauthorized', never any error detail. */
  function UnauthorizedResponse(message: Option<string>): (r: ErrorReply)
    ensures r == ErrorReply(401, message.GetOr("Unauthorized"), EmptyObject)
  {
    ErrorResponse(Some(401), Some(message.GetOr("Unauthorized")), None)
  }

  /** `forbiddenResponse`: 403, default message 'Forbidden', never any error detail. */
  function ForbiddenResponse(message: Option<string>): (r: ErrorReply)
    ensures r == ErrorReply(403, message.GetOr("Forbidden"), EmptyObject)
  {
    ErrorResponse(Some(403), Some(message.GetOr("Forbidden")), None)
  }

  /** A failure sent as the response of a handler whose success would carry `D`. */
  function Reply<D>(e: ErrorReply): (r: Envelope<D>)
    ensures r.Failed? && r.status == e.status && r.message == e.message && r.errors == e.errors
  {
    Failed(e.status, e.message, e.errors)
  }
}
