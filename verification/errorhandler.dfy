/**
 * The global error handler (src/middlewares/errorHandler.js): classifies a
 * thrown error by its `name` and `statusCode` into the failure envelope.
 */
module ErrorHandler {
  import opened Wrappers
  import opened Response

  /**
   * A thrown error as the handler sees it. `None` stands for an undefined
   * property; `statusCode` is truthy exactly when it is present and non-zero.
   */
  datatype AppError = AppError(
    name: string,
    message: Option<string>,
    statusCode: Option<int>,
    errors: Option<seq<ValidationItem>>)

  predicate IsValidationName(name: string) {
    name == "SequelizeValidationError" || name == "SequelizeUniqueConstraintError"
  }

  /** `if (err.statusCode)`: present and not 0. */
  predicate HasCustomStatus(err: AppError) {
    err.statusCode.Some? && err.statusCode.value != 0
  }

  /** `err.errors.map(e => ({field: e.path, message: e.message}))`. */
  function Reshape(items: seq<ValidationItem>): (r: seq<FieldError>)
    ensures |r| == |items|
    ensures forall i :: 0 <= i < |items| ==> r[i] == FieldError(items[i].path, items[i].message)
  {
    seq(|items|, i requires 0 <= i < |items| => FieldError(items[i].path, items[i].message))
  }

  /**
   * The handler's response. Sequelize attaches an `errors` array to every
   * validation error it raises, which the handler relies on.
   */
  function Handle(err: AppError): (r: ErrorReply)
    requires IsValidationName(err.name) ==> err.errors.Some?
    ensures HasCustomStatus(err) ==>
              r.status == err.statusCode.value
              && r.message == err.message.GetOr("Server Error")
              && r.errors == (if err.errors.Some? then RawErrors(err.errors.value) else EmptyObject)
    ensures !HasCustomStatus(err) && IsValidationName(err.name) ==>
              r == ErrorReply(400, "Validation Error", FieldErrors(Reshape(err.errors.value)))
    ensures !HasCustomStatus(err) && err.name == "JsonWebTokenError" ==>
              r == ErrorReply(401, "Invalid Token", EmptyObject)
    ensures !HasCustomStatus(err) && err.name == "TokenExpiredError" ==>
              r == ErrorReply(401, "Token Expired", EmptyObject)
  {
    // Each later test overwrites what an earlier one set.
    var (status0, message0, errors0) := (500, Some("Internal Server Error"), EmptyObject);
    var (status1, message1, errors1) :=
      if IsValidationName(err.name) then (400, Some("Validation Error"), FieldErrors(Reshape(err.errors.value)))
      else (status0, message0, errors0);
    var (status2, message2) :=
      if err.name == "JsonWebTokenError" then (401, Some("Invalid Token")) else (status1, message1);
    var (status3, message3) :=
      if err.name == "TokenExpiredError" then (401, Some("Token Expired")) else (status2, message2);
    var (status4, message4, errors4) :=
      if HasCustomStatus(err) then
        (err.statusCode.value, err.message, if err.errors.Some? then RawErrors(err.errors.value) else EmptyObject)
      else (status3, message3, errors1);
    ErrorResponse(Some(status4), message4, Some(errors4))
  }

  /**
   * Without a custom status the handler answers from a three-way decision
   * table on the error's name: 400 for the two Sequelize validation names,
   * 401 for the two token names, 500 with empty detail for everything else.
   */
  lemma {:induction false} DecisionTable(err: AppError)
    requires IsValidationName(err.name) ==> err.errors.Some?
    requires !HasCustomStatus(err)
    ensures var r := Handle(err);
            && (r.status == 400 <==> IsValidationName(err.name))
            && (r.status == 401 <==> err.name in {"JsonWebTokenError", "TokenExpiredError"})
            && (r.status == 500 <==> !IsValidationName(err.name) && err.name !in {"JsonWebTokenError", "TokenExpiredError"})
            && (r.status == 500 ==> r.message == "Internal Server Error" && r.errors == EmptyObject)
  {
  }
}
