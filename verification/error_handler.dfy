/** The global error handler: maps an error that escaped a handler to a
    failure reply, translating the three database error kinds first. */
module ErrorHandler {
  import opened Wrappers
  import opened Text

  /** The parts of a thrown error the handler reads: its `name`, the
      driver's numeric `code`, an application `statusCode`, its `message`,
      the messages of a validation error's fields (in property order) and
      its stack trace. An absent property is `None`. */
  datatype AppError = AppError(
    name: string,
    code: Option<int>,
    statusCode: Option<int>,
    message: string,
    fieldMessages: seq<string>,
    stack: Option<string>)

  /** The JSON failure reply: `success` is always false, and `stack` is
      present only in development. */
  datatype ErrorReply = ErrorReply(status: int, success: bool, message: string, stack: Option<string>)

  const CAST_ERROR: string := "CastError"
  const VALIDATION_ERROR: string := "ValidationError"
  const DUPLICATE_KEY: int := 11000
  const NOT_FOUND_MESSAGE: string := "Resource not found"
  const DUPLICATE_MESSAGE: string := "Duplicate field value entered"
  const FALLBACK_MESSAGE: string := "Server Error"

  /** With a non-empty separator, a join is empty exactly when there is
      nothing to join or the only part is empty. */
  lemma {:induction false} JoinEmptyIff(parts: seq<string>, sep: string)
    requires sep != ""
    ensures Join(parts, sep) == "" <==> |parts| == 0 || (|parts| == 1 && parts[0] == "")
  {
    if |parts| >= 2 {
      assert |Join(parts, sep)| >= |sep|;
    }
  }

  /** The status and message the handler has settled on so far. */
  datatype Verdict = Verdict(statusCode: Option<int>, message: string)

  /** The three translations, applied in the handler's order; each one that
      matches overwrites what the previous ones decided. */
  function Translate(err: AppError): Verdict {
    var v0 := Verdict(err.statusCode, err.message);
    var v1 := if err.name == CAST_ERROR then Verdict(Some(404), NOT_FOUND_MESSAGE) else v0;
    var v2 := if err.code == Some(DUPLICATE_KEY) then Verdict(Some(400), DUPLICATE_MESSAGE) else v1;
    if err.name == VALIDATION_ERROR then Verdict(Some(400), Join(err.fieldMessages, ", ")) else v2
  }

  /** `errorHandler`: the translated status, or 500 when it is absent or
      0; the translated message, or `"Server Error"` when it is empty. */
  function HandleError(err: AppError, nodeEnv: string): (r: ErrorReply)
    ensures !r.success
    ensures r.stack.Some? ==> nodeEnv == "development" && r.stack == err.stack
    ensures nodeEnv == "development" ==> r.stack == err.stack
    ensures r.message != ""
    ensures err.name == VALIDATION_ERROR ==> r.status == 400
    ensures err.name != VALIDATION_ERROR && err.code == Some(DUPLICATE_KEY) ==>
      r.status == 400 && r.message == DUPLICATE_MESSAGE
    ensures err.name == CAST_ERROR && err.code != Some(DUPLICATE_KEY) ==>
      r.status == 404 && r.message == NOT_FOUND_MESSAGE
    ensures err.name != CAST_ERROR && err.name != VALIDATION_ERROR && err.code != Some(DUPLICATE_KEY) ==>
      && r.status == (if err.statusCode.Some? && err.statusCode.value != 0 then err.statusCode.value else 500)
      && r.message == (if err.message != "" then err.message else FALLBACK_MESSAGE)
  {
    var v := Translate(err);
    ErrorReply(if v.statusCode.Some? && v.statusCode.value != 0 then v.statusCode.value else 500,
               false,
               if v.message != "" then v.message else FALLBACK_MESSAGE,
               if nodeEnv == "development" then err.stack else None)
  }

  /** The error kinds by precedence: a later check in the handler wins, so
      validation beats a duplicate key, which beats a bad id. */
  datatype ErrorKind = Validation | DuplicateKey | BadId | Other

  function KindOf(err: AppError): ErrorKind {
    if err.name == VALIDATION_ERROR then Validation
    else if err.code == Some(DUPLICATE_KEY) then DuplicateKey
    else if err.name == CAST_ERROR then BadId
    else Other
  }

  /** The reply each kind gets, read off the precedence order. */
  function ReplyFor(err: AppError, nodeEnv: string): ErrorReply {
    var stack := if nodeEnv == "development" then err.stack else None;
    match KindOf(err)
    case Validation =>
      var m := Join(err.fieldMessages, ", ");
      ErrorReply(400, false, if m == "" then FALLBACK_MESSAGE else m, stack)
    case DuplicateKey => ErrorReply(400, false, DUPLICATE_MESSAGE, stack)
    case BadId => ErrorReply(404, false, NOT_FOUND_MESSAGE, stack)
    case Other =>
      ErrorReply(if err.statusCode.Some? && err.statusCode.value != 0 then err.statusCode.value else 500,
                 false, if err.message != "" then err.message else FALLBACK_MESSAGE, stack)
  }

  /** Running the three checks in sequence is the same as picking the
      reply of the highest-precedence kind. */
  lemma HandleErrorByPrecedence(err: AppError, nodeEnv: string)
    ensures HandleError(err, nodeEnv) == ReplyFor(err, nodeEnv)
  {
  }

  /** A validation error with no field messages (or one empty one) falls
      back to `"Server Error"` while keeping status 400. */
  lemma EmptyValidationFallsBack(err: AppError, nodeEnv: string)
    requires err.name == VALIDATION_ERROR
    ensures HandleError(err, nodeEnv).status == 400
    ensures HandleError(err, nodeEnv).message ==
      if |err.fieldMessages| == 0 || err.fieldMessages == [""] then FALLBACK_MESSAGE
      else Join(err.fieldMessages, ", ")
  {
    JoinEmptyIff(err.fieldMessages, ", ");
    if |err.fieldMessages| == 1 && err.fieldMessages[0] == "" {
      assert err.fieldMessages == [""];
    }
  }

  /** A duplicate-key error keeps its translation even when its name also
      marks it as a bad id: the later check overrides the earlier one. */
  lemma DuplicateOverridesCast(err: AppError, nodeEnv: string)
    requires err.name == CAST_ERROR && err.code == Some(DUPLICATE_KEY)
    ensures HandleError(err, nodeEnv).status == 400
    ensures HandleError(err, nodeEnv).message == DUPLICATE_MESSAGE
  {
  }
}
