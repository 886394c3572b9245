// Error classifiers: src/utils/errorHandling.ts and src/utils/errorHandling/{api,general}-error-handler.ts.
// The `details` payload, the timestamp and console logging are not modelled.

module ErrorValues {
  import opened Options
  import opened JsText

  /** The `data` object under `error.response`; an empty text is a missing or falsy field. */
  datatype ResponseData = ResponseData(message: string, code: string)

  /** The shapes of the `error: any` the handlers inspect. */
  datatype ErrorValue =
    | Missing                                                  // null or undefined
    | Text(text: string)                                       // typeof error === 'string'
    | Object(message: string, data: Option<ResponseData>)      // "" is an absent or falsy message

  /** The AppError record without its details and timestamp. */
  datatype AppError = AppError(code: string, message: string)

  const API_ERROR := "API_ERROR"
  const UNKNOWN_ERROR := "UNKNOWN_ERROR"
  const VALIDATION_ERROR := "VALIDATION_ERROR"
  const DUPLICATE_ERROR := "DUPLICATE_ERROR"
  const FOREIGN_KEY_ERROR := "FOREIGN_KEY_ERROR"
  const UNHANDLED_ERROR := "UNHANDLED_ERROR"

  const UNEXPECTED_MESSAGE := "An unexpected error occurred"
  const DUPLICATE_MESSAGE := "A record with these details already exists"
  const FOREIGN_KEY_MESSAGE := "Cannot delete this item as it is being used elsewhere"
  const FALLBACK_MESSAGE := "An error occurred"

  /** `error?.message`, empty when there is none */
  function MessageOf(e: ErrorValue): string {
    if e.Object? then e.message else ""
  }

  /** `error?.response?.data?.message` is truthy */
  predicate HasDataMessage(e: ErrorValue) {
    e.Object? && e.data.Some? && e.data.value.message != ""
  }

  /** `error?.message?.includes('UNIQUE constraint failed')` */
  predicate IsUniqueViolation(e: ErrorValue) {
    Includes(MessageOf(e), "UNIQUE constraint failed")
  }

  /** `error?.message?.includes('FOREIGN KEY constraint failed')` */
  predicate IsForeignKeyViolation(e: ErrorValue) {
    Includes(MessageOf(e), "FOREIGN KEY constraint failed")
  }

  /** JavaScript `a || b` on texts */
  function OrElse(a: string, b: string): string {
    if a != "" then a else b
  }
}

module ErrorHandling {
  import opened Options
  import opened JsText
  import opened ErrorValues

  function HandleApiError(e: ErrorValue): (r: AppError)
    ensures e.Text? ==> r == AppError(API_ERROR, e.text)
    ensures MessageOf(e) != "" ==> r == AppError(API_ERROR, MessageOf(e))
    ensures !e.Text? && MessageOf(e) == "" && HasDataMessage(e) ==>
              r.message == e.data.value.message
              && r.code == (if e.data.value.code != "" then e.data.value.code else API_ERROR)
    ensures !e.Text? && MessageOf(e) == "" && !HasDataMessage(e) ==> r == AppError(UNKNOWN_ERROR, UNEXPECTED_MESSAGE)
  {
    if e.Text? then AppError(API_ERROR, e.text)
    else if MessageOf(e) != "" then AppError(API_ERROR, MessageOf(e))
    else if HasDataMessage(e) then
      AppError(OrElse(e.data.value.code, API_ERROR), e.data.value.message)
    else AppError(UNKNOWN_ERROR, UNEXPECTED_MESSAGE)
  }

  function HandleValidationError(field: string, errors: seq<string>): (r: AppError)
    ensures r.code == VALIDATION_ERROR && r.message == "Validation failed for " + field
  {
    AppError(VALIDATION_ERROR, "Validation failed for " + field)
  }

  function HandleTauriError(e: ErrorValue): (r: AppError)
    ensures IsUniqueViolation(e) ==> r == AppError(DUPLICATE_ERROR, DUPLICATE_MESSAGE)
    ensures !IsUniqueViolation(e) && IsForeignKeyViolation(e) ==> r == AppError(FOREIGN_KEY_ERROR, FOREIGN_KEY_MESSAGE)
    ensures !IsUniqueViolation(e) && !IsForeignKeyViolation(e) ==> r == HandleApiError(e)
  {
    if IsUniqueViolation(e) then AppError(DUPLICATE_ERROR, DUPLICATE_MESSAGE)
    else if IsForeignKeyViolation(e) then AppError(FOREIGN_KEY_ERROR, FOREIGN_KEY_MESSAGE)
    else HandleApiError(e)
  }

  /** The messageMap of getUserMessage */
  function MappedMessage(error: AppError): (r: Option<string>)
    ensures error.code == VALIDATION_ERROR ==> r == Some(error.message)
    ensures r.Some? && error.code != VALIDATION_ERROR ==> r.value != ""
  {
    if error.code == API_ERROR then Some("An error occurred while communicating with the server")
    else if error.code == VALIDATION_ERROR then Some(error.message)
    else if error.code == DUPLICATE_ERROR then Some("This item already exists")
    else if error.code == FOREIGN_KEY_ERROR then Some("Cannot delete this item as it is being used")
    else if error.code == UNKNOWN_ERROR then Some(UNEXPECTED_MESSAGE)
    else None
  }

  function GetUserMessage(error: AppError): (r: string)
    ensures r != ""
    ensures error.code == VALIDATION_ERROR ==> r == OrElse(error.message, FALLBACK_MESSAGE)
    ensures MappedMessage(error).None? ==> r == OrElse(error.message, FALLBACK_MESSAGE)
    ensures MappedMessage(error).Some? && error.code != VALIDATION_ERROR ==> r == MappedMessage(error).value
  {
    OrElse(MappedMessage(error).GetOr(""), OrElse(error.message, FALLBACK_MESSAGE))
  }

  /** A validation failure reaches the user as its own message. */
  lemma ValidationErrorMessageShown(field: string, errors: seq<string>)
    ensures GetUserMessage(HandleValidationError(field, errors)) == "Validation failed for " + field
  {
  }

  /** Whatever the Tauri error, the user sees one of the fixed texts of the map or a message
      that came with the error. */
  lemma TauriErrorUserMessage(e: ErrorValue)
    ensures var m := GetUserMessage(HandleTauriError(e));
      m in {"An error occurred while communicating with the server", "This item already exists",
            "Cannot delete this item as it is being used", UNEXPECTED_MESSAGE}
      || (HasDataMessage(e) && m == e.data.value.message)
  {
  }
}

module ApiErrorHandler {
  import opened JsText
  import opened ErrorValues
  import ErrorHandling

  function HandleApiError(e: ErrorValue): (r: AppError)
    ensures e.Text? ==> r == AppError(API_ERROR, e.text)
    ensures !e.Text? && MessageOf(e) != "" ==> r == AppError(API_ERROR, MessageOf(e))
    ensures !e.Text? && MessageOf(e) == "" && !HasDataMessage(e) ==> r == AppError(UNKNOWN_ERROR, UNEXPECTED_MESSAGE)
  {
    if e.Text? then AppError(API_ERROR, e.text)
    else if MessageOf(e) != "" then AppError(API_ERROR, MessageOf(e))
    else if HasDataMessage(e) then
      AppError(OrElse(e.data.value.code, API_ERROR), e.data.value.message)
    else AppError(UNKNOWN_ERROR, UNEXPECTED_MESSAGE)
  }

  function HandleTauriError(e: ErrorValue): (r: AppError)
    ensures IsUniqueViolation(e) ==> r.code == DUPLICATE_ERROR
    ensures !IsUniqueViolation(e) && IsForeignKeyViolation(e) ==> r.code == FOREIGN_KEY_ERROR
    ensures r.code in {DUPLICATE_ERROR, FOREIGN_KEY_ERROR, API_ERROR, UNKNOWN_ERROR}
              || (HasDataMessage(e) && MessageOf(e) == "" && r.code == e.data.value.code)
  {
    if IsUniqueViolation(e) then AppError(DUPLICATE_ERROR, DUPLICATE_MESSAGE)
    else if IsForeignKeyViolation(e) then AppError(FOREIGN_KEY_ERROR, FOREIGN_KEY_MESSAGE)
    else HandleApiError(e)
  }

  /** The two copies of the handlers classify every input the same way. */
  lemma HandlersAgree(e: ErrorValue)
    ensures HandleApiError(e) == ErrorHandling.HandleApiError(e)
    ensures HandleTauriError(e) == ErrorHandling.HandleTauriError(e)
  {
  }
}

module GeneralErrorHandler {
  import opened Options
  import opened ErrorValues

  /** The messageMap of getUserMessage */
  function MappedMessage(error: AppError): (r: Option<string>)
    ensures error.code in OWN_MESSAGE_CODES ==> r == Some(error.message)
    ensures r.Some? && error.code !in OWN_MESSAGE_CODES ==> r.value != ""
  {
    match error.code
    case "API_ERROR" => Some("An error occurred while communicating with the server")
    case "VALIDATION_ERROR" => Some(error.message)
    case "DUPLICATE_ERROR" => Some("This item already exists")
    case "FOREIGN_KEY_ERROR" => Some("Cannot delete this item as it is being used")
    case "FILE_READ_ERROR" => Some("Failed to read the file")
    case "FILE_WRITE_ERROR" => Some("Failed to save the file")
    case "FILE_NOT_FOUND_ERROR" => Some("File not found")
    case "EXCEL_PARSE_ERROR" => Some("Failed to process the Excel file")
    case "FILE_PERMISSION_ERROR" => Some("Permission denied for file operation")
    case "FORM_VALIDATION_ERROR" => Some(error.message)
    case "REQUIRED_FIELD_ERROR" => Some(error.message)
    case "INVALID_FORMAT_ERROR" => Some(error.message)
    case "UNKNOWN_ERROR" => Some(UNEXPECTED_MESSAGE)
    case _ => None
  }

  /** The codes whose user message is the error's own message */
  const OWN_MESSAGE_CODES := {"VALIDATION_ERROR", "FORM_VALIDATION_ERROR", "REQUIRED_FIELD_ERROR", "INVALID_FORMAT_ERROR"}

  function GetUserMessage(error: AppError): (r: string)
    ensures r != ""
    ensures error.code in OWN_MESSAGE_CODES ==> r == OrElse(error.message, FALLBACK_MESSAGE)
    ensures MappedMessage(error).None? ==> r == OrElse(error.message, FALLBACK_MESSAGE)
    ensures MappedMessage(error).Some? && error.code !in OWN_MESSAGE_CODES ==> r == MappedMessage(error).value
  {
    OrElse(MappedMessage(error).GetOr(""), OrElse(error.message, FALLBACK_MESSAGE))
  }

  const RECOVERABLE_CODES := ["VALIDATION_ERROR", "FILE_NOT_FOUND_ERROR", "FORM_VALIDATION_ERROR",
                              "REQUIRED_FIELD_ERROR", "INVALID_FORMAT_ERROR"]

  function IsRecoverableError(error: AppError): (r: bool)
    ensures r <==> error.code == "VALIDATION_ERROR" || error.code == "FILE_NOT_FOUND_ERROR"
                   || error.code in OWN_MESSAGE_CODES
  {
    error.code in RECOVERABLE_CODES
  }

  /** `context` is None when it is absent or empty. */
  function HandleUnhandledError(e: ErrorValue, context: Option<string>): (r: AppError)
    ensures r.code == UNHANDLED_ERROR
    ensures context.Some? && context.value != "" ==>
              r.message == "Unhandled error in " + context.value + ": " + OrElse(MessageOf(e), "Unknown error")
    ensures context.None? || context.value == "" ==>
              r.message == "Unhandled error: " + OrElse(MessageOf(e), "Unknown error")
  {
    var where := if context.Some? && context.value != "" then " in " + context.value else "";
    AppError(UNHANDLED_ERROR, "Unhandled error" + where + ": " + OrElse(MessageOf(e), "Unknown error"))
  }

  /** The user message of a recoverable error is either its own message or the file-not-found text. */
  lemma RecoverableMessage(error: AppError)
    requires IsRecoverableError(error)
    ensures GetUserMessage(error) == OrElse(error.message, FALLBACK_MESSAGE)
            || GetUserMessage(error) == "File not found"
  {
  }
}
