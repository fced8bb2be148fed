/**
 * The application's exception hierarchy and `handle_error`, which turns
 * any exception into the standard error-response record.
 */
module Exceptions {
  import opened Wrappers
  import opened Json

  /** `ChatAppError` itself and its six direct subclasses. */
  datatype ErrorKind =
    | ChatAppErrorBase
    | APIError
    | AuthError
    | RateLimitError
    | ConfigurationError
    | ValidationError
    | SessionError

  /** An instance of `ChatAppError` or of one of its subclasses. */
  datatype ChatAppError = ChatAppError(kind: ErrorKind, message: string, errorCode: Option<string>, details: map<string, Json>)

  /**
   * Any exception the core can raise: an application error, or a built-in
   * one (`KeyError`, `TypeError`, ...) given by its type name and `str()` text.
   */
  datatype Exception =
    | AppError(error: ChatAppError)
    | OtherError(typeName: string, text: string)

  /** `kind(message, error_code, details)`: a falsy `details` (None or empty) becomes `{}`. */
  function NewError(kind: ErrorKind, message: string, errorCode: Option<string>, details: Option<map<string, Json>>): (e: ChatAppError)
    ensures e.kind == kind && e.message == message && e.errorCode == errorCode
    ensures details.Some? ==> e.details == details.value
    ensures details.None? ==> e.details == map[]
  {
    ChatAppError(kind, message, errorCode, if details.Some? && details.value != map[] then details.value else map[])
  }

  /** `raise kind(message)`: the form every caller in the core uses. */
  function Raise(kind: ErrorKind, message: string): Exception {
    AppError(NewError(kind, message, None, None))
  }

  /** The `KeyError` a missing dict key raises; its `str()` is the key's repr. */
  function KeyError(key: string): Exception {
    OtherError("KeyError", StrRepr(key))
  }

  /** Reading a field the `Settings` class does not declare. */
  function MissingSetting(name: string): Exception {
    OtherError("AttributeError", "'Settings' object has no attribute '" + name + "'")
  }

  /** `isinstance(e, ChatAppError)`: true for the base class and every subclass. */
  predicate IsChatAppError(e: Exception) {
    e.AppError?
  }

  /** `str(e)`: a ChatAppError passes its message to `Exception.__init__`. */
  function Str(e: Exception): string {
    match e
    case AppError(err) => err.message
    case OtherError(_, text) => text
  }

  /**
   * How a call ends: it returns a value, raises an exception, or is cut
   * short by Streamlit's rerun signal. That signal is not an `Exception`, so
   * `except Exception` handlers let it pass; whatever the call changed
   * before it stays changed.
   */
  datatype Exit<+T> =
    | Returned(value: T)
    | Raised(exception: Exception)
    | Rerun

  /** The dict `handle_error` returns. */
  datatype ErrorResponse = ErrorResponse(error: bool, message: string, errorCode: Option<string>, details: map<string, Json>)

  /** `handle_error(error)`. */
  function HandleError(e: Exception): (r: ErrorResponse)
    ensures r.error
    ensures r.message == Str(e)
    ensures IsChatAppError(e) ==> r.errorCode == e.error.errorCode && r.details == e.error.details
    ensures !IsChatAppError(e) ==> r.errorCode == Some("UNKNOWN_ERROR") && r.details == map[]
  {
    if e.AppError? then
      ErrorResponse(true, e.error.message, e.error.errorCode, e.error.details)
    else
      ErrorResponse(true, e.text, Some("UNKNOWN_ERROR"), map[])
  }

  /**
   * Every subclass is caught as a ChatAppError: the response of an error
   * raised as `kind(message)` carries that message, no code and `{}` details,
   * whatever the subclass.
   */
  lemma RaisedErrorResponse(kind: ErrorKind, message: string)
    ensures HandleError(Raise(kind, message)) == ErrorResponse(true, message, None, map[])
  {
  }

  /**
   * A response with code "UNKNOWN_ERROR" comes from a built-in exception
   * unless the application error itself was built with that code.
   */
  lemma UnknownCodeMeansForeign(e: Exception)
    requires HandleError(e).errorCode == Some("UNKNOWN_ERROR")
    ensures !IsChatAppError(e) || e.error.errorCode == Some("UNKNOWN_ERROR")
  {
  }
}
