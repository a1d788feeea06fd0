/**
 * The API's error translation: an error code names an HTTP status and a default
 * message; the middleware turns a thrown error into a JSON reply, and
 * `createErrorResponse` builds the same body for handlers that reply directly.
 */
module ErrorHandler {
  import opened Wrappers
  import FetchReportUseCase
  import FetchStatsUseCase
  import UrlValidator

  /** The status and default message registered for one error code. */
  datatype ErrorInfo = ErrorInfo(status: int, message: string)

  /** The JSON body of every error reply. */
  datatype ErrorResponse = ErrorResponse(error: string, code: string)

  /** What the middleware sends: a status and the body. */
  datatype JsonReply = JsonReply(status: int, body: ErrorResponse)

  /** What a handler may throw: an `Error` carrying a message, or any other value. */
  datatype Thrown = ErrorThrown(message: string) | OtherThrown

  const InvalidUrl: string := "INVALID_URL"
  const InvalidHashFormat: string := "INVALID_HASH_FORMAT"
  const NotFound: string := "NOT_FOUND"
  const RateLimitExceeded: string := "RATE_LIMIT_EXCEEDED"
  const ScanTimeout: string := "SCAN_TIMEOUT"
  const InternalError: string := "INTERNAL_ERROR"
  const Unauthorized: string := "UNAUTHORIZED"
  const InvalidFromTimestamp: string := "INVALID_FROM_TIMESTAMP"
  const InvalidToTimestamp: string := "INVALID_TO_TIMESTAMP"
  const InvalidTimeRange: string := "INVALID_TIME_RANGE"
  const TimeRangeTooLarge: string := "TIME_RANGE_TOO_LARGE"

  const InvalidUrlMessage: string := "Invalid URL format or protocol not supported"
  const InvalidHashMessage: string := "Invalid hash format. Expected 32-character hexadecimal string"
  const NotFoundMessage: string := "Report not found or has been deleted"
  const RateLimitMessage: string := "Rate limit exceeded: This domain was scanned in the last minute"
  const ScanTimeoutMessage: string := "Scan timed out after 45 seconds"
  const InternalMessage: string := "An internal error occurred"
  const UnauthorizedMessage: string := "Authentication required to access this resource"
  const InvalidFromMessage: string := "Invalid from timestamp. Must be a positive integer"
  const InvalidToMessage: string := "Invalid to timestamp. Must be a positive integer"
  const InvalidRangeMessage: string := "Invalid time range. From timestamp must be earlier than to timestamp"
  const RangeTooLargeMessage: string := "Time range too large. Maximum range is 1 year"

  /** `ERROR_MAP`: the eleven registered codes. */
  const ErrorMap: map<string, ErrorInfo> := map[
    InvalidUrl := ErrorInfo(400, InvalidUrlMessage),
    InvalidHashFormat := ErrorInfo(400, InvalidHashMessage),
    NotFound := ErrorInfo(404, NotFoundMessage),
    RateLimitExceeded := ErrorInfo(429, RateLimitMessage),
    ScanTimeout := ErrorInfo(504, ScanTimeoutMessage),
    InternalError := ErrorInfo(500, InternalMessage),
    Unauthorized := ErrorInfo(401, UnauthorizedMessage),
    InvalidFromTimestamp := ErrorInfo(400, InvalidFromMessage),
    InvalidToTimestamp := ErrorInfo(400, InvalidToMessage),
    InvalidTimeRange := ErrorInfo(400, InvalidRangeMessage),
    TimeRangeTooLarge := ErrorInfo(400, RangeTooLargeMessage)
  ]

  /** The statuses the middleware may reply with. */
  predicate ReplyStatus(status: int)
  {
    status == 400 || status == 401 || status == 404 || status == 429 || status == 500 || status == 504
  }

  /** `ERROR_MAP[code] || ERROR_MAP.INTERNAL_ERROR`: an unregistered code falls back to the internal error. */
  function InfoFor(code: string): (e: ErrorInfo)
    ensures code in ErrorMap ==> e == ErrorMap[code]
    ensures code !in ErrorMap ==> e == ErrorInfo(500, InternalMessage)
  {
    if code in ErrorMap then ErrorMap[code] else ErrorMap[InternalError]
  }

  /** The code the middleware reports: an `Error`'s message, anything else is an internal error. */
  function ErrorCode(thrown: Thrown): (code: string)
    ensures thrown.ErrorThrown? ==> code == thrown.message
    ensures thrown.OtherThrown? ==> code == InternalError
  {
    match thrown
    case ErrorThrown(message) => message
    case OtherThrown => InternalError
  }

  /**
   * The middleware's reply to a thrown value: the status and message registered
   * for its code, or 500 with the internal-error message; the body always
   * carries the code as thrown, registered or not.
   */
  function Handle(thrown: Thrown): (r: JsonReply)
    ensures r.body.code == ErrorCode(thrown)
    ensures ErrorCode(thrown) in ErrorMap ==> r.status == ErrorMap[ErrorCode(thrown)].status
                                              && r.body.error == ErrorMap[ErrorCode(thrown)].message
    ensures ErrorCode(thrown) !in ErrorMap ==> r.status == 500 && r.body.error == InternalMessage
  {
    var code := ErrorCode(thrown);
    var info := InfoFor(code);
    JsonReply(info.status, ErrorResponse(info.message, code))
  }

  /** `createErrorResponse`: a non-empty custom message replaces the registered one; the code is kept. */
  function CreateErrorResponse(code: string, customMessage: Option<string>): (r: ErrorResponse)
    ensures r.code == code
    ensures customMessage.Some? && customMessage.value != "" ==> r.error == customMessage.value
    ensures (customMessage.None? || customMessage.value == "") ==> r.error == InfoFor(code).message
  {
    var message := if customMessage.Some? && customMessage.value != "" then customMessage.value
                   else InfoFor(code).message;
    ErrorResponse(message, code)
  }

  // ---------------------------------------------------------------- properties

  /** Every registered code names one of the statuses the reply type allows. */
  lemma {:induction false} RegisteredStatuses()
    ensures forall code :: code in ErrorMap ==> ReplyStatus(ErrorMap[code].status)
  {
    forall code | code in ErrorMap
      ensures ReplyStatus(ErrorMap[code].status)
    {
      assert code in {InvalidUrl, InvalidHashFormat, NotFound, RateLimitExceeded, ScanTimeout, InternalError,
                      Unauthorized, InvalidFromTimestamp, InvalidToTimestamp, InvalidTimeRange, TimeRangeTooLarge};
    }
  }

  /** Whatever is thrown, the reply's status is one of the allowed ones. */
  lemma ReplyStatusAllowed(thrown: Thrown)
    ensures ReplyStatus(Handle(thrown).status)
  {
    RegisteredStatuses();
  }

  /** The statuses of the codes the API answers with most often. */
  lemma StatusTable()
    ensures Handle(ErrorThrown(InvalidUrl)).status == 400
    ensures Handle(ErrorThrown(InvalidHashFormat)).status == 400
    ensures Handle(ErrorThrown(NotFound)).status == 404
    ensures Handle(ErrorThrown(Unauthorized)).status == 401
    ensures Handle(ErrorThrown(RateLimitExceeded)).status == 429
    ensures Handle(ErrorThrown(ScanTimeout)).status == 504
    ensures Handle(ErrorThrown(InternalError)).status == 500
  {
  }

  /** A value that is not an `Error` gives a 500 reply under the code `INTERNAL_ERROR`. */
  lemma NonErrorIsInternal()
    ensures Handle(OtherThrown) == JsonReply(500, ErrorResponse(InternalMessage, InternalError))
  {
  }

  /** An unregistered message gives a 500 reply that still names the message as its code. */
  lemma UnknownCodeKept(message: string)
    requires message !in ErrorMap
    ensures Handle(ErrorThrown(message)) == JsonReply(500, ErrorResponse(InternalMessage, message))
  {
  }

  /** Without a custom message the helper builds exactly the middleware's body. */
  lemma HelperAgreesWithMiddleware(code: string)
    ensures CreateErrorResponse(code, None) == Handle(ErrorThrown(code)).body
    ensures CreateErrorResponse(code, Some("")) == Handle(ErrorThrown(code)).body
  {
  }

  /** The codes the use cases throw are registered and are client errors (400). */
  lemma UseCaseCodesAreClientErrors()
    ensures Handle(ErrorThrown(UrlValidator.InvalidUrl)).status == 400
    ensures Handle(ErrorThrown(FetchReportUseCase.InvalidHashFormat)).status == 400
    ensures Handle(ErrorThrown(FetchStatsUseCase.InvalidFromTimestamp)).status == 400
    ensures Handle(ErrorThrown(FetchStatsUseCase.InvalidToTimestamp)).status == 400
    ensures Handle(ErrorThrown(FetchStatsUseCase.InvalidTimeRange)).status == 400
    ensures Handle(ErrorThrown(FetchStatsUseCase.TimeRangeTooLarge)).status == 400
  {
  }
}
