/** The error classifier of `src/utils/errorHandler.ts`: a total decision table
    from the shape of a thrown value to a user-facing message and severity. */
module ErrorHandler {
  import opened Wrappers

  /** The HTTP response an API error may carry (`error.response`). */
  datatype HttpResponse = HttpResponse(status: int)

  /** The parts of a thrown value the classifier inspects: whether it carries
      a response, and its `message` property when it has one. */
  datatype ThrownError = ThrownError(response: Option<HttpResponse>, message: Option<string>)

  /** `new Error(m)`: no response, message `m`. */
  function NewError(m: string): ThrownError {
    ThrownError(None, Some(m))
  }

  datatype Severity = Error | Warning

  /** `ErrorResponse`: message, severity (`type`) and an optional display
      duration. */
  datatype ErrorResponse = ErrorResponse(message: string, severity: Severity, duration: Option<int>)

  const CityNotFound := "City not found"
  const ApiKeyInvalid := "API key invalid"
  const SomethingWentWrong := "Something went wrong"
  const CheckConnection := "Please check your internet connection"
  const Unexpected := "An unexpected error occurred"
  const NetworkError := "Network Error"

  /** The network case: no response and the message is exactly
      `'Network Error'`. */
  predicate IsNetworkFailure(e: ThrownError) {
    e.response.None? && e.message == Some(NetworkError)
  }

  /** `handleError`. Every input is classified; only the network case is a
      warning, and no duration is ever attached. */
  function HandleError(e: ThrownError): (r: ErrorResponse)
    ensures r.duration.None?
    ensures r.severity == Warning <==> IsNetworkFailure(e)
    ensures e.response.Some? && e.response.value.status == 404 ==> r.message == CityNotFound
    ensures e.response.Some? && e.response.value.status == 401 ==> r.message == ApiKeyInvalid
    ensures e.response.Some? && e.response.value.status !in {401, 404} ==> r.message == SomethingWentWrong
    ensures IsNetworkFailure(e) ==> r.message == CheckConnection
    ensures e.response.None? && !IsNetworkFailure(e) ==> r.message == Unexpected
  {
    match e.response
    case Some(resp) =>
      if resp.status == 404 then ErrorResponse(CityNotFound, Error, None)
      else if resp.status == 401 then ErrorResponse(ApiKeyInvalid, Error, None)
      else ErrorResponse(SomethingWentWrong, Error, None)
    case None =>
      if e.message == Some(NetworkError) then ErrorResponse(CheckConnection, Warning, None)
      else ErrorResponse(Unexpected, Error, None)
  }

  /** The response branch is decided first: an error carrying a response is
      never reported as a connection problem, whatever its message says. */
  lemma ResponseTakesPrecedence(e: ThrownError)
    requires e.response.Some?
    ensures HandleError(e).severity == Error
    ensures HandleError(e).message in {CityNotFound, ApiKeyInvalid, SomethingWentWrong}
    ensures HandleError(e) == HandleError(e.(message := Some(NetworkError)))
  {
  }

  /** The message alone tells which row of the table fired, so the severity
      is a function of the message. */
  lemma MessageDeterminesSeverity(e1: ThrownError, e2: ThrownError)
    requires HandleError(e1).message == HandleError(e2).message
    ensures HandleError(e1) == HandleError(e2)
  {
  }

  /** An error built with `new Error(m)` has no response, so it is classified
      only by whether `m` is `'Network Error'`. */
  lemma PlainErrorClassification(m: string)
    ensures m == NetworkError ==> HandleError(NewError(m)) == ErrorResponse(CheckConnection, Warning, None)
    ensures m != NetworkError ==> HandleError(NewError(m)) == ErrorResponse(Unexpected, Error, None)
  {
  }
}
