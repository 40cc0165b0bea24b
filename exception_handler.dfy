/**
 * `GlobalExceptionHandler`: the table from what a request's handling threw to the HTTP
 * status set on the response and the `ApiError` body written with it.
 */
module ExceptionHandling {
  import opened JavaLang
  import opened ProviderErrors
  import opened WebDto

  /** What can reach the handler, by the handler method Spring picks for it. */
  datatype RaisedException =
    /** A `WeatherProviderException`. */
    | ProviderFailure(error: WeatherProviderException)
    /** Any other runtime exception; `IllegalArgumentException` has its own handler. */
    | Unchecked(exception: Exception)
    /** A bean-validation `ConstraintViolationException`, with its violations' messages in iteration order. */
    | ConstraintViolation(violationMessages: seq<string>)
    /** `MissingServletRequestParameterException` for the named parameter. */
    | MissingParameter(parameterName: string)
    /** `MethodArgumentTypeMismatchException` for the named parameter. */
    | TypeMismatch(name: string)
    /** `RateLimitExceededException`. */
    | RateLimitExceeded

  const BadRequest: int := 400
  const TooManyRequests: int := 429
  const InternalServerError: int := 500
  const BadGateway: int := 502
  const GatewayTimeout: int := 504

  const ValidationErrorMessage: string := "Validation error"
  const RateLimitMessage: string := "Too many requests. Please try again later."
  const UnexpectedErrorMessage: string := "An unexpected error occurred"

  /** `String.format("Parameter '%s' is required", name)`. */
  function RequiredMessage(name: string): string {
    "Parameter '" + name + "' is required"
  }

  /** `String.format("Parameter '%s' must be a valid number", name)`. */
  function ParameterNotANumberMessage(name: string): string {
    "Parameter '" + name + "' must be a valid number"
  }

  /** The handler's decision: status, code and message. */
  datatype Decision = Decision(status: int, code: ErrorCode, message: string)

  function ProviderDecision(e: WeatherProviderException): Decision {
    match e.errorType
    case TIMEOUT => Decision(GatewayTimeout, UPSTREAM_TIMEOUT, e.message)
    case UNAVAILABLE => Decision(BadGateway, UPSTREAM_UNAVAILABLE, e.message)
    case INVALID_RESPONSE => Decision(BadGateway, UPSTREAM_INVALID_RESPONSE, e.message)
    case UPSTREAM_ERROR => Decision(BadGateway, ErrorCode.UPSTREAM_ERROR, e.message)
  }

  /** The seven handler methods, as one table. */
  function Decide(raised: RaisedException): Decision {
    match raised
    case ProviderFailure(e) => ProviderDecision(e)
    case Unchecked(IllegalArgumentException(message)) => Decision(BadRequest, INVALID_COORDINATES, message)
    case Unchecked(_) => Decision(InternalServerError, INTERNAL_ERROR, UnexpectedErrorMessage)
    case ConstraintViolation(messages) =>
      Decision(BadRequest, INVALID_COORDINATES, if messages == [] then ValidationErrorMessage else messages[0])
    case MissingParameter(name) => Decision(BadRequest, INVALID_COORDINATES, RequiredMessage(name))
    case TypeMismatch(name) => Decision(BadRequest, INVALID_COORDINATES, ParameterNotANumberMessage(name))
    case RateLimitExceeded => Decision(TooManyRequests, RATE_LIMIT_EXCEEDED, RateLimitMessage)
  }

  /** The response the handler produces: the status set on it, and its body. */
  datatype HandlerResponse = HandlerResponse(status: int, body: ApiError)

  /** Handling `raised` for the request at `path`, at time `now`. */
  function Handle(raised: RaisedException, path: string, now: Instant): (r: HandlerResponse)
    ensures r.status == r.body.status
    ensures r.body.path == path && r.body.timestamp == now
    ensures CodeOfName(r.body.code) == Some(Decide(raised).code)
    ensures r.status == Decide(raised).status && r.body.message == Decide(raised).message
  {
    var d := Decide(raised);
    HandlerResponse(d.status, ApiErrorOf(d.code, d.message, d.status, path, now))
  }

  /** The status every code is sent with, independently of which handler chose the code. */
  function StatusOfCode(code: ErrorCode): int {
    match code
    case INVALID_COORDINATES => BadRequest
    case RATE_LIMIT_EXCEEDED => TooManyRequests
    case UPSTREAM_TIMEOUT => GatewayTimeout
    case UPSTREAM_UNAVAILABLE => BadGateway
    case UPSTREAM_ERROR => BadGateway
    case UPSTREAM_INVALID_RESPONSE => BadGateway
    case INTERNAL_ERROR => InternalServerError
  }

  /** In every branch the status agrees with the code chosen. */
  lemma StatusFollowsCode(raised: RaisedException)
    ensures Decide(raised).status == StatusOfCode(Decide(raised).code)
  {
  }

  /** The provider kinds: TIMEOUT is a gateway timeout, the other three bad gateways, each
      with its own code, and the provider's message is passed on as it is. */
  lemma ProviderKinds(e: WeatherProviderException)
    ensures var d := Decide(ProviderFailure(e));
      && d.message == e.message
      && (d.status == GatewayTimeout <==> e.errorType == TIMEOUT)
      && (d.status == BadGateway <==> e.errorType != TIMEOUT)
      && (e.errorType == TIMEOUT ==> d.code == UPSTREAM_TIMEOUT)
      && (e.errorType == UNAVAILABLE ==> d.code == UPSTREAM_UNAVAILABLE)
      && (e.errorType == INVALID_RESPONSE ==> d.code == UPSTREAM_INVALID_RESPONSE)
      && (e.errorType == ErrorType.UPSTREAM_ERROR ==> d.code == ErrorCode.UPSTREAM_ERROR)
  {
  }

  /** Different provider kinds never share a code. */
  lemma ProviderCodesDistinct(a: WeatherProviderException, b: WeatherProviderException)
    ensures Decide(ProviderFailure(a)).code == Decide(ProviderFailure(b)).code <==> a.errorType == b.errorType
  {
  }

  /** The request itself was at fault: bad coordinates or parameters, or too many requests. */
  predicate ClientFault(raised: RaisedException) {
    || (raised.Unchecked? && raised.exception.IllegalArgumentException?)
    || raised.ConstraintViolation?
    || raised.MissingParameter?
    || raised.TypeMismatch?
    || raised.RateLimitExceeded?
  }

  /** A 4xx status exactly for client faults, 400 with INVALID_COORDINATES exactly for bad
      input, 5xx otherwise, and 500 exactly for what no specific handler takes. */
  lemma StatusClasses(raised: RaisedException)
    ensures var d := Decide(raised);
      && (400 <= d.status < 500 <==> ClientFault(raised))
      && (d.status == BadRequest <==> ClientFault(raised) && !raised.RateLimitExceeded?)
      && (d.status == BadRequest <==> d.code == INVALID_COORDINATES)
      && (500 <= d.status < 600 <==> !ClientFault(raised))
      && (d.status == InternalServerError <==>
            raised.Unchecked? && !raised.exception.IllegalArgumentException?)
  {
  }

  /** The messages of the input errors: the exception's own, the first violation's (or a
      fixed one when there is none), or one that names the parameter. */
  lemma InputErrorMessages(message: string, violations: seq<string>, name: string)
    ensures Decide(Unchecked(IllegalArgumentException(message))).message == message
    ensures Decide(ConstraintViolation(violations)).message ==
      (if |violations| > 0 then violations[0] else ValidationErrorMessage)
    ensures Decide(MissingParameter(name)).message[11..11 + |name|] == name
    ensures Decide(TypeMismatch(name)).message[11..11 + |name|] == name
  {
    assert RequiredMessage(name)[11..11 + |name|] == name;
    assert ParameterNotANumberMessage(name)[11..11 + |name|] == name;
  }
}
