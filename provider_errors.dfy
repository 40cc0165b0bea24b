/**
 * `WeatherProviderException`: the one exception the weather port lets out, with a kind
 * fixed when it is made by one of four static factories.
 */
module ProviderErrors {
  import opened JavaLang

  /** `WeatherProviderException.ErrorType`: exactly four kinds. */
  datatype ErrorType = TIMEOUT | UNAVAILABLE | INVALID_RESPONSE | UPSTREAM_ERROR

  /** The message, the cause (null or a runtime exception) and the kind; all three are final. */
  datatype WeatherProviderException = WeatherProviderException(
    message: string,
    cause: Option<Exception>,
    errorType: ErrorType)

  /** `timeout(message, cause)`. */
  function Timeout(message: string, cause: Option<Exception>): (e: WeatherProviderException)
    ensures e.errorType == TIMEOUT && e.message == message && e.cause == cause
  {
    WeatherProviderException(message, cause, TIMEOUT)
  }

  /** `unavailable(message, cause)`. */
  function Unavailable(message: string, cause: Option<Exception>): (e: WeatherProviderException)
    ensures e.errorType == UNAVAILABLE && e.message == message && e.cause == cause
  {
    WeatherProviderException(message, cause, UNAVAILABLE)
  }

  /** `invalidResponse(message)`: the only factory without a cause. */
  function InvalidResponse(message: string): (e: WeatherProviderException)
    ensures e.errorType == INVALID_RESPONSE && e.message == message && e.cause.None?
  {
    WeatherProviderException(message, None, INVALID_RESPONSE)
  }

  /** `upstreamError(message, cause)`. */
  function UpstreamError(message: string, cause: Option<Exception>): (e: WeatherProviderException)
    ensures e.errorType == UPSTREAM_ERROR && e.message == message && e.cause == cause
  {
    WeatherProviderException(message, cause, UPSTREAM_ERROR)
  }

  /** What the factories can produce: an INVALID_RESPONSE never carries a cause. */
  predicate FromFactory(e: WeatherProviderException) {
    e.errorType == INVALID_RESPONSE ==> e.cause.None?
  }

  /** The factory `getErrorType()` names, applied to the exception's own message and cause. */
  function Rebuild(e: WeatherProviderException): WeatherProviderException {
    match e.errorType
    case TIMEOUT => Timeout(e.message, e.cause)
    case UNAVAILABLE => Unavailable(e.message, e.cause)
    case INVALID_RESPONSE => InvalidResponse(e.message)
    case UPSTREAM_ERROR => UpstreamError(e.message, e.cause)
  }

  /** Every factory yields an exception of its own kind that the factory for that kind
      rebuilds exactly, and conversely every such exception comes from the factory of its kind. */
  lemma FactoriesRoundTrip(message: string, cause: Option<Exception>, e: WeatherProviderException)
    ensures FromFactory(Timeout(message, cause)) && Rebuild(Timeout(message, cause)) == Timeout(message, cause)
    ensures FromFactory(Unavailable(message, cause)) && Rebuild(Unavailable(message, cause)) == Unavailable(message, cause)
    ensures FromFactory(InvalidResponse(message)) && Rebuild(InvalidResponse(message)) == InvalidResponse(message)
    ensures FromFactory(UpstreamError(message, cause)) && Rebuild(UpstreamError(message, cause)) == UpstreamError(message, cause)
    ensures FromFactory(e) <==> Rebuild(e) == e
  {
  }

  /** The four factories never agree: the kind tells them apart, whatever the message and cause. */
  lemma FactoriesDistinct(m1: string, c1: Option<Exception>, m2: string, c2: Option<Exception>)
    ensures Timeout(m1, c1) != Unavailable(m2, c2) && Timeout(m1, c1) != InvalidResponse(m2)
    ensures Timeout(m1, c1) != UpstreamError(m2, c2) && Unavailable(m1, c1) != InvalidResponse(m2)
    ensures Unavailable(m1, c1) != UpstreamError(m2, c2) && InvalidResponse(m1) != UpstreamError(m2, c2)
  {
  }
}
