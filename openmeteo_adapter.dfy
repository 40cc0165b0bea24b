/**
 * `OpenMeteoWeatherAdapter.fetchWeatherData`: one call to the Open-Meteo client, the
 * mapping of its answer into `WeatherData`, and the classification of every failure on
 * the way into exactly one kind of `WeatherProviderException`.
 *
 * The client call is not made here: its outcome, and the clock reading taken before it,
 * are inputs.
 */
module OpenMeteoAdapter {
  import opened JavaLang
  import opened GeoCoordinates
  import opened WeatherModel
  import opened ProviderErrors

  /** `OpenMeteoResponse.CurrentData`: the two values the proxy asks for. */
  datatype CurrentData = CurrentData(temperature2m: Double, windSpeed10m: Double)

  /** `OpenMeteoResponse` as decoded; `current` is null when the body had no such object. */
  datatype OpenMeteoResponse = OpenMeteoResponse(latitude: Double, longitude: Double, current: Option<CurrentData>)

  /** Something thrown inside the adapter's `try` block. */
  datatype Thrown =
    | Provider(providerError: WeatherProviderException)
    | Runtime(exception: Exception)

  /** What `openMeteoClient.fetchCurrentWeather` did: returned a body (possibly null), or threw. */
  datatype ClientOutcome =
    | Responded(response: Option<OpenMeteoResponse>)
    | ClientThrew(thrown: Thrown)

  const TimeoutMessage: string := "Weather service did not respond in time"
  const UpstreamErrorMessage: string := "Weather service returned an error"
  const UnavailableMessage: string := "Weather service is unavailable"
  const InvalidDataMessage: string := "Weather service returned invalid data"

  /** What a body must hold to be mapped: a `current` object, a finite temperature and a
      finite, non-negative wind speed. */
  predicate Mappable(response: Option<OpenMeteoResponse>) {
    && response.Some?
    && response.value.current.Some?
    && response.value.current.value.temperature2m.Finite?
    && response.value.current.value.windSpeed10m.Finite?
    && 0.0 <= response.value.current.value.windSpeed10m.value
  }

  /** `mapToWeatherData`: a null body or a null `current` is invalid data; otherwise the
      temperature is built first, then the wind speed, and either may throw. */
  function MapToWeatherData(c: Coordinates, response: Option<OpenMeteoResponse>, retrievedAt: Instant)
    : (r: Result<WeatherData, Thrown>)
    ensures r.Ok? <==> Mappable(response)
    ensures r.Ok? ==> r.value == WeatherDataOf(Some(c), Some(CurrentWeather(
      Some(Temperature(response.value.current.value.temperature2m.value)),
      Some(WindSpeed(response.value.current.value.windSpeed10m.value)))), retrievedAt)
    ensures (response.None? || response.value.current.None?) ==> r == Err(Provider(InvalidResponse(InvalidDataMessage)))
  {
    if response.None? || response.value.current.None? then
      Err(Provider(InvalidResponse(InvalidDataMessage)))
    else
      var current := response.value.current.value;
      match OfCelsius(current.temperature2m)
      case Err(e) => Err(Runtime(e))
      case Ok(temperature) =>
        match OfKmh(current.windSpeed10m)
        case Err(e) => Err(Runtime(e))
        case Ok(windSpeed) =>
          Ok(WeatherDataOf(Some(c), Some(CurrentWeather(Some(temperature), Some(windSpeed))), retrievedAt))
  }

  /** The catch clauses, in order: a provider exception is rethrown as it is; an I/O failure is
      a timeout; a 4xx or 5xx answer is an upstream error; anything else makes the service
      unavailable. The original exception becomes the cause. */
  function Classify(t: Thrown): (e: WeatherProviderException)
    ensures t.Provider? ==> e == t.providerError
    ensures t.Runtime? ==> e.cause == Some(t.exception)
  {
    match t
    case Provider(p) => p
    case Runtime(ResourceAccessException(_)) => Timeout(TimeoutMessage, Some(t.exception))
    case Runtime(HttpClientErrorException(_)) => UpstreamError(UpstreamErrorMessage, Some(t.exception))
    case Runtime(HttpServerErrorException(_)) => UpstreamError(UpstreamErrorMessage, Some(t.exception))
    case Runtime(_) => Unavailable(UnavailableMessage, Some(t.exception))
  }

  /** `fetchWeatherData(coordinates)`. */
  function FetchWeatherData(c: Coordinates, outcome: ClientOutcome, retrievedAt: Instant)
    : (r: Result<WeatherData, WeatherProviderException>)
    ensures r.Ok? <==> outcome.Responded? && Mappable(outcome.response)
  {
    var attempt :=
      match outcome
      case Responded(response) => MapToWeatherData(c, response, retrievedAt)
      case ClientThrew(t) => Err(t);
    match attempt
    case Ok(d) => Ok(d)
    case Err(t) => Err(Classify(t))
  }

  /** On success the location is the caller's coordinates, raw values kept, the weather is
      the body's two values unchanged, the source is "open-meteo" and the time is the clock
      reading taken before the call. */
  lemma FetchSuccess(c: Coordinates, response: OpenMeteoResponse, retrievedAt: Instant)
    requires Mappable(Some(response))
    ensures var r := FetchWeatherData(c, Responded(Some(response)), retrievedAt);
      && r.Ok?
      && r.value.location == Some(c)
      && r.value.currentWeather.Some?
      && r.value.currentWeather.value.temperature == Some(Temperature(response.current.value.temperature2m.value))
      && r.value.currentWeather.value.windSpeed == Some(WindSpeed(response.current.value.windSpeed10m.value))
      && r.value.source == DefaultSource
      && r.value.retrievedAt == retrievedAt
  {
  }

  /** A provider exception thrown by the client passes through unchanged. */
  lemma ProviderErrorPassesThrough(c: Coordinates, e: WeatherProviderException, retrievedAt: Instant)
    ensures FetchWeatherData(c, ClientThrew(Provider(e)), retrievedAt) == Err(e)
  {
  }

  /** A failure of the client's own, not a provider exception. */
  predicate ClientFailed(outcome: ClientOutcome) {
    outcome.ClientThrew? && outcome.thrown.Runtime?
  }

  /** A body that reached the mapping but holds a value the domain refuses. */
  predicate RefusedValue(outcome: ClientOutcome) {
    && outcome.Responded?
    && outcome.response.Some?
    && outcome.response.value.current.Some?
    && !Mappable(outcome.response)
  }

  /** A provider exception of kind `k` thrown by the client itself. */
  predicate ClientThrewKind(outcome: ClientOutcome, k: ErrorType) {
    outcome.ClientThrew? && outcome.thrown.Provider? && outcome.thrown.providerError.errorType == k
  }

  /** The classification, both ways, one kind at a time: which outcomes end in which kind,
      with which message. */
  lemma ClassificationTable(c: Coordinates, outcome: ClientOutcome, retrievedAt: Instant)
    ensures var r := FetchWeatherData(c, outcome, retrievedAt);
      && (r.Err? && r.error.errorType == TIMEOUT <==>
            ClientThrewKind(outcome, TIMEOUT) ||
            (ClientFailed(outcome) && outcome.thrown.exception.ResourceAccessException?))
      && (r.Err? && r.error.errorType == UPSTREAM_ERROR <==>
            ClientThrewKind(outcome, UPSTREAM_ERROR) ||
            (ClientFailed(outcome) &&
             (outcome.thrown.exception.HttpClientErrorException? || outcome.thrown.exception.HttpServerErrorException?)))
      && (r.Err? && r.error.errorType == INVALID_RESPONSE <==>
            ClientThrewKind(outcome, INVALID_RESPONSE) ||
            (outcome.Responded? && (outcome.response.None? || outcome.response.value.current.None?)))
      && (r.Err? && r.error.errorType == UNAVAILABLE <==>
            ClientThrewKind(outcome, UNAVAILABLE) ||
            RefusedValue(outcome) ||
            (ClientFailed(outcome) &&
             !outcome.thrown.exception.ResourceAccessException? &&
             !outcome.thrown.exception.HttpClientErrorException? &&
             !outcome.thrown.exception.HttpServerErrorException?))
  {
    if RefusedValue(outcome) {
      var cur := outcome.response.value.current.value;
      assert OfCelsius(cur.temperature2m).Err? || OfKmh(cur.windSpeed10m).Err?;
    }
  }

  /** The messages the adapter writes, when the failure is its own classification. */
  lemma ClassificationMessages(c: Coordinates, outcome: ClientOutcome, retrievedAt: Instant)
    requires !(outcome.ClientThrew? && outcome.thrown.Provider?)
    ensures var r := FetchWeatherData(c, outcome, retrievedAt);
      r.Err? ==>
        && r.error.message == (match r.error.errorType
             case TIMEOUT => TimeoutMessage
             case UPSTREAM_ERROR => UpstreamErrorMessage
             case INVALID_RESPONSE => InvalidDataMessage
             case UNAVAILABLE => UnavailableMessage)
        && (r.error.errorType == INVALID_RESPONSE <==> r.error.cause.None?)
  {
    if RefusedValue(outcome) {
      var cur := outcome.response.value.current.value;
      assert OfCelsius(cur.temperature2m).Err? || OfKmh(cur.windSpeed10m).Err?;
    }
  }

  /** A NaN temperature is refused by `Temperature` first, and that refusal, not the wind's,
      is the cause of the UNAVAILABLE error. */
  lemma TemperatureRefusedFirst(c: Coordinates, lat: Double, lon: Double, wind: Double, retrievedAt: Instant)
    ensures FetchWeatherData(c, Responded(Some(OpenMeteoResponse(lat, lon, Some(CurrentData(NaN, wind))))), retrievedAt)
      == Err(Unavailable(UnavailableMessage, Some(IllegalArgumentException(TemperatureNotANumber))))
  {
  }
}
