/**
 * The web layer's records: `ErrorCode`, the `ApiError` body of every failure, and the
 * `WeatherResponse` built from a domain `WeatherData`.
 */
module WebDto {
  import opened JavaLang
  import opened GeoCoordinates
  import opened WeatherModel

  datatype ErrorCode =
    | INVALID_COORDINATES
    | RATE_LIMIT_EXCEEDED
    | UPSTREAM_TIMEOUT
    | UPSTREAM_UNAVAILABLE
    | UPSTREAM_ERROR
    | UPSTREAM_INVALID_RESPONSE
    | INTERNAL_ERROR

  /** `ErrorCode.name()`. */
  function CodeName(code: ErrorCode): string {
    match code
    case INVALID_COORDINATES => "INVALID_COORDINATES"
    case RATE_LIMIT_EXCEEDED => "RATE_LIMIT_EXCEEDED"
    case UPSTREAM_TIMEOUT => "UPSTREAM_TIMEOUT"
    case UPSTREAM_UNAVAILABLE => "UPSTREAM_UNAVAILABLE"
    case UPSTREAM_ERROR => "UPSTREAM_ERROR"
    case UPSTREAM_INVALID_RESPONSE => "UPSTREAM_INVALID_RESPONSE"
    case INTERNAL_ERROR => "INTERNAL_ERROR"
  }

  /** Reads a code back from its name. */
  function CodeOfName(name: string): Option<ErrorCode> {
    if name == "INVALID_COORDINATES" then Some(INVALID_COORDINATES)
    else if name == "RATE_LIMIT_EXCEEDED" then Some(RATE_LIMIT_EXCEEDED)
    else if name == "UPSTREAM_TIMEOUT" then Some(UPSTREAM_TIMEOUT)
    else if name == "UPSTREAM_UNAVAILABLE" then Some(UPSTREAM_UNAVAILABLE)
    else if name == "UPSTREAM_ERROR" then Some(UPSTREAM_ERROR)
    else if name == "UPSTREAM_INVALID_RESPONSE" then Some(UPSTREAM_INVALID_RESPONSE)
    else if name == "INTERNAL_ERROR" then Some(INTERNAL_ERROR)
    else None
  }

  /** The `code` string of a body names exactly one error code. */
  lemma CodeNameRoundTrip(code: ErrorCode)
    ensures CodeOfName(CodeName(code)) == Some(code)
  {
  }

  /** Hence distinct codes have distinct names. */
  lemma CodeNameInjective(a: ErrorCode, b: ErrorCode)
    ensures CodeName(a) == CodeName(b) <==> a == b
  {
    CodeNameRoundTrip(a);
    CodeNameRoundTrip(b);
  }

  /** The JSON body of every error response. */
  datatype ApiError = ApiError(code: string, message: string, status: int, timestamp: Instant, path: string)

  /** `ApiError.of(errorCode, message, status, path)`, with the clock reading passed in. */
  function ApiErrorOf(code: ErrorCode, message: string, status: int, path: string, now: Instant): (e: ApiError)
    ensures CodeOfName(e.code) == Some(code)
    ensures e.message == message && e.status == status && e.path == path && e.timestamp == now
  {
    CodeNameRoundTrip(code);
    ApiError(CodeName(code), message, status, now, path)
  }

  datatype LocationDto = LocationDto(lat: real, lon: real)

  datatype CurrentConditionsDto = CurrentConditionsDto(temperatureC: real, windSpeedKmh: real)

  datatype WeatherResponse = WeatherResponse(
    location: LocationDto,
    current: CurrentConditionsDto,
    source: string,
    retrievedAt: Instant)

  /** The four references `fromDomain` follows must all be non-null. */
  predicate Complete(d: WeatherData) {
    && d.location.Some?
    && d.currentWeather.Some?
    && d.currentWeather.value.temperature.Some?
    && d.currentWeather.value.windSpeed.Some?
  }

  /** `WeatherResponse.fromDomain`: the location is reported normalised, the weather values,
      the source and the time unchanged. */
  function FromDomain(d: WeatherData): (r: WeatherResponse)
    requires Complete(d)
    ensures r.location.lat == NormalizedLatitude(d.location.value)
    ensures r.location.lon == NormalizedLongitude(d.location.value)
    ensures r.current.temperatureC == d.currentWeather.value.temperature.value.celsius
    ensures r.current.windSpeedKmh == d.currentWeather.value.windSpeed.value.kmh
    ensures r.source == d.source && r.retrievedAt == d.retrievedAt
  {
    var c := d.location.value;
    var w := d.currentWeather.value;
    WeatherResponse(
      LocationDto(NormalizedLatitude(c), NormalizedLongitude(c)),
      CurrentConditionsDto(w.temperature.value.celsius, w.windSpeed.value.kmh),
      d.source,
      d.retrievedAt)
  }

  /** The reported location is a valid coordinate whose key is the key of the data's own
      location, so it names the same cache entry; the raw values are not reported. */
  lemma ReportedLocationKeepsKey(d: WeatherData)
    requires Complete(d)
    ensures var r := FromDomain(d);
      && MinLatitude <= r.location.lat <= MaxLatitude
      && MinLongitude <= r.location.lon <= MaxLongitude
      && CacheKey(Coordinates(r.location.lat, r.location.lon)) == CacheKey(d.location.value)
      && IsHundredths(r.location.lat, LatitudeHundredths(d.location.value))
      && IsHundredths(r.location.lon, LongitudeHundredths(d.location.value))
  {
    NormalizationIdempotent(d.location.value);
  }

  /** `v` is the two-decimal value `n / 100`. */
  predicate IsHundredths(v: real, n: int) {
    v * 100.0 == n as real
  }

  /** Equal data give equal responses: the response depends on the location only through its key. */
  lemma FromDomainRespectsEquality(a: WeatherData, b: WeatherData)
    requires Complete(a) && Complete(b) && SameWeatherData(a, b)
    ensures FromDomain(a) == FromDomain(b)
  {
    EqualIffSameNormalized(a.location.value, b.location.value);
  }
}
