# temperature-proxy, modelled in Dafny

temperature-proxy is a small HTTP service. It answers "what is the weather at this latitude and
longitude" by asking the Open-Meteo API. Answers are cached per rounded coordinate pair, and
each client IP is throttled by a token bucket. This project models the core of that service:

- the `Coordinates` value: validation, HALF_UP rounding to two decimals, the cache key, and
  equality and hashing by that key;
- the domain records `Temperature`, `WindSpeed`, `CurrentWeather` and `WeatherData`;
- `WeatherProviderException` and its four kinds;
- `OpenMeteoWeatherAdapter`: how an upstream answer becomes `WeatherData`, and how each thing the
  client can throw is classified;
- `WeatherService.getCurrentWeather` behind its Caffeine cache (expire-after-write, maximum size);
- `RateLimitFilter`: excluded paths, client-IP extraction, one greedy token bucket per client IP,
  and the 429 response;
- `GlobalExceptionHandler` (exception to status, code and body) and `WeatherResponse.fromDomain`.

## How the model is built

- **Doubles.** A Java `double` is `JavaLang.Double`: `NaN`, `PosInf`, `NegInf` or `Finite(value)`.
  The real `value` is the decimal that `Double.toString` prints, which is what `BigDecimal.valueOf`
  rounds. So 52.525 is a tie and rounds up.
- **Rounding.** `RoundHalfUp` gives the rounded count of hundredths, defined by its bounds.
- **Formatting.** `%.2f` of that count is `FormatFixed`, and `ParseFixed` reads it back.
- **Exceptions.** Thrown exceptions are `Result` errors.
- **The cache.** `WeatherService` is a class. Its `entries` field is a map from cache key to entry,
  and a ghost field records every provider call.
- **The filter.** `RateLimitFilter` is a class holding the map of buckets.
- **Token buckets.** A bucket holds tokens in units of 1/60 000 000 000 token, so a greedy refill
  of `n` tokens per minute adds exactly `n` units per elapsed nanosecond.
- **Outside inputs.** The clock, the weather provider and the upstream client's outcome are
  parameters. Instants are integers counting nanoseconds.

## Model

| member | source | states |
|---|---|---|
| GeoCoordinates.Validate | temperature-proxy/src/main/java/com/temperature/proxy/domain/model/Coordinates.java:36-54 | a value is accepted iff it is finite and inside the dimension's closed range; a NaN or infinity is refused with the "must be a valid number" message, an out-of-range finite value with the range message |
| GeoCoordinates.Of | temperature-proxy/src/main/java/com/temperature/proxy/domain/model/Coordinates.java:15-22 | a pair is built iff both values are valid, keeping the raw values; latitude is checked first, so its error wins when both are invalid |
| GeoCoordinates.ErrorNamesDimension | temperature-proxy/src/main/java/com/temperature/proxy/domain/model/Coordinates.java:36-54 | every rejection is an IllegalArgumentException whose message opens with the name of the dimension that failed |
| GeoCoordinates.LatitudeHundredths | temperature-proxy/src/main/java/com/temperature/proxy/domain/model/Coordinates.java:28-30 | the latitude rounded HALF_UP to hundredths stays within -9000..9000 |
| GeoCoordinates.LongitudeHundredths | temperature-proxy/src/main/java/com/temperature/proxy/domain/model/Coordinates.java:32-34 | the longitude rounded HALF_UP to hundredths stays within -18000..18000 |
| GeoCoordinates.NormalizedLatitude | temperature-proxy/src/main/java/com/temperature/proxy/domain/model/Coordinates.java:28-30 | the normalised latitude is a valid latitude within 0.005 of the raw one |
| GeoCoordinates.NormalizedLongitude | temperature-proxy/src/main/java/com/temperature/proxy/domain/model/Coordinates.java:32-34 | the normalised longitude is a valid longitude within 0.005 of the raw one |
| GeoCoordinates.ParseCacheKeyRoundTrip | temperature-proxy/src/main/java/com/temperature/proxy/domain/model/Coordinates.java:24-26 | the cache key can be read back into the two rounded values, so no two different rounded pairs share a key |
| GeoCoordinates.EqualIffSameNormalized | temperature-proxy/src/main/java/com/temperature/proxy/domain/model/Coordinates.java:64-70 | two coordinates are equal iff both rounded values agree, in both directions |
| GeoCoordinates.HashCode | temperature-proxy/src/main/java/com/temperature/proxy/domain/model/Coordinates.java:72-75 | the hash code is a 32-bit int |
| GeoCoordinates.EqualHashCodes | temperature-proxy/src/main/java/com/temperature/proxy/domain/model/Coordinates.java:64-75 | equal coordinates have equal hash codes |
| GeoCoordinates.NormalizationIdempotent | temperature-proxy/src/main/java/com/temperature/proxy/domain/model/Coordinates.java:28-34 | rebuilding a coordinate from its normalised values keeps its rounded values and its key, and the result equals the original |
| GeoCoordinates.RoundingExamples | temperature-proxy/src/main/java/com/temperature/proxy/domain/model/Coordinates.java:60-62 | HALF_UP on decimals: 52.525 gives 52.53, -52.525 gives -52.53, 52.524999 gives 52.52, -13.415 gives -13.42 |
| GeoCoordinates.OriginKey | temperature-proxy/src/main/java/com/temperature/proxy/domain/model/Coordinates.java:24-26 | (0, 0) has the key "0.00:0.00" |
| GeoCoordinates.SouthPoleKey | temperature-proxy/src/main/java/com/temperature/proxy/domain/model/Coordinates.java:24-26 | (-90, 0) has the key "-90.00:0.00" |
| GeoCoordinates.DateLineWestKey | temperature-proxy/src/main/java/com/temperature/proxy/domain/model/Coordinates.java:24-26 | (0, -180) has the key "0.00:-180.00" |
| GeoCoordinates.RoundedCityKey | temperature-proxy/src/main/java/com/temperature/proxy/domain/model/Coordinates.java:24-26 | (52.525, 13.415) has the key "52.53:13.42" |
| DecimalFormat.RoundHalfUp | temperature-proxy/src/main/java/com/temperature/proxy/domain/model/Coordinates.java:60-62 | the result is the nearest integer to the value scaled by 10^scale, with ties going away from zero |
| DecimalFormat.RoundHalfUpUnique | temperature-proxy/src/main/java/com/temperature/proxy/domain/model/Coordinates.java:60-62 | any integer within those bounds is the rounded value, so the bounds define HALF_UP completely |
| DecimalFormat.RoundHalfUpNegate | temperature-proxy/src/main/java/com/temperature/proxy/domain/model/Coordinates.java:60-62 | HALF_UP is symmetric about zero |
| DecimalFormat.RoundHalfUpExact | temperature-proxy/src/main/java/com/temperature/proxy/domain/model/Coordinates.java:60-62 | a value that already has the scale is left as it is |
| DecimalFormat.RoundHalfUpWithin | temperature-proxy/src/main/java/com/temperature/proxy/domain/model/Coordinates.java:60-62 | rounding keeps a value within any integer bounds that hold for it |
| DecimalFormat.NatDigitsValue | temperature-proxy/src/main/java/com/temperature/proxy/domain/model/Coordinates.java:56-58 | the decimal digits of a count read back as that count, with no leading zeros |
| DecimalFormat.FixedDigitsParts | temperature-proxy/src/main/java/com/temperature/proxy/domain/model/Coordinates.java:56-58 | the fixed-point digits of a count have a canonical integer part and exactly scale fraction digits, which together read back as the count |
| DecimalFormat.FormatFixedShape | temperature-proxy/src/main/java/com/temperature/proxy/domain/model/Coordinates.java:56-58 | "%.nf" output is a numeral with at least n+2 characters, and it starts with '-' iff the value is negative |
| DecimalFormat.ParseFormatFixed | temperature-proxy/src/main/java/com/temperature/proxy/domain/model/Coordinates.java:56-58 | parsing the "%.nf" text gives back the value that was formatted |
| DecimalFormat.FormatFixedInjective | temperature-proxy/src/main/java/com/temperature/proxy/domain/model/Coordinates.java:56-58 | two values have the same "%.nf" text iff they are equal |
| JavaLang.WrapInt32 | temperature-proxy/src/main/java/com/temperature/proxy/domain/model/Coordinates.java:72-75 | int arithmetic wraps to a 32-bit value that is congruent modulo 2^32 and unchanged when it already fits |
| JavaStrings.StringHashCode | temperature-proxy/src/main/java/com/temperature/proxy/domain/model/Coordinates.java:72-75 | String.hashCode is a 32-bit int |
| JavaStrings.Trim | temperature-proxy/src/main/java/com/temperature/proxy/infrastructure/adapter/in/web/filter/RateLimitFilter.java:70 | trim removes only characters up to ' ' from both ends, and keeps the middle unchanged |
| JavaStrings.FirstFieldIsBeforeFirstComma | temperature-proxy/src/main/java/com/temperature/proxy/infrastructure/adapter/in/web/filter/RateLimitFilter.java:70 | the first field of a comma split is the text before the first comma |
| JavaStrings.FieldsAllEmptyIffOnlyCommas | temperature-proxy/src/main/java/com/temperature/proxy/infrastructure/adapter/in/web/filter/RateLimitFilter.java:70 | all fields are empty iff the text is only commas |
| JavaStrings.DropTrailingEmptyEmptyIffAllEmpty | temperature-proxy/src/main/java/com/temperature/proxy/infrastructure/adapter/in/web/filter/RateLimitFilter.java:70 | removing trailing empty fields leaves nothing iff every field is empty |
| JavaStrings.SplitOnCommaHead | temperature-proxy/src/main/java/com/temperature/proxy/infrastructure/adapter/in/web/filter/RateLimitFilter.java:70 | split(",") of a non-empty text has no element iff the text is only commas; otherwise its element 0 is the text before the first comma |
| WeatherModel.OfCelsius | temperature-proxy/src/main/java/com/temperature/proxy/domain/model/Temperature.java:5-13 | a temperature exists iff the value is finite, and any finite value is kept unchanged, with no lower bound |
| WeatherModel.OfCelsiusInjective | temperature-proxy/src/main/java/com/temperature/proxy/domain/model/Temperature.java:5-13 | distinct finite inputs give distinct temperatures |
| WeatherModel.OfCelsiusUnbounded | temperature-proxy/src/main/java/com/temperature/proxy/domain/model/Temperature.java:5-13 | -273.15 and 1000 are accepted; NaN and both infinities are refused |
| WeatherModel.OfKmh | temperature-proxy/src/main/java/com/temperature/proxy/domain/model/WindSpeed.java:5-16 | a wind speed exists iff the value is finite and not negative; a non-finite value is refused with the "valid number" message before the sign is checked |
| WeatherModel.OfKmhInjective | temperature-proxy/src/main/java/com/temperature/proxy/domain/model/WindSpeed.java:5-16 | distinct accepted inputs give distinct wind speeds |
| WeatherModel.OfKmhExamples | temperature-proxy/src/main/java/com/temperature/proxy/domain/model/WindSpeed.java:5-16 | -0.1 is refused as negative, -infinity as not a number, and 0 is accepted |
| WeatherModel.WeatherDataOf | temperature-proxy/src/main/java/com/temperature/proxy/domain/model/WeatherData.java:7-15 | the source is always "open-meteo", and the location, the weather and the retrieval time are kept |
| WeatherModel.SameWeatherDataEquivalence | temperature-proxy/src/main/java/com/temperature/proxy/domain/model/WeatherData.java:5 | record equality, with locations compared by key, is reflexive, symmetric and transitive |
| WeatherModel.SameWeatherDataByKey | temperature-proxy/src/main/java/com/temperature/proxy/domain/model/WeatherData.java:5-15 | two built records are equal iff their locations round alike and their weather and retrieval times are equal |
| ProviderErrors.Timeout | temperature-proxy/src/main/java/com/temperature/proxy/domain/exception/WeatherProviderException.java:17-19 | the factory gives kind TIMEOUT and keeps the message and cause |
| ProviderErrors.Unavailable | temperature-proxy/src/main/java/com/temperature/proxy/domain/exception/WeatherProviderException.java:21-23 | the factory gives kind UNAVAILABLE and keeps the message and cause |
| ProviderErrors.InvalidResponse | temperature-proxy/src/main/java/com/temperature/proxy/domain/exception/WeatherProviderException.java:25-27 | the factory gives kind INVALID_RESPONSE, keeps the message, and has no cause |
| ProviderErrors.UpstreamError | temperature-proxy/src/main/java/com/temperature/proxy/domain/exception/WeatherProviderException.java:29-31 | the factory gives kind UPSTREAM_ERROR and keeps the message and cause |
| ProviderErrors.FactoriesRoundTrip | temperature-proxy/src/main/java/com/temperature/proxy/domain/exception/WeatherProviderException.java:7-35 | each factory's exception is rebuilt from its kind, message and cause; an exception comes from a factory iff rebuilding gives it back |
| ProviderErrors.FactoriesDistinct | temperature-proxy/src/main/java/com/temperature/proxy/domain/exception/WeatherProviderException.java:17-31 | exceptions from different factories are never equal |
| OpenMeteoAdapter.MapToWeatherData | temperature-proxy/src/main/java/com/temperature/proxy/infrastructure/adapter/out/openmeteo/OpenMeteoWeatherAdapter.java:59-69 | a mapping succeeds iff the response and its current block exist and both values are accepted, giving the caller's coordinates, both values and the retrieval time; a missing response or current block yields INVALID_RESPONSE "Weather service returned invalid data" |
| OpenMeteoAdapter.Classify | temperature-proxy/src/main/java/com/temperature/proxy/infrastructure/adapter/out/openmeteo/OpenMeteoWeatherAdapter.java:42-56 | a provider exception is passed on unchanged; any other exception becomes the cause of the provider exception it is translated into |
| OpenMeteoAdapter.FetchWeatherData | temperature-proxy/src/main/java/com/temperature/proxy/infrastructure/adapter/out/openmeteo/OpenMeteoWeatherAdapter.java:36-57 | the fetch succeeds iff the client answered and the answer maps |
| OpenMeteoAdapter.FetchSuccess | temperature-proxy/src/main/java/com/temperature/proxy/infrastructure/adapter/out/openmeteo/OpenMeteoWeatherAdapter.java:36-41 | a mappable answer gives the data for the caller's coordinates, the observed values, source "open-meteo" and the time read before the call |
| OpenMeteoAdapter.ProviderErrorPassesThrough | temperature-proxy/src/main/java/com/temperature/proxy/infrastructure/adapter/out/openmeteo/OpenMeteoWeatherAdapter.java:42-43 | a provider exception thrown inside the call is rethrown as it is |
| OpenMeteoAdapter.ClassificationTable | temperature-proxy/src/main/java/com/temperature/proxy/infrastructure/adapter/out/openmeteo/OpenMeteoWeatherAdapter.java:42-56 | each iff: TIMEOUT for a ResourceAccessException, UPSTREAM_ERROR for an HTTP 4xx or 5xx, INVALID_RESPONSE for a missing body or current block, UNAVAILABLE for anything else, including the IllegalArgumentException a refused value throws |
| OpenMeteoAdapter.ClassificationMessages | temperature-proxy/src/main/java/com/temperature/proxy/infrastructure/adapter/out/openmeteo/OpenMeteoWeatherAdapter.java:44-61 | each kind carries its fixed message, and only INVALID_RESPONSE comes without a cause |
| OpenMeteoAdapter.TemperatureRefusedFirst | temperature-proxy/src/main/java/com/temperature/proxy/infrastructure/adapter/out/openmeteo/OpenMeteoWeatherAdapter.java:64-65 | a NaN temperature fails with the temperature's IllegalArgumentException as cause, whatever the wind value |
| WebDto.CodeNameRoundTrip | temperature-proxy/src/main/java/com/temperature/proxy/infrastructure/adapter/in/web/dto/ErrorCode.java:3-11 | the code string of a body names exactly the code it came from |
| WebDto.CodeNameInjective | temperature-proxy/src/main/java/com/temperature/proxy/infrastructure/adapter/in/web/dto/ErrorCode.java:3-11 | two codes have the same name iff they are the same code |
| WebDto.ApiErrorOf | temperature-proxy/src/main/java/com/temperature/proxy/infrastructure/adapter/in/web/dto/ApiError.java:14-16 | the body carries the code's name, the message, the status, the path and the current time |
| WebDto.FromDomain | temperature-proxy/src/main/java/com/temperature/proxy/infrastructure/adapter/in/web/dto/WeatherResponse.java:15-25 | the response reports the normalised location, the temperature and wind speed unchanged, and the source and retrieval time |
| WebDto.ReportedLocationKeepsKey | temperature-proxy/src/main/java/com/temperature/proxy/infrastructure/adapter/in/web/dto/WeatherResponse.java:16-18 | the reported location is a valid coordinate pair of exact hundredths with the same cache key as the data's own location |
| WebDto.FromDomainRespectsEquality | temperature-proxy/src/main/java/com/temperature/proxy/infrastructure/adapter/in/web/dto/WeatherResponse.java:15-25 | equal weather data give equal responses |
| ExceptionHandling.Handle | temperature-proxy/src/main/java/com/temperature/proxy/infrastructure/adapter/in/web/exception/GlobalExceptionHandler.java:21-130 | the status set on the response is the status in the body; the body carries the chosen code and message, the request path and the current time |
| ExceptionHandling.StatusFollowsCode | temperature-proxy/src/main/java/com/temperature/proxy/infrastructure/adapter/in/web/exception/GlobalExceptionHandler.java:21-130 | in every handler the status agrees with the code chosen |
| ExceptionHandling.ProviderKinds | temperature-proxy/src/main/java/com/temperature/proxy/infrastructure/adapter/in/web/exception/GlobalExceptionHandler.java:67-108 | TIMEOUT gives 504 and the other three kinds give 502, each with its own code, and the provider's message is passed on |
| ExceptionHandling.ProviderCodesDistinct | temperature-proxy/src/main/java/com/temperature/proxy/infrastructure/adapter/in/web/exception/GlobalExceptionHandler.java:67-108 | two provider failures get the same code iff they are of the same kind |
| ExceptionHandling.StatusClasses | temperature-proxy/src/main/java/com/temperature/proxy/infrastructure/adapter/in/web/exception/GlobalExceptionHandler.java:21-130 | a 4xx status exactly for client faults; 400 exactly with INVALID_COORDINATES; 5xx otherwise; 500 exactly for what no specific handler takes |
| ExceptionHandling.InputErrorMessages | temperature-proxy/src/main/java/com/temperature/proxy/infrastructure/adapter/in/web/exception/GlobalExceptionHandler.java:21-65 | an IllegalArgumentException's own message is kept; the first violation's message is used, or "Validation error" when there is none; parameter messages contain the parameter's name |
| WeatherCache.LiveExactlyWithinTtl | temperature-proxy/src/main/java/com/temperature/proxy/infrastructure/config/CacheConfig.java:20-21 | an entry answers with its value for exactly ttl after its write, not after |
| WeatherCache.ExpiredStaysExpired | temperature-proxy/src/main/java/com/temperature/proxy/infrastructure/config/CacheConfig.java:20-21 | once an entry has expired it never answers again |
| WeatherCache.SameKeySharesEntry | temperature-proxy/src/main/java/com/temperature/proxy/application/service/WeatherService.java:22 | coordinates with equal keys hit the same entry |
| WeatherCache.LookupAfterStore | temperature-proxy/src/main/java/com/temperature/proxy/application/service/WeatherService.java:22-28 | after a store the key answers with the new value while it lives, and every other key answers as before or not at all |
| WeatherCache.StoreKeepsBound | temperature-proxy/src/main/java/com/temperature/proxy/infrastructure/config/CacheConfig.java:20-21 | a cache within its maximum size stays within it after a store |
| WeatherCache.StoreWithoutEviction | temperature-proxy/src/main/java/com/temperature/proxy/infrastructure/config/CacheConfig.java:20-21 | overwriting a key, or adding one below the maximum, is a valid store that evicts nothing |
| WeatherCache.StoreWithEviction | temperature-proxy/src/main/java/com/temperature/proxy/infrastructure/config/CacheConfig.java:20-21 | adding a new key to a full cache while dropping one other entry is a valid store that evicts exactly one entry |
| WeatherCache.WeatherService.constructor | temperature-proxy/src/main/java/com/temperature/proxy/infrastructure/config/CacheConfig.java:18-25 | a new cache is empty with the configured ttl and maximum size, and no provider call has been made |
| WeatherCache.WeatherService.GetCurrentWeather | temperature-proxy/src/main/java/com/temperature/proxy/application/service/WeatherService.java:21-29 | a live hit returns the cached value with no provider call and no change; a miss calls the provider once with the caller's coordinates and returns its result; a failure stores nothing; a success is stored under the key, evicting at most one other entry and only when full; the size bound is kept |
| WeatherCache.WeatherService.Clear | temperature-proxy/src/test/java/com/temperature/proxy/integration/WeatherServiceCacheIntegrationTest.java:150 | invalidating the "weather" cache empties it and keeps the bound |
| WeatherCache.RepeatedLookup | temperature-proxy/src/main/java/com/temperature/proxy/application/service/WeatherService.java:21-29 | two lookups within ttl for coordinates with one key: a success answers the second without a new provider call; a failure makes the second call the provider again |
| TokenBuckets.NewBucket | temperature-proxy/src/main/java/com/temperature/proxy/infrastructure/adapter/in/web/filter/RateLimitFilter.java:75-82 | a new bucket starts full, with its capacity in tokens |
| TokenBuckets.TokensAtMostCapacity | temperature-proxy/src/main/java/com/temperature/proxy/infrastructure/adapter/in/web/filter/RateLimitFilter.java:77 | a bucket never holds more than its capacity |
| TokenBuckets.Refill | temperature-proxy/src/main/java/com/temperature/proxy/infrastructure/adapter/in/web/filter/RateLimitFilter.java:78 | a refill never removes tokens and never goes past the capacity |
| TokenBuckets.FullAfterAMinute | temperature-proxy/src/main/java/com/temperature/proxy/infrastructure/adapter/in/web/filter/RateLimitFilter.java:78 | a minute after the last refill the bucket is full, whatever it held |
| TokenBuckets.RefillMonotone | temperature-proxy/src/main/java/com/temperature/proxy/infrastructure/adapter/in/web/filter/RateLimitFilter.java:78 | waiting longer never leaves fewer tokens |
| TokenBuckets.RefillComposes | temperature-proxy/src/main/java/com/temperature/proxy/infrastructure/adapter/in/web/filter/RateLimitFilter.java:78 | two refills in a row give what one refill at the later time gives |
| TokenBuckets.TryConsume | temperature-proxy/src/main/java/com/temperature/proxy/infrastructure/adapter/in/web/filter/RateLimitFilter.java:55 | a request is admitted iff a whole token is there after refilling; admitting takes exactly one token and keeps the fractional refill progress, and refusing takes none |
| TokenBuckets.RefillTokens | temperature-proxy/src/main/java/com/temperature/proxy/infrastructure/adapter/in/web/filter/RateLimitFilter.java:76-79 | after an elapsed time the bucket holds the whole tokens of its content plus capacity tokens per minute elapsed, capped at the capacity |
| TokenBuckets.AdmittedIffWholeToken | temperature-proxy/src/main/java/com/temperature/proxy/infrastructure/adapter/in/web/filter/RateLimitFilter.java:52-82 | a request is admitted exactly when the content plus capacity units per elapsed nanosecond make up one whole token |
| TokenBuckets.DrainedBucketRecovers | temperature-proxy/src/main/java/com/temperature/proxy/infrastructure/adapter/in/web/filter/RateLimitFilter.java:76-79 | a drained 100-per-minute bucket admits again 600 ms after its last refill and not a nanosecond earlier |
| TokenBuckets.BurstAtLastRefill | temperature-proxy/src/main/java/com/temperature/proxy/infrastructure/adapter/in/web/filter/RateLimitFilter.java:55 | n requests at the instant of the last refill admit exactly min(n, tokens), and that many tokens are taken |
| TokenBuckets.BurstAdmitsTokens | temperature-proxy/src/main/java/com/temperature/proxy/infrastructure/adapter/in/web/filter/RateLimitFilter.java:55 | n requests at any instant, also after a pause, admit exactly min(n, whole tokens after refilling for the time elapsed), and that many tokens are taken |
| TokenBuckets.FiveThenRejected | temperature-proxy/src/main/java/com/temperature/proxy/infrastructure/adapter/in/web/filter/RateLimitFilter.java:75-82 | a new bucket of 5 admits five requests at once and refuses the sixth |
| RateLimiting.ClientIpCases | temperature-proxy/src/main/java/com/temperature/proxy/infrastructure/adapter/in/web/filter/RateLimitFilter.java:67-73 | with no header or an empty one the remote address is used; otherwise the trimmed text before the first comma is used; a header of only commas makes split(",")[0] throw ArrayIndexOutOfBoundsException |
| RateLimiting.BucketFor | temperature-proxy/src/main/java/com/temperature/proxy/infrastructure/adapter/in/web/filter/RateLimitFilter.java:53 | the bucket used for a client always has the configured capacity |
| RateLimiting.FilterStep | temperature-proxy/src/main/java/com/temperature/proxy/infrastructure/adapter/in/web/filter/RateLimitFilter.java:46-61 | every bucket in the map keeps the configured capacity and stays valid |
| RateLimiting.ExcludedPathsBypass | temperature-proxy/src/main/java/com/temperature/proxy/infrastructure/adapter/in/web/filter/RateLimitFilter.java:46-50 | requests under /actuator, /swagger or /v3/api-docs are forwarded and touch no bucket |
| RateLimiting.ExcludedPathExamples | temperature-proxy/src/main/java/com/temperature/proxy/infrastructure/adapter/in/web/filter/RateLimitFilter.java:63-65 | health, Swagger and api-docs paths are excluded; the weather endpoint is not |
| RateLimiting.ForwardedIffToken | temperature-proxy/src/main/java/com/temperature/proxy/infrastructure/adapter/in/web/filter/RateLimitFilter.java:52-60 | a rate-limited request is forwarded iff its client's bucket yields a token, and only that client's bucket changes |
| RateLimiting.RejectionBody | temperature-proxy/src/main/java/com/temperature/proxy/infrastructure/adapter/in/web/filter/RateLimitFilter.java:84-95 | the rejection is status 429 with Retry-After "60" and a RATE_LIMIT_EXCEEDED body for the request path |
| RateLimiting.OtherClientsUnchanged | temperature-proxy/src/main/java/com/temperature/proxy/infrastructure/adapter/in/web/filter/RateLimitFilter.java:52-60 | a request never changes another client's bucket, and a request whose IP cannot be read changes no bucket |
| RateLimiting.NewClientAdmitted | temperature-proxy/src/main/java/com/temperature/proxy/infrastructure/adapter/in/web/filter/RateLimitFilter.java:53-56 | a client's first rate-limited request is forwarded |
| RateLimiting.AdmissionsFollowBucket | temperature-proxy/src/main/java/com/temperature/proxy/infrastructure/adapter/in/web/filter/RateLimitFilter.java:52-60 | n requests from one client at one instant are admitted exactly as a burst on that client's bucket is |
| RateLimiting.NewClientBurst | temperature-proxy/src/main/java/com/temperature/proxy/infrastructure/adapter/in/web/filter/RateLimitFilter.java:52-82 | a new client sending n requests at once gets min(n, requests per minute) admitted |
| RateLimiting.ReturningClientBurst | temperature-proxy/src/main/java/com/temperature/proxy/infrastructure/adapter/in/web/filter/RateLimitFilter.java:52-60 | a known client sending n requests at once gets min(n, the whole tokens its bucket holds after refilling for the time since its last refill) forwarded |
| RateLimiting.LimitOfFive | temperature-proxy/src/main/java/com/temperature/proxy/infrastructure/adapter/in/web/filter/RateLimitFilter.java:52-82 | with a limit of 5, five requests at once all pass and a sixth is refused |
| RateLimiting.RateLimitFilter.constructor | temperature-proxy/src/main/java/com/temperature/proxy/infrastructure/adapter/in/web/filter/RateLimitFilter.java:36-40 | a new filter has the configured limit and no buckets |
| RateLimiting.RateLimitFilter.DoFilterInternal | temperature-proxy/src/main/java/com/temperature/proxy/infrastructure/adapter/in/web/filter/RateLimitFilter.java:42-61 | the outcome and the new bucket map are exactly one filter step from the old map, so every property proved of the step holds of the filter |

## Left out

- Concurrency. `@Cacheable(sync = true)` single-flight loading, the atomicity of
  `ConcurrentHashMap.computeIfAbsent`, and races between requests are not modelled: every call
  runs alone.
- Caffeine's eviction policy (W-TinyLFU, asynchronous maintenance, and possibly refusing the
  newcomer) is not modelled. The model keeps the new entry and evicts one unspecified other entry
  when the cache is full. Expired entries are only ever answered as misses; cleaning them up is not
  modelled.
- Cache statistics (`recordStats`), Micrometer timers, metrics, logging, the health indicator and
  OpenAPI configuration are left out: they do not change results.
- Bucket4j's internals are not modelled. The bucket is the greedy-refill arithmetic described above.
  Bucket4j's own clock and the request clock are one `now` parameter.
- HTTP, JSON and the network are left out. `OpenMeteoClient`, Jackson serialisation of bodies, and
  `WeatherController` parameter binding are modelled only by their outcomes: the client's outcome,
  `FilterResult`, and the exception kinds given to the handler.
- `OpenMeteoException` and `RateLimitExceededException` are not part of this model except as the
  handler branch that takes the latter.
- IEEE-754 details: `-0.0` is the same as `0.0`, and `Double.compare` in record equality is not
  distinguished. The locale of `String.format` is left out, and `%.6f` in the range message is
  modelled by `SixDecimals`.
- Throwables other than `RuntimeException` inside the adapter (`java.lang.Error`, checked
  exceptions) are not modelled.
- `requestsPerMinute` must be positive (constructor precondition; Bucket4j refuses a zero or
  negative capacity). `ttl` and `maxSize` are natural numbers.
- `null` `source` or `retrievedAt` in `WeatherData` is not modelled. Missing location or weather
  is (`Option`), and `WebDto.FromDomain` requires them, as `fromDomain` would otherwise throw.
- Bean-validation violations are a sequence in iteration order; the set's order is unspecified.
- Buckets are values in the filter's map rather than shared mutable objects.
- The hash code of `WeatherData` and the other records is not modelled; only `Coordinates.hashCode`
  is.
- WeatherCache.WeatherService.GetCurrentWeather: the victim of an eviction is some other entry, chosen freely, and the
  newcomer is always kept. Caffeine chooses its victim by frequency (W-TinyLFU) and may instead refuse the newcomer, so
  the model promises more about keeping the new value than Caffeine does.