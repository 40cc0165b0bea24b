/**
 * `RateLimitFilter`: every request outside the excluded paths takes one token from the
 * bucket of its client, which is created full the first time the client is seen; a request
 * that finds no token is answered 429 and goes no further.
 */
module RateLimiting {
  import opened JavaLang
  import opened JavaStrings
  import opened TokenBuckets
  import opened WebDto

  const ActuatorPath: string := "/actuator"
  const SwaggerPath: string := "/swagger"
  const ApiDocsPath: string := "/v3/api-docs"

  const TooManyRequestsStatus: int := 429
  const RetryAfterSeconds: string := "60"
  const RateLimitMessage: string := "Too many requests. Please try again later."

  /** The parts of the servlet request the filter reads. */
  datatype Request = Request(uri: string, forwardedFor: Option<string>, remoteAddr: string)

  /** What became of the request. */
  datatype FilterResult =
    /** Passed down the filter chain. */
    | Forwarded
    /** Answered here: the status, the `Retry-After` header and the JSON body. */
    | Rejected(status: int, retryAfter: string, body: ApiError)
    /** An exception left the filter. */
    | Failed(error: Exception)

  /** `isExcludedPath`. */
  predicate IsExcludedPath(path: string) {
    StartsWith(path, ActuatorPath) || StartsWith(path, SwaggerPath) || StartsWith(path, ApiDocsPath)
  }

  /** `getClientIp`: the first comma-separated element of a non-empty X-Forwarded-For, trimmed,
      else the remote address. `split(",")` of a header of commas alone has no element 0, and
      reading it throws. */
  function GetClientIp(request: Request): Result<string, Exception> {
    match request.forwardedFor
    case Some(header) =>
      if header == [] then Ok(request.remoteAddr)
      else
        var parts := SplitOnComma(header);
        if |parts| == 0 then Err(ArrayIndexOutOfBoundsException(0, 0)) else Ok(Trim(parts[0]))
    case None => Ok(request.remoteAddr)
  }

  /** The three cases of the client identity. */
  lemma ClientIpCases(request: Request)
    ensures request.forwardedFor.None? || request.forwardedFor == Some("") ==>
      GetClientIp(request) == Ok(request.remoteAddr)
    ensures request.forwardedFor.Some? && request.forwardedFor.value != "" && !OnlyCommas(request.forwardedFor.value) ==>
      GetClientIp(request) == Ok(Trim(BeforeFirstComma(request.forwardedFor.value)))
    ensures request.forwardedFor.Some? && request.forwardedFor.value != "" && OnlyCommas(request.forwardedFor.value) ==>
      GetClientIp(request) == Err(ArrayIndexOutOfBoundsException(0, 0))
  {
    if request.forwardedFor.Some? && request.forwardedFor.value != "" {
      SplitOnCommaHead(request.forwardedFor.value);
    }
  }

  /** Every bucket is usable and has the configured capacity. */
  predicate BucketsValid(buckets: map<string, TokenBucket>, requestsPerMinute: nat) {
    forall ip :: ip in buckets ==> Valid(buckets[ip]) && buckets[ip].capacity == requestsPerMinute
  }

  /** `buckets.computeIfAbsent(clientIp, this::createBucket)`, as a value. */
  function BucketFor(buckets: map<string, TokenBucket>, requestsPerMinute: nat, ip: string, now: Instant): (b: TokenBucket)
    requires requestsPerMinute > 0 && BucketsValid(buckets, requestsPerMinute)
    ensures Valid(b) && b.capacity == requestsPerMinute
  {
    if ip in buckets then buckets[ip] else NewBucket(requestsPerMinute, now)
  }

  /** `sendRateLimitResponse`. */
  function RateLimitResponse(path: string, now: Instant): FilterResult {
    Rejected(TooManyRequestsStatus, RetryAfterSeconds,
      ApiErrorOf(RATE_LIMIT_EXCEEDED, RateLimitMessage, TooManyRequestsStatus, path, now))
  }

  /** One request through `doFilterInternal`: its fate, and the buckets afterwards. */
  function FilterStep(buckets: map<string, TokenBucket>, requestsPerMinute: nat, request: Request, now: Instant)
    : (r: (FilterResult, map<string, TokenBucket>))
    requires requestsPerMinute > 0 && BucketsValid(buckets, requestsPerMinute)
    ensures BucketsValid(r.1, requestsPerMinute)
  {
    if IsExcludedPath(request.uri) then (Forwarded, buckets)
    else
      match GetClientIp(request)
      case Err(e) => (Failed(e), buckets)
      case Ok(ip) =>
        var c := TryConsume(BucketFor(buckets, requestsPerMinute, ip, now), now);
        (if c.admitted then Forwarded else RateLimitResponse(request.uri, now), buckets[ip := c.bucket])
  }

  /** Excluded paths pass without any bucket being created or touched. */
  lemma ExcludedPathsBypass(buckets: map<string, TokenBucket>, requestsPerMinute: nat, request: Request, now: Instant)
    requires requestsPerMinute > 0 && BucketsValid(buckets, requestsPerMinute)
    requires IsExcludedPath(request.uri)
    ensures FilterStep(buckets, requestsPerMinute, request, now) == (Forwarded, buckets)
  {
  }

  /** "/actuator/health", "/swagger-ui.html" and "/v3/api-docs" are excluded; "/api/v1/weather/current" is not. */
  lemma ExcludedPathExamples()
    ensures IsExcludedPath("/actuator/health")
    ensures IsExcludedPath("/swagger-ui.html")
    ensures IsExcludedPath("/v3/api-docs")
    ensures !IsExcludedPath("/api/v1/weather/current")
  {
    assert "/actuator/health"[..|ActuatorPath|] == ActuatorPath;
    assert "/swagger-ui.html"[..|SwaggerPath|] == SwaggerPath;
    assert "/v3/api-docs"[..|ApiDocsPath|] == ApiDocsPath;
    assert "/api/v1/weather/current"[2] != ActuatorPath[2];
    assert "/api/v1/weather/current"[1] != SwaggerPath[1];
    assert "/api/v1/weather/current"[1] != ApiDocsPath[1];
  }

  /** A rate-limited request is forwarded exactly when its client's bucket, created full if
      the client is new, holds a whole token after refilling; only that client's bucket
      changes, to the bucket `tryConsume` leaves; a rejection carries 429, Retry-After 60 and
      the RATE_LIMIT_EXCEEDED body for the request's path. */
  lemma ForwardedIffToken(buckets: map<string, TokenBucket>, requestsPerMinute: nat, request: Request, now: Instant)
    requires requestsPerMinute > 0 && BucketsValid(buckets, requestsPerMinute)
    requires !IsExcludedPath(request.uri) && GetClientIp(request).Ok?
    ensures var ip := GetClientIp(request).value;
      var b := BucketFor(buckets, requestsPerMinute, ip, now);
      var (r, after) := FilterStep(buckets, requestsPerMinute, request, now);
      && (r.Forwarded? <==> Tokens(Refill(b, now)) >= 1)
      && (!r.Forwarded? ==> r == RateLimitResponse(request.uri, now))
      && after == buckets[ip := TryConsume(b, now).bucket]
  {
  }

  /** The body of a rejection. */
  lemma RejectionBody(path: string, now: Instant)
    ensures var r := RateLimitResponse(path, now);
      && r.status == 429 && r.retryAfter == "60"
      && CodeOfName(r.body.code) == Some(RATE_LIMIT_EXCEEDED)
      && r.body.status == r.status && r.body.path == path && r.body.message == RateLimitMessage
  {
  }

  /** Buckets are per client: whatever happens to one request, every other client's bucket
      is as it was, and when the request fails no bucket changes at all. */
  lemma OtherClientsUnchanged(buckets: map<string, TokenBucket>, requestsPerMinute: nat, request: Request, now: Instant, other: string)
    requires requestsPerMinute > 0 && BucketsValid(buckets, requestsPerMinute)
    requires !(GetClientIp(request).Ok? && GetClientIp(request).value == other)
    ensures var after := FilterStep(buckets, requestsPerMinute, request, now).1;
      && (other in after <==> other in buckets)
      && (other in buckets ==> after[other] == buckets[other])
      && (GetClientIp(request).Err? ==> after == buckets)
  {
  }

  /** The first request of a client never seen before is always forwarded. */
  lemma NewClientAdmitted(buckets: map<string, TokenBucket>, requestsPerMinute: nat, request: Request, now: Instant)
    requires requestsPerMinute > 0 && BucketsValid(buckets, requestsPerMinute)
    requires !IsExcludedPath(request.uri) && GetClientIp(request).Ok? && GetClientIp(request).value !in buckets
    ensures FilterStep(buckets, requestsPerMinute, request, now).0 == Forwarded
  {
  }

  /** `n` identical requests at one instant: how many were forwarded. */
  function Admissions(buckets: map<string, TokenBucket>, requestsPerMinute: nat, request: Request, now: Instant, n: nat): nat
    requires requestsPerMinute > 0 && BucketsValid(buckets, requestsPerMinute)
    decreases n
  {
    if n == 0 then 0
    else
      var (r, after) := FilterStep(buckets, requestsPerMinute, request, now);
      (if r.Forwarded? then 1 else 0) + Admissions(after, requestsPerMinute, request, now, n - 1)
  }

  /** The filter forwards a burst exactly as the client's bucket admits it. */
  lemma {:induction false} AdmissionsFollowBucket(buckets: map<string, TokenBucket>, requestsPerMinute: nat, request: Request, now: Instant, n: nat)
    requires requestsPerMinute > 0 && BucketsValid(buckets, requestsPerMinute)
    requires !IsExcludedPath(request.uri) && GetClientIp(request).Ok?
    ensures Admissions(buckets, requestsPerMinute, request, now, n)
      == Burst(BucketFor(buckets, requestsPerMinute, GetClientIp(request).value, now), n, now).0
    decreases n
  {
    if n > 0 {
      var ip := GetClientIp(request).value;
      var b := BucketFor(buckets, requestsPerMinute, ip, now);
      var after := FilterStep(buckets, requestsPerMinute, request, now).1;
      assert after == buckets[ip := TryConsume(b, now).bucket];
      AdmissionsFollowBucket(after, requestsPerMinute, request, now, n - 1);
    }
  }

  /** A new client sending `n` requests at one instant has `requestsPerMinute` of them
      forwarded, and the rest rejected. */
  lemma NewClientBurst(buckets: map<string, TokenBucket>, requestsPerMinute: nat, request: Request, now: Instant, n: nat)
    requires requestsPerMinute > 0 && BucketsValid(buckets, requestsPerMinute)
    requires !IsExcludedPath(request.uri) && GetClientIp(request).Ok? && GetClientIp(request).value !in buckets
    ensures Admissions(buckets, requestsPerMinute, request, now, n) == Min(n, requestsPerMinute)
  {
    AdmissionsFollowBucket(buckets, requestsPerMinute, request, now, n);
    BurstAtLastRefill(NewBucket(requestsPerMinute, now), n, now);
  }

  /** A client coming back sending `n` requests at one instant has as many of them forwarded as
      its bucket holds whole tokens once refilled for the time since its last refill. */
  lemma ReturningClientBurst(buckets: map<string, TokenBucket>, requestsPerMinute: nat, request: Request, now: Instant, n: nat)
    requires requestsPerMinute > 0 && BucketsValid(buckets, requestsPerMinute)
    requires !IsExcludedPath(request.uri) && GetClientIp(request).Ok? && GetClientIp(request).value in buckets
    ensures Admissions(buckets, requestsPerMinute, request, now, n)
      == Min(n, Tokens(Refill(buckets[GetClientIp(request).value], now)))
  {
    AdmissionsFollowBucket(buckets, requestsPerMinute, request, now, n);
    BurstAdmitsTokens(buckets[GetClientIp(request).value], n, now);
  }

  /** With a limit of 5, a new client is forwarded five times and its sixth request is rejected. */
  lemma LimitOfFive(buckets: map<string, TokenBucket>, request: Request, now: Instant)
    requires BucketsValid(buckets, 5)
    requires !IsExcludedPath(request.uri) && GetClientIp(request).Ok? && GetClientIp(request).value !in buckets
    ensures Admissions(buckets, 5, request, now, 5) == 5
    ensures Admissions(buckets, 5, request, now, 6) == 5
  {
    NewClientBurst(buckets, 5, request, now, 5);
    NewClientBurst(buckets, 5, request, now, 6);
  }

  /** `RateLimitFilter` with its per-client buckets. */
  class RateLimitFilter {
    const requestsPerMinute: nat
    var buckets: map<string, TokenBucket>

    ghost predicate Valid()
      reads this
    {
      requestsPerMinute > 0 && BucketsValid(buckets, requestsPerMinute)
    }

    /** A filter that has seen no client yet. */
    constructor(requestsPerMinute: nat)
      requires requestsPerMinute > 0
      ensures this.requestsPerMinute == requestsPerMinute && buckets == map[]
      ensures Valid()
    {
      this.requestsPerMinute := requestsPerMinute;
      buckets := map[];
    }

    /** `doFilterInternal`: the request's fate and the new buckets are those of FilterStep. */
    method DoFilterInternal(request: Request, now: Instant) returns (r: FilterResult)
      requires Valid()
      modifies this
      ensures Valid()
      ensures (r, buckets) == FilterStep(old(buckets), requestsPerMinute, request, now)
    {
      if IsExcludedPath(request.uri) {
        return Forwarded;
      }
      var ip := GetClientIp(request);
      if ip.Err? {
        return Failed(ip.error);
      }
      var clientIp := ip.value;
      var before := buckets;
      if clientIp !in buckets {
        buckets := buckets[clientIp := NewBucket(requestsPerMinute, now)];
      }
      assert buckets[clientIp] == BucketFor(before, requestsPerMinute, clientIp, now);
      var consumed := TryConsume(buckets[clientIp], now);
      buckets := buckets[clientIp := consumed.bucket];
      assert buckets == before[clientIp := consumed.bucket];
      if consumed.admitted {
        r := Forwarded;
      } else {
        r := RateLimitResponse(request.uri, now);
      }
    }
  }
}
