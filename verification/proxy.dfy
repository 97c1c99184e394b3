/** The request orchestrator of the schedule proxy, `GET`
    (src/pages/api/schedule.ts:349-430), as a pure function from the request,
    the process state (rate buckets and entity caches), the clock readings
    and the outcome of the single upstream call to the response status, its
    body and the new process state. */
module ScheduleProxy {
  import opened Optional
  import opened JsHost
  import opened Upstream
  import opened ScheduleTypes
  import opened QueryParams
  import opened RateLimit
  import opened Normalize

  datatype Request = Request(query: Query, headers: ClientHeaders)

  /** What became of a 2xx response's body: it decoded and normalized; or
      `response.json()` threw, before any cache was touched; or
      `normalizePayload` threw part-way, after the `forEach` of
      `normalizeIncluded` had absorbed the records `absorbed` (a prefix of
      `included` when one of its records is malformed, all of it when
      `buildSessions` is the one that throws). Which records get absorbed
      depends on the malformed JSON, so it is part of the input. */
  datatype UpstreamBody =
    | Decoded(response: ListResponse)
    | Undecodable
    | ThrewWhileNormalizing(absorbed: seq<Included>)

  /** What the one upstream call produced: a response with its status and
      its body, or a rejected `fetch`. */
  datatype UpstreamOutcome = Responded(status: int, body: UpstreamBody) | Threw

  datatype ResponseBody =
    | ErrorBody(error: string)
    | FallbackBody(error: string)
    | PayloadBody(payload: SchedulePayload)
  {
    /** The body carries `fallback: true`. */
    predicate IsFallback() {
      FallbackBody? || (PayloadBody? && payload.fallback)
    }
  }

  datatype Response = Response(status: int, body: ResponseBody)

  /** The process-wide state a request reads and updates. */
  datatype ProxyState = ProxyState(buckets: RateTable, caches: EntityTables)

  /** The clock readings of one request: the defaulting of the window, the
      rate limiter, and the `generatedAt` stamp. */
  datatype Clock = Clock(atValidation: int, atRateLimit: int, atAssembly: int)

  const RateLimitedMessage := "Too many requests. Please slow down."
  const UpstreamUnavailableMessage := "Mindbody service unavailable. Loading widget fallback."
  const UpstreamFailedMessage := "Mindbody request failed. Loading widget fallback."

  /** `Response.ok`. */
  predicate IsOkStatus(status: int) {
    200 <= status <= 299
  }

  /** The upstream call did not yield a usable body. */
  predicate UpstreamFailed(upstream: UpstreamOutcome) {
    upstream.Threw? || !IsOkStatus(upstream.status) || !upstream.body.Decoded?
  }

  /** A 2xx body whose normalization threw after absorbing some records. */
  predicate PartlyNormalized(upstream: UpstreamOutcome) {
    upstream.Responded? && IsOkStatus(upstream.status) && upstream.body.ThrewWhileNormalizing?
  }

  /** The identity the limiter is consulted for and its decision. */
  function Admit(request: Request, state: ProxyState, clock: Clock): Admission {
    EnforceRateLimit(state.buckets, ExtractClientIp(request.headers), clock.atRateLimit)
  }

  /** What a 2xx response's body comes to: a body that decoded is
      normalized and answers 200 with exactly the payload `normalizePayload`
      builds, keeping the caches it leaves; a body that does not decode
      answers 503 with the caches as they were; a body whose normalization
      threw answers 503 and keeps the cache entries absorbed before the
      throw. */
  function Settle(host: Host, body: UpstreamBody, params: ScheduleQueryParams, caches: EntityTables, clock: Clock)
    : (r: (Response, EntityTables))
    ensures r.0.status == 200 <==> body.Decoded?
    ensures r.0.status == 503 <==> !body.Decoded?
    ensures r.0.body.IsFallback() <==> r.0.status == 503
    ensures !body.Decoded? ==> r.0.body == FallbackBody(UpstreamFailedMessage)
    ensures body.Decoded? ==>
      && r.0.body.PayloadBody?
      && (r.0.body.payload, r.1) == NormalizePayload(host, body.response, params, caches, clock.atAssembly)
    ensures body.ThrewWhileNormalizing? ==> r.1 == NormalizeIncluded(host, Some(body.absorbed), caches).1
    ensures body.Undecodable? ==> r.1 == caches
  {
    match body
    case Undecodable =>
      (Response(503, FallbackBody(UpstreamFailedMessage)), caches)
    case ThrewWhileNormalizing(absorbed) =>
      (Response(503, FallbackBody(UpstreamFailedMessage)), NormalizeIncluded(host, Some(absorbed), caches).1)
    case Decoded(response) =>
      var normalized := NormalizePayload(host, response, params, caches, clock.atAssembly);
      (Response(200, PayloadBody(normalized.0)), normalized.1)
  }

  /** The part of `GET` after the limiter admitted the client: a thrown
      upstream call answers 503 with the request-failed message, a non-OK
      status 503 with the service-unavailable message, both with
      `fallback: true` and the caches as they were; a 2xx response is
      settled by its body. */
  function Forward(host: Host, params: ScheduleQueryParams, caches: EntityTables, clock: Clock,
                   upstream: UpstreamOutcome): (r: (Response, EntityTables))
    ensures r.0.status in {200, 503}
    ensures r.0.status == 503 <==> UpstreamFailed(upstream)
    ensures r.0.body.IsFallback() <==> r.0.status == 503
    ensures upstream.Threw? ==> r == (Response(503, FallbackBody(UpstreamFailedMessage)), caches)
    ensures upstream.Responded? && !IsOkStatus(upstream.status) ==>
      r == (Response(503, FallbackBody(UpstreamUnavailableMessage)), caches)
    ensures upstream.Responded? && IsOkStatus(upstream.status) ==>
      r == Settle(host, upstream.body, params, caches, clock)
  {
    match upstream
    case Threw =>
      (Response(503, FallbackBody(UpstreamFailedMessage)), caches)
    case Responded(status, body) =>
      if !IsOkStatus(status) then
        (Response(503, FallbackBody(UpstreamUnavailableMessage)), caches)
      else
        Settle(host, body, params, caches, clock)
  }

  /** `GET`. The parameters are validated first and a failure answers 400
      without touching the limiter; then the limiter answers 429 for a
      refused client; otherwise the admitted request is forwarded. Only a
      request past validation changes the rate buckets, and only a
      forwarded one the caches. */
  function Get(host: Host, request: Request, state: ProxyState, clock: Clock, upstream: UpstreamOutcome)
    : (r: (Response, ProxyState))
    ensures var (response, state') := r;
      var params := SanitizeParams(host, request.query, clock.atValidation);
      && response.status in {200, 400, 429, 503}
      && (response.body.IsFallback() <==> response.status == 503)
      && (response.status == 400 <==> params.Failure?)
      && (response.status == 429 <==> params.Success? && !Admit(request, state, clock).admitted)
      && (response.status == 503 <==>
            params.Success? && Admit(request, state, clock).admitted && UpstreamFailed(upstream))
      && (params.Failure? ==> state' == state && response.body == ErrorBody(params.error.Message()))
      && (params.Success? ==> state'.buckets == Admit(request, state, clock).table)
      && (response.status == 429 ==> state' == state && response.body == ErrorBody(RateLimitedMessage))
    ensures var (response, state') := r;
      var params := SanitizeParams(host, request.query, clock.atValidation);
      params.Success? && Admit(request, state, clock).admitted ==>
        (response, state'.caches) == Forward(host, params.value, state.caches, clock, upstream)
    ensures var (response, state') := r;
      var params := SanitizeParams(host, request.query, clock.atValidation);
      && (response.status == 200 ==>
            && upstream.Responded? && upstream.body.Decoded? && response.body.PayloadBody?
            && (response.body.payload, state'.caches) ==
                 NormalizePayload(host, upstream.body.response, params.value, state.caches, clock.atAssembly))
      && (response.status == 503 && PartlyNormalized(upstream) ==>
            state'.caches == NormalizeIncluded(host, Some(upstream.body.absorbed), state.caches).1)
      && (response.status != 200 && !PartlyNormalized(upstream) ==> state'.caches == state.caches)
  {
    match SanitizeParams(host, request.query, clock.atValidation)
    case Failure(e) => (Response(400, ErrorBody(e.Message())), state)
    case Success(params) =>
      var admission := Admit(request, state, clock);
      var limited := state.(buckets := admission.table);
      if !admission.admitted then
        (Response(429, ErrorBody(RateLimitedMessage)), limited)
      else
        var (response, caches') := Forward(host, params, state.caches, clock, upstream);
        (response, limited.(caches := caches'))
  }

  /** A 2xx body whose `included` holds a new course and whose `data` then
      fails to normalize answers 503 with `fallback: true`, yet the course is
      cached from then on, so a later request reuses it. */
  lemma CourseCachedDespiteFailure(host: Host, request: Request, state: ProxyState, clock: Clock,
                                   id: string, course: CourseAttributes)
    requires SanitizeParams(host, request.query, clock.atValidation).Success?
    requires Admit(request, state, clock).admitted
    requires id !in state.caches.classes
    ensures var (response, state') := Get(host, request, state, clock,
                                          Responded(200, ThrewWhileNormalizing([Course(id, course)])));
      && response.status == 503 && response.body.IsFallback()
      && id in state'.caches.classes && state'.caches.classes[id] == BuildClass(id, course)
  {
  }
}
