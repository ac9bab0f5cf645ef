/** `GitHubAPIClient` of scripts/github_api.py: the retry loop of
    `_make_request` and the rate-limit bookkeeping around it.

    The server is a scripted sequence of outcomes, one per request issued.
    Time is an integer count of milliseconds (`clock`); every `time.sleep` is
    recorded as a `Pause` and advances the clock, and a request itself takes
    no time. The jitter `time.time() % 1` becomes `clock % 1000`. */
module GitHubApiClient {
  import opened Wrappers

  const DefaultRemaining: int := 5000
  const LowWaterMark: int := 10
  const MinSpacingMs: int := 100
  const FallbackWaitMs: int := 60000
  const DefaultMaxRetries: int := 3

  /** One HTTP response: its status, whether its text mentions "rate limit"
      (case-insensitively), the two rate-limit headers, and its decoded body. */
  datatype Response<B> = Response(
    status: int,
    mentionsRateLimit: bool,
    remainingHeader: Option<int>,
    resetHeader: Option<int>,
    body: B)

  /** What one `session.get` does: answer, or raise a `RequestException`. */
  datatype Outcome<B> = Reply(response: Response<B>) | NetworkFailure

  datatype ErrorKind =
    | Forbidden        // 403 without a rate-limit message
    | NotFound         // 404
    | ServerError      // 5xx on the last attempt
    | HttpError        // any other non-200 status
    | RequestFailed    // RequestException on the last attempt
    | RetriesExhausted // the loop ran out (last attempt was a rate-limited 403)

  /** `GitHubAPIError`: its kind and `status_code`. */
  datatype ApiError = ApiError(kind: ErrorKind, status: Option<int>)

  /** One `time.sleep`, in milliseconds, by its cause. */
  datatype Pause =
    | RateLimitPause(ms: int)         // _check_rate_limit
    | Spacing(ms: int)                // 100 ms minimum between requests
    | RateLimitWait(ms: int)          // _handle_rate_limit
    | Backoff(attempt: nat, ms: int)  // exponential backoff with jitter

  /** The client's fields and the clock. */
  datatype ClientState = ClientState(remaining: int, reset: Option<int>, lastRequest: int, clock: int)

  function Pow2(n: nat): (p: nat)
    ensures p >= 1
  {
    if n == 0 then 1 else 2 * Pow2(n - 1)
  }

  function Sleep(s: ClientState, ms: int): ClientState {
    s.(clock := s.clock + ms)
  }

  /** `_check_rate_limit`: how long to sleep before a request, if at all. It
      waits only when fewer than 10 requests remain and a non-zero reset time
      lies in the future, and then until one second past that reset time. */
  function RateLimitPauseMs(s: ClientState): (w: Option<int>)
    ensures w.Some? <==>
      s.remaining < LowWaterMark && s.reset.Some? && s.reset.value != 0 && s.reset.value * 1000 > s.clock
    ensures w.Some? ==> w.value > 1000 && s.clock + w.value == s.reset.value * 1000 + 1000
  {
    if s.remaining < LowWaterMark && s.reset.Some? && s.reset.value != 0 then
      var waitMs := s.reset.value * 1000 - s.clock;
      if waitMs > 0 then Some(waitMs + 1000) else None
    else None
  }

  /** The minimum spacing: a request starts at least 100 ms after the previous
      one. */
  function SpacingMs(s: ClientState): (w: Option<int>)
    ensures w.Some? <==> s.clock - s.lastRequest < MinSpacingMs
    ensures w.Some? ==> w.value > 0 && s.clock + w.value == s.lastRequest + MinSpacingMs
  {
    var since := s.clock - s.lastRequest;
    if since < MinSpacingMs then Some(MinSpacingMs - since) else None
  }

  /** `_update_rate_limit_info`: the remaining count is always overwritten
      (5000 when the header is absent); the reset time only when its header is
      present. */
  function UpdateRateLimitInfo<B>(s: ClientState, resp: Response<B>): (t: ClientState)
    ensures t.remaining == resp.remainingHeader.GetOr(DefaultRemaining)
    ensures resp.resetHeader.Some? ==> t.reset == resp.resetHeader
    ensures resp.resetHeader.None? ==> t.reset == s.reset
    ensures t.lastRequest == s.lastRequest && t.clock == s.clock
  {
    var t := s.(remaining := resp.remainingHeader.GetOr(DefaultRemaining));
    if resp.resetHeader.Some? then t.(reset := resp.resetHeader) else t
  }

  /** `_handle_rate_limit`: sleep until one second past the reset header (never
      a negative time), or 60 seconds without it. */
  function RateLimitWaitMs<B>(resp: Response<B>, clock: int): (ms: int)
    ensures ms >= 0
    ensures resp.resetHeader.Some? && clock < resp.resetHeader.value * 1000 + 1000 ==>
      clock + ms == resp.resetHeader.value * 1000 + 1000
    ensures resp.resetHeader.Some? && clock >= resp.resetHeader.value * 1000 + 1000 ==> ms == 0
    ensures resp.resetHeader.None? ==> ms == FallbackWaitMs
  {
    if resp.resetHeader.Some? then
      var waitMs := resp.resetHeader.value * 1000 - clock + 1000;
      if waitMs > 0 then waitMs else 0
    else FallbackWaitMs
  }

  /** `(2 ** attempt) + (time.time() % 1)` seconds. */
  function BackoffMs(attempt: nat, clock: int): (ms: int)
    ensures Pow2(attempt) * 1000 <= ms < Pow2(attempt) * 1000 + 1000
  {
    Pow2(attempt) * 1000 + clock % 1000
  }

  /** An outcome after which the loop goes round again, unless it was the last
      attempt. */
  predicate Retryable<B>(o: Outcome<B>) {
    o.NetworkFailure? ||
    (o.response.status == 403 && o.response.mentionsRateLimit) ||
    o.response.status >= 500
  }

  /** The result of a response that ends the loop at once. */
  function TerminalResult<B>(resp: Response<B>): Result<B, ApiError> {
    if resp.status == 200 then Success(resp.body)
    else if resp.status == 403 then Failure(ApiError(Forbidden, Some(403)))
    else if resp.status == 404 then Failure(ApiError(NotFound, Some(404)))
    else Failure(ApiError(HttpError, Some(resp.status)))
  }

  /** The result when the last attempt also meets a retryable outcome. */
  function LastAttemptResult<B>(o: Outcome<B>): Result<B, ApiError> {
    if o.NetworkFailure? then Failure(ApiError(RequestFailed, None))
    else if o.response.status >= 500 then Failure(ApiError(ServerError, Some(o.response.status)))
    else Failure(ApiError(RetriesExhausted, None))
  }

  datatype Decision<B> = Return(result: Result<B, ApiError>) | Retry
  datatype Step<B> = Step(decision: Decision<B>, state: ClientState, pauses: seq<Pause>)

  /** The two sleeps that precede every request. */
  function BeforeRequest(s: ClientState): (ClientState, seq<Pause>) {
    var (s1, p1) :=
      match RateLimitPauseMs(s)
      case Some(w) => (Sleep(s, w), [RateLimitPause(w)])
      case None => (s, []);
    match SpacingMs(s1)
    case Some(w) => (Sleep(s1, w), p1 + [Spacing(w)])
    case None => (s1, p1)
  }

  /** One iteration of the `for attempt` loop of `_make_request`. */
  function AttemptStep<B>(o: Outcome<B>, attempt: nat, maxRetries: int, s: ClientState): Step<B> {
    var (s2, p2) := BeforeRequest(s);
    match o
    case NetworkFailure =>
      if attempt < maxRetries then
        var b := BackoffMs(attempt, s2.clock);
        Step(Retry, Sleep(s2, b), p2 + [Backoff(attempt, b)])
      else Step(Return(Failure(ApiError(RequestFailed, None))), s2, p2)
    case Reply(resp) =>
      var s3 := UpdateRateLimitInfo(s2.(lastRequest := s2.clock), resp);
      if resp.status == 200 then Step(Return(Success(resp.body)), s3, p2)
      else if resp.status == 403 then
        if resp.mentionsRateLimit then
          var w := RateLimitWaitMs(resp, s3.clock);
          Step(Retry, Sleep(s3, w), p2 + [RateLimitWait(w)])
        else Step(Return(Failure(ApiError(Forbidden, Some(403)))), s3, p2)
      else if resp.status == 404 then Step(Return(Failure(ApiError(NotFound, Some(404)))), s3, p2)
      else if resp.status >= 500 then
        if attempt < maxRetries then
          var b := BackoffMs(attempt, s3.clock);
          Step(Retry, Sleep(s3, b), p2 + [Backoff(attempt, b)])
        else Step(Return(Failure(ApiError(ServerError, Some(resp.status)))), s3, p2)
      else Step(Return(Failure(ApiError(HttpError, Some(resp.status)))), s3, p2)
  }

  /** What a run of `_make_request` produces: its result, the client state
      afterwards, the sleeps taken and the number of requests issued. */
  datatype Run<B> = Run(result: Result<B, ApiError>, state: ClientState, pauses: seq<Pause>, requests: nat)

  function Then<B>(pauses: seq<Pause>, requests: nat, r: Run<B>): Run<B> {
    Run(r.result, r.state, pauses + r.pauses, requests + r.requests)
  }

  /** The attempts from `attempt` on, against the scripted server. */
  function Attempts<B>(server: seq<Outcome<B>>, maxRetries: int, attempt: nat, s: ClientState): Run<B>
    requires maxRetries < |server|
    decreases maxRetries + 1 - attempt
  {
    if attempt > maxRetries then Run(Failure(ApiError(RetriesExhausted, None)), s, [], 0)
    else
      var step := AttemptStep(server[attempt], attempt, maxRetries, s);
      match step.decision
      case Return(r) => Run(r, step.state, step.pauses, 1)
      case Retry => Then(step.pauses, 1, Attempts(server, maxRetries, attempt + 1, step.state))
  }

  /** `Attempts` unrolled once: a returning step ends the run, a retrying
      one prefixes its sleeps and request to the rest. */
  lemma AttemptsUnroll<B>(server: seq<Outcome<B>>, maxRetries: int, attempt: nat, s: ClientState)
    requires maxRetries < |server| && attempt <= maxRetries
    ensures var step := AttemptStep(server[attempt], attempt, maxRetries, s);
      Attempts(server, maxRetries, attempt, s) ==
        if step.decision.Return? then Run(step.decision.result, step.state, step.pauses, 1)
        else Then(step.pauses, 1, Attempts(server, maxRetries, attempt + 1, step.state))
  {
  }

  lemma ThenThen<B>(p: seq<Pause>, n: nat, q: seq<Pause>, m: nat, r: Run<B>)
    ensures Then(p, n, Then(q, m, r)) == Then(p + q, n + m, r)
  {
    assert (p + q) + r.pauses == p + (q + r.pauses);
  }

  /** A run issues one request per attempt and never more than the
      `max_retries + 1` attempts of the loop. */
  lemma {:induction false} AttemptsBounded<B>(server: seq<Outcome<B>>, maxRetries: int, attempt: nat, s: ClientState)
    requires maxRetries < |server|
    ensures var r := Attempts(server, maxRetries, attempt, s);
      (attempt <= maxRetries ==> 1 <= r.requests <= maxRetries + 1 - attempt) &&
      (attempt > maxRetries ==> r.requests == 0 && r.result == Failure(ApiError(RetriesExhausted, None)))
    decreases maxRetries + 1 - attempt
  {
    if attempt <= maxRetries {
      var step := AttemptStep(server[attempt], attempt, maxRetries, s);
      if step.decision.Retry? {
        AttemptsBounded(server, maxRetries, attempt + 1, step.state);
      }
    }
  }

  lemma RetryableStepRetries<B>(o: Outcome<B>, attempt: nat, maxRetries: int, s: ClientState)
    requires Retryable(o) && attempt < maxRetries
    ensures AttemptStep(o, attempt, maxRetries, s).decision == Retry
  {
  }

  /** The first non-retryable outcome decides: a 200 returns its body, a plain
      403, a 404 or any other status below 500 raises at once with that status,
      and exactly as many requests have been issued as attempts were made. */
  lemma {:induction false} FirstTerminalDecides<B>(
    server: seq<Outcome<B>>, maxRetries: int, attempt: nat, k: nat, s: ClientState)
    requires maxRetries < |server|
    requires attempt <= k <= maxRetries
    requires forall j :: attempt <= j < k ==> Retryable(server[j])
    requires !Retryable(server[k])
    ensures Attempts(server, maxRetries, attempt, s).result == TerminalResult(server[k].response)
    ensures Attempts(server, maxRetries, attempt, s).requests == k - attempt + 1
    decreases k - attempt
  {
    var step := AttemptStep(server[attempt], attempt, maxRetries, s);
    if attempt < k {
      RetryableStepRetries(server[attempt], attempt, maxRetries, s);
      FirstTerminalDecides(server, maxRetries, attempt + 1, k, step.state);
    }
  }

  /** When every attempt meets a retryable outcome the last one decides: a 5xx
      raises with its status, a network error without one, and a rate-limited
      403 leaves the loop to the final "failed after retries" error. */
  lemma {:induction false} AllRetryableEnds<B>(server: seq<Outcome<B>>, maxRetries: int, attempt: nat, s: ClientState)
    requires maxRetries < |server|
    requires attempt <= maxRetries
    requires forall j :: attempt <= j <= maxRetries ==> Retryable(server[j])
    ensures Attempts(server, maxRetries, attempt, s).result == LastAttemptResult(server[maxRetries])
    ensures Attempts(server, maxRetries, attempt, s).requests == maxRetries - attempt + 1
    decreases maxRetries - attempt
  {
    var step := AttemptStep(server[attempt], attempt, maxRetries, s);
    if attempt < maxRetries {
      RetryableStepRetries(server[attempt], attempt, maxRetries, s);
      AllRetryableEnds(server, maxRetries, attempt + 1, step.state);
    } else if step.decision.Retry? {
      AttemptsBounded(server, maxRetries, attempt + 1, step.state);
    }
  }

  predicate BackoffsWellFormed(pauses: seq<Pause>, maxRetries: int) {
    forall i :: 0 <= i < |pauses| && pauses[i].Backoff? ==>
      pauses[i].attempt < maxRetries &&
      Pow2(pauses[i].attempt) * 1000 <= pauses[i].ms < Pow2(pauses[i].attempt) * 1000 + 1000
  }

  /** Every backoff sleep follows an attempt that was not the last, and lasts
      `2 ** attempt` seconds plus less than one second of jitter. */
  lemma {:induction false} BackoffsBounded<B>(server: seq<Outcome<B>>, maxRetries: int, attempt: nat, s: ClientState)
    requires maxRetries < |server|
    ensures BackoffsWellFormed(Attempts(server, maxRetries, attempt, s).pauses, maxRetries)
    decreases maxRetries + 1 - attempt
  {
    if attempt <= maxRetries {
      var step := AttemptStep(server[attempt], attempt, maxRetries, s);
      assert BackoffsWellFormed(step.pauses, maxRetries);
      if step.decision.Retry? {
        BackoffsBounded(server, maxRetries, attempt + 1, step.state);
        var rest := Attempts(server, maxRetries, attempt + 1, step.state);
        assert Attempts(server, maxRetries, attempt, s).pauses == step.pauses + rest.pauses;
      }
    }
  }

  /** A request issued while the quota is low and the reset lies ahead goes out
      no earlier than one second past the reset time. */
  lemma LowQuotaRequestWaits<B>(o: Outcome<B>, attempt: nat, maxRetries: int, s: ClientState)
    requires o.Reply?
    requires s.remaining < LowWaterMark && s.reset.Some? && s.reset.value != 0 && s.reset.value * 1000 > s.clock
    ensures AttemptStep(o, attempt, maxRetries, s).state.lastRequest >= s.reset.value * 1000 + 1000
  {
    var (s2, p2) := BeforeRequest(s);
    assert s2.clock >= s.reset.value * 1000 + 1000;
  }

  function CountBackoffs(pauses: seq<Pause>): nat {
    if pauses == [] then 0
    else (if pauses[0].Backoff? then 1 else 0) + CountBackoffs(pauses[1..])
  }

  lemma {:induction false} CountBackoffsAppend(a: seq<Pause>, b: seq<Pause>)
    ensures CountBackoffs(a + b) == CountBackoffs(a) + CountBackoffs(b)
  {
    if a == [] {
      assert a + b == b;
    } else {
      assert (a + b)[1..] == a[1..] + b;
      CountBackoffsAppend(a[1..], b);
    }
  }

  lemma {:induction false} NoBackoffCountsZero(p: seq<Pause>)
    requires forall i :: 0 <= i < |p| ==> !p[i].Backoff?
    ensures CountBackoffs(p) == 0
  {
    if p != [] {
      assert forall i :: 0 <= i < |p| - 1 ==> p[1..][i] == p[i + 1];
      NoBackoffCountsZero(p[1..]);
    }
  }

  lemma BeforeRequestHasNoBackoff(s: ClientState)
    ensures CountBackoffs(BeforeRequest(s).1) == 0
  {
    var p := BeforeRequest(s).1;
    assert forall i :: 0 <= i < |p| ==> !p[i].Backoff?;
    NoBackoffCountsZero(p);
  }

  /** Two server errors and then a 200: the body comes back from the third
      request, after exactly two backoff sleeps. */
  lemma TwoServerErrorsThenSuccess<B>(e1: Response<B>, e2: Response<B>, ok: Response<B>, s: ClientState)
    requires e1.status >= 500 && e2.status >= 500 && ok.status == 200
    ensures var r := Attempts([Reply(e1), Reply(e2), Reply(ok)], 2, 0, s);
      r.result == Success(ok.body) && r.requests == 3 && CountBackoffs(r.pauses) == 2
  {
    var server := [Reply(e1), Reply(e2), Reply(ok)];
    var st0 := AttemptStep(server[0], 0, 2, s);
    var st1 := AttemptStep(server[1], 1, 2, st0.state);
    var st2 := AttemptStep(server[2], 2, 2, st1.state);
    BeforeRequestHasNoBackoff(s);
    BeforeRequestHasNoBackoff(st0.state);
    BeforeRequestHasNoBackoff(st1.state);
    var b0 := BeforeRequest(s).1;
    var b1 := BeforeRequest(st0.state).1;
    assert st0.pauses == b0 + [st0.pauses[|st0.pauses| - 1]];
    assert st1.pauses == b1 + [st1.pauses[|st1.pauses| - 1]];
    CountBackoffsAppend(b0, [st0.pauses[|st0.pauses| - 1]]);
    CountBackoffsAppend(b1, [st1.pauses[|st1.pauses| - 1]]);
    assert CountBackoffs(st2.pauses) == 0;
    CountBackoffsAppend(st1.pauses, st2.pauses);
    CountBackoffsAppend(st0.pauses, st1.pauses + st2.pauses);
  }

  class Client {
    var rateLimitRemaining: int
    var rateLimitReset: Option<int>
    var lastRequestTime: int
    /** `time.time()`, in milliseconds. */
    var clock: int

    function State(): ClientState
      reads this
    {
      ClientState(rateLimitRemaining, rateLimitReset, lastRequestTime, clock)
    }

    constructor (now: int)
      ensures State() == ClientState(DefaultRemaining, None, 0, now)
    {
      rateLimitRemaining := DefaultRemaining;
      rateLimitReset := None;
      lastRequestTime := 0;
      clock := now;
    }

    method SleepFor(ms: int)
      modifies this`clock
      ensures State() == Sleep(old(State()), ms)
    {
      clock := clock + ms;
    }

    /** `_check_rate_limit`. */
    method CheckRateLimit() returns (p: seq<Pause>)
      modifies this`clock
      ensures var w := RateLimitPauseMs(old(State()));
        (w.Some? ==> State() == Sleep(old(State()), w.value) && p == [RateLimitPause(w.value)]) &&
        (w.None? ==> State() == old(State()) && p == [])
    {
      p := [];
      if rateLimitRemaining < LowWaterMark && rateLimitReset.Some? && rateLimitReset.value != 0 {
        var waitMs := rateLimitReset.value * 1000 - clock;
        if waitMs > 0 {
          SleepFor(waitMs + 1000);
          p := [RateLimitPause(waitMs + 1000)];
        }
      }
    }

    /** `_update_rate_limit_info`. */
    method UpdateRateLimit<B>(resp: Response<B>)
      modifies this`rateLimitRemaining, this`rateLimitReset
      ensures State() == UpdateRateLimitInfo(old(State()), resp)
    {
      rateLimitRemaining := resp.remainingHeader.GetOr(DefaultRemaining);
      if resp.resetHeader.Some? {
        rateLimitReset := resp.resetHeader;
      }
    }

    /** `_handle_rate_limit`. */
    method HandleRateLimit<B>(resp: Response<B>) returns (p: seq<Pause>)
      modifies this`clock
      ensures var w := RateLimitWaitMs(resp, old(clock));
        State() == Sleep(old(State()), w) && p == [RateLimitWait(w)]
    {
      var w;
      if resp.resetHeader.Some? {
        var waitMs := resp.resetHeader.value * 1000 - clock + 1000;
        w := if waitMs > 0 then waitMs else 0;
      } else {
        w := FallbackWaitMs;
      }
      SleepFor(w);
      p := [RateLimitWait(w)];
    }

    /** The sleeps before a request: `_check_rate_limit`, then the minimum
        spacing. */
    method PrepareRequest() returns (p: seq<Pause>)
      modifies this`clock
      ensures (State(), p) == BeforeRequest(old(State()))
    {
      p := CheckRateLimit();
      if clock - lastRequestTime < MinSpacingMs {
        var w := MinSpacingMs - (clock - lastRequestTime);
        SleepFor(w);
        p := p + [Spacing(w)];
      }
    }

    /** One pass of the retry loop: issue the request, then return or decide
        to go round again. */
    method TryOnce<B>(o: Outcome<B>, attempt: nat, maxRetries: int) returns (d: Decision<B>, p: seq<Pause>)
      modifies this
      ensures Step(d, State(), p) == AttemptStep(o, attempt, maxRetries, old(State()))
    {
      p := PrepareRequest();
      match o {
        case NetworkFailure =>
          if attempt < maxRetries {
            var b := BackoffMs(attempt, clock);
            SleepFor(b);
            return Retry, p + [Backoff(attempt, b)];
          }
          return Return(Failure(ApiError(RequestFailed, None))), p;
        case Reply(resp) =>
          lastRequestTime := clock;
          UpdateRateLimit(resp);
          if resp.status == 200 {
            d := Return(Success(resp.body));
          } else if resp.status == 403 {
            if resp.mentionsRateLimit {
              var w := HandleRateLimit(resp);
              return Retry, p + w;
            }
            d := Return(Failure(ApiError(Forbidden, Some(403))));
          } else if resp.status == 404 {
            d := Return(Failure(ApiError(NotFound, Some(404))));
          } else if resp.status >= 500 {
            if attempt < maxRetries {
              var b := BackoffMs(attempt, clock);
              SleepFor(b);
              return Retry, p + [Backoff(attempt, b)];
            }
            d := Return(Failure(ApiError(ServerError, Some(resp.status))));
          } else {
            d := Return(Failure(ApiError(HttpError, Some(resp.status))));
          }
      }
    }

    /** `_make_request`: at most `maxRetries + 1` attempts against the scripted
        server, which must hold an outcome for each of them. */
    method MakeRequest<B>(server: seq<Outcome<B>>, maxRetries: int)
      returns (r: Result<B, ApiError>, pauses: seq<Pause>, requests: nat)
      requires maxRetries < |server|
      modifies this
      ensures Run(r, State(), pauses, requests) == Attempts(server, maxRetries, 0, old(State()))
    {
      ghost var s0 := State();
      pauses, requests := [], 0;
      var attempt: nat := 0;
      while attempt <= maxRetries
        invariant attempt == 0 || attempt <= maxRetries + 1
        invariant Attempts(server, maxRetries, 0, s0) == Then(pauses, requests, Attempts(server, maxRetries, attempt, State()))
        decreases maxRetries + 1 - attempt
      {
        ghost var s := State();
        AttemptsUnroll(server, maxRetries, attempt, s);
        var d, p := TryOnce(server[attempt], attempt, maxRetries);
        if d.Retry? {
          ThenThen(pauses, requests, p, 1, Attempts(server, maxRetries, attempt + 1, State()));
        }
        pauses, requests := pauses + p, requests + 1;
        if d.Return? {
          return d.result, pauses, requests;
        }
        attempt := attempt + 1;
      }
      r := Failure(ApiError(RetriesExhausted, None));
    }
  }
}
