/** The resilience layer every outbound call goes through (src/integrations/base.py): a circuit
    breaker with a failure counter and an `open_until` instant, a bounded retry loop with
    exponential, capped backoff that consults the breaker before each attempt, and the two small
    pure helpers of the HTTP client (`_build_url`, `_headers`).

    Time is an integer number of ticks read from a clock that the caller passes in; the wrapped
    operation is an oracle that says, attempt by attempt, what the downstream call did and how
    many ticks it took. */
module Resilience {
  import opened Wrappers
  import opened Text
  import opened JsonValue

  /** `ResilienceConfig`, with every duration in ticks. */
  datatype Config = Config(
    maxAttempts: int,
    backoffFactor: int,
    maxBackoff: int,
    failureThreshold: int,
    resetTimeout: int)

  /** `IntegrationError` and its subclass `CircuitOpenError`. */
  datatype IntegrationError = CallFailed | CircuitOpen {
    /** Every value of this type is an `IntegrationError`; `CircuitOpen` is also a `CircuitOpenError`. */
    predicate IsCircuitOpenError() { CircuitOpen? }
  }

  /** `_CircuitBreakerState`: `openUntil == 0` is the closed breaker (Python tests `open_until`
      for truthiness). */
  datatype BreakerState = BreakerState(failures: int, openUntil: int)

  const Closed := BreakerState(0, 0)

  /** The breaker rejects calls while it has an `open_until` instant still in the future. */
  predicate Rejects(s: BreakerState, now: int) {
    s.openUntil != 0 && now < s.openUntil
  }

  /** `allow()`: rejects while open; once the instant has passed it resets the WHOLE state,
      failure counter included. */
  function AllowStep(s: BreakerState, now: int): (r: (bool, BreakerState))
    ensures !r.0 <==> Rejects(s, now)
    ensures !r.0 ==> r.1 == s
    ensures r.0 && s.openUntil != 0 ==> r.1 == Closed
    ensures s.openUntil == 0 ==> r.0 && r.1 == s
  {
    if s.openUntil != 0 && now < s.openUntil then (false, s)
    else if s.openUntil != 0 then (true, Closed)
    else (true, s)
  }

  /** `record_failure()`: one more failure; from the threshold on, every failure (re)opens the
      breaker until `now + reset_timeout`. */
  function FailureStep(cfg: Config, s: BreakerState, now: int): (r: BreakerState)
    ensures r.failures == s.failures + 1
    ensures r.failures >= cfg.failureThreshold ==> r.openUntil == now + cfg.resetTimeout
    ensures r.failures < cfg.failureThreshold ==> r.openUntil == s.openUntil
  {
    var f := s.failures + 1;
    if f >= cfg.failureThreshold then BreakerState(f, now + cfg.resetTimeout) else BreakerState(f, s.openUntil)
  }

  /** `CircuitBreaker`: the two fields of its state object, updated in place. */
  class CircuitBreaker {
    const config: Config
    var failures: int
    var openUntil: int

    function State(): BreakerState
      reads this
    {
      BreakerState(failures, openUntil)
    }

    constructor (config: Config)
      ensures this.config == config && State() == Closed
    {
      this.config := config;
      failures, openUntil := 0, 0;
    }

    /** `allow()`: `Err(CircuitOpen)` is the `CircuitOpenError` it raises. */
    method Allow(now: int) returns (r: Result<(), IntegrationError>)
      modifies this
      ensures r.Ok? == AllowStep(old(State()), now).0
      ensures r.Err? ==> r.error == CircuitOpen
      ensures State() == AllowStep(old(State()), now).1
    {
      if openUntil != 0 && now < openUntil {
        return Err(CircuitOpen);
      }
      if openUntil != 0 && now >= openUntil {
        failures, openUntil := 0, 0;
      }
      return Ok(());
    }

    method RecordSuccess()
      modifies this
      ensures State() == Closed
    {
      failures, openUntil := 0, 0;
    }

    method RecordFailure(now: int)
      modifies this
      ensures State() == FailureStep(config, old(State()), now)
    {
      failures := failures + 1;
      if failures >= config.failureThreshold {
        openUntil := now + config.resetTimeout;
      }
    }
  }

  /** After a cooldown the breaker is closed with a zero counter, so it takes `failureThreshold`
      fresh failures to open it again: fewer leave every later `allow()` passing. */
  lemma {:induction false} ReopenNeedsThresholdFailures(cfg: Config, s: BreakerState, now: int, times: seq<int>, later: int)
    requires s.openUntil != 0 && now >= s.openUntil
    requires |times| < cfg.failureThreshold
    ensures AllowStep(s, now) == (true, Closed)
    ensures var t := Failures(cfg, Closed, times);
      t.failures == |times| && t.openUntil == 0 && !Rejects(t, later)
  {
    FailuresBelowThreshold(cfg, times);
  }

  /** The state after `record_failure()` at each of `times`, in order. */
  function Failures(cfg: Config, s: BreakerState, times: seq<int>): BreakerState
    decreases |times|
  {
    if times == [] then s else Failures(cfg, FailureStep(cfg, s, times[0]), times[1..])
  }

  lemma {:induction false} FailuresBelowThreshold(cfg: Config, times: seq<int>)
    requires |times| < cfg.failureThreshold
    ensures Failures(cfg, Closed, times) == BreakerState(|times|, 0)
  {
    FailuresFrom(cfg, 0, times);
  }

  lemma {:induction false} FailuresFrom(cfg: Config, k: int, times: seq<int>)
    requires 0 <= k && k + |times| < cfg.failureThreshold
    ensures Failures(cfg, BreakerState(k, 0), times) == BreakerState(k + |times|, 0)
    decreases |times|
  {
    if times != [] {
      FailuresFrom(cfg, k + 1, times[1..]);
    }
  }

  /** What one call of the wrapped operation did, and how many ticks it took. */
  datatype Attempt =
    | Returned(value: Json, elapsed: nat)
    | Raised(elapsed: nat)
    | RaisedCircuitOpen(elapsed: nat)

  /** The outcome of `_execute`: its result or the error it raises, how many times it called the
      operation, the delays it slept, and the breaker state and clock afterwards. */
  datatype Run = Run(result: Result<Json, IntegrationError>, calls: nat, sleeps: seq<int>, breaker: BreakerState, now: int)

  /** What the first attempt of a run decides: an open circuit stops it before any call, a
      returned value or a circuit-open error stops it after one call, and so does a failure on the
      last attempt; a failure with attempts to spare sleeps `delay` and goes on from the next
      attempt with the delay doubled up to its cap. */
  lemma FirstAttempt(cfg: Config, b: BreakerState, now: int, attempts: nat, delay: int, outcomes: seq<Attempt>)
    requires attempts < MaxAttempts(cfg) && |outcomes| >= MaxAttempts(cfg) - attempts
    ensures var run, admitted, e := ExecuteFrom(cfg, b, now, attempts, delay, outcomes), AllowStep(b, now).1, outcomes[0].elapsed;
      && (!AllowStep(b, now).0 ==> run == Run(Err(CircuitOpen), 0, [], b, now))
      && (AllowStep(b, now).0 && outcomes[0].Returned? ==> run == Run(Ok(outcomes[0].value), 1, [], Closed, now + e))
      && (AllowStep(b, now).0 && outcomes[0].RaisedCircuitOpen? ==> run == Run(Err(CircuitOpen), 1, [], admitted, now + e))
      && (AllowStep(b, now).0 && outcomes[0].Raised? && attempts + 1 >= MaxAttempts(cfg) ==>
            run == Run(Err(CallFailed), 1, [], FailureStep(cfg, admitted, now + e), now + e))
      && (AllowStep(b, now).0 && outcomes[0].Raised? && attempts + 1 < MaxAttempts(cfg) ==>
            var tail := ExecuteFrom(cfg, FailureStep(cfg, admitted, now + e), now + e + delay, attempts + 1,
                                    Min(delay * 2, BackoffCap(cfg)), outcomes[1..]);
            run == tail.(calls := tail.calls + 1, sleeps := [delay] + tail.sleeps))
  {
  }

  function MaxAttempts(cfg: Config): int {
    if cfg.maxAttempts < 1 then 1 else cfg.maxAttempts
  }

  function BackoffCap(cfg: Config): int {
    if cfg.backoffFactor < cfg.maxBackoff then cfg.maxBackoff else cfg.backoffFactor
  }

  function Min(a: int, b: int): int {
    if a < b then a else b
  }

  /** The loop of `_execute` from its `attempts`-th failure on, with `delay` the next sleep. */
  function ExecuteFrom(cfg: Config, b: BreakerState, now: int, attempts: nat, delay: int, outcomes: seq<Attempt>): (r: Run)
    requires attempts < MaxAttempts(cfg)
    requires |outcomes| >= MaxAttempts(cfg) - attempts
    ensures r.calls <= MaxAttempts(cfg) - attempts
    decreases MaxAttempts(cfg) - attempts
  {
    var (allowed, b1) := AllowStep(b, now);
    if !allowed then Run(Err(CircuitOpen), 0, [], b1, now)
    else match outcomes[0]
      case Returned(v, e) => Run(Ok(v), 1, [], Closed, now + e)
      case RaisedCircuitOpen(e) => Run(Err(CircuitOpen), 1, [], b1, now + e)
      case Raised(e) =>
        var b2 := FailureStep(cfg, b1, now + e);
        if attempts + 1 >= MaxAttempts(cfg) then Run(Err(CallFailed), 1, [], b2, now + e)
        else
          var rest := ExecuteFrom(cfg, b2, now + e + delay, attempts + 1, Min(delay * 2, BackoffCap(cfg)), outcomes[1..]);
          rest.(calls := rest.calls + 1, sleeps := [delay] + rest.sleeps)
  }

  /** `_execute(operation)` from breaker state `b` at instant `now`. */
  function ExecuteRun(cfg: Config, b: BreakerState, now: int, outcomes: seq<Attempt>): Run
    requires |outcomes| >= MaxAttempts(cfg)
  {
    ExecuteFrom(cfg, b, now, 0, cfg.backoffFactor, outcomes)
  }

  /** The retry loop never calls the operation more than `max(1, max_attempts)` times; its result
      is the first value returned, after failures only, and a success leaves the breaker closed. */
  lemma {:induction false} ExecuteBounded(cfg: Config, b: BreakerState, now: int, attempts: nat, delay: int, outcomes: seq<Attempt>)
    requires attempts < MaxAttempts(cfg)
    requires |outcomes| >= MaxAttempts(cfg) - attempts
    ensures var r := ExecuteFrom(cfg, b, now, attempts, delay, outcomes);
      && (forall i :: 0 <= i < r.calls - 1 ==> outcomes[i].Raised?)
      && (r.result.Ok? ==> r.calls >= 1 && outcomes[r.calls - 1] == Returned(r.result.value, outcomes[r.calls - 1].elapsed) && r.breaker == Closed)
      && (r.result == Err(CallFailed) ==> r.calls == MaxAttempts(cfg) - attempts && outcomes[r.calls - 1].Raised?)
    decreases MaxAttempts(cfg) - attempts
  {
    var (allowed, b1) := AllowStep(b, now);
    if allowed && outcomes[0].Raised? && attempts + 1 < MaxAttempts(cfg) {
      var e := outcomes[0].elapsed;
      ExecuteBounded(cfg, FailureStep(cfg, b1, now + e), now + e + delay, attempts + 1, Min(delay * 2, BackoffCap(cfg)), outcomes[1..]);
      assert forall i :: 1 <= i < |outcomes| ==> outcomes[i] == outcomes[1..][i - 1];
    }
  }

  /** The delays: the first is `backoff_factor`, each next one doubles the previous up to the cap
      `max(backoff_factor, max_backoff)`, and none exceeds that cap. A sleep follows a failed
      attempt only when another attempt is allowed by the count: there is one fewer sleep than
      calls, except when the breaker rejected the next attempt. */
  lemma {:induction false} ExecuteBackoff(cfg: Config, b: BreakerState, now: int, attempts: nat, delay: int, outcomes: seq<Attempt>)
    requires attempts < MaxAttempts(cfg)
    requires |outcomes| >= MaxAttempts(cfg) - attempts
    requires 0 <= delay <= BackoffCap(cfg)
    ensures var r := ExecuteFrom(cfg, b, now, attempts, delay, outcomes);
      && (r.sleeps != [] ==> r.sleeps[0] == delay)
      && (forall i :: 0 <= i < |r.sleeps| - 1 ==> r.sleeps[i + 1] == Min(2 * r.sleeps[i], BackoffCap(cfg)))
      && (forall i :: 0 <= i < |r.sleeps| ==> 0 <= r.sleeps[i] <= BackoffCap(cfg))
      && (if r.calls > |r.sleeps| then |r.sleeps| == r.calls - 1 else |r.sleeps| == r.calls && r.result == Err(CircuitOpen))
    decreases MaxAttempts(cfg) - attempts
  {
    var (allowed, b1) := AllowStep(b, now);
    if allowed && outcomes[0].Raised? && attempts + 1 < MaxAttempts(cfg) {
      var e := outcomes[0].elapsed;
      var next := Min(delay * 2, BackoffCap(cfg));
      ExecuteBackoff(cfg, FailureStep(cfg, b1, now + e), now + e + delay, attempts + 1, next, outcomes[1..]);
    }
  }

  /** The breaker is consulted before every attempt: an open breaker at entry means the operation
      is never called, and a `CircuitOpenError` (from the breaker or from the operation) is
      raised at once, without another attempt. */
  lemma {:induction false} ExecuteRespectsBreaker(cfg: Config, b: BreakerState, now: int, attempts: nat, delay: int, outcomes: seq<Attempt>)
    requires attempts < MaxAttempts(cfg)
    requires |outcomes| >= MaxAttempts(cfg) - attempts
    ensures var r := ExecuteFrom(cfg, b, now, attempts, delay, outcomes);
      && (Rejects(b, now) ==> r.calls == 0 && r.result == Err(CircuitOpen) && r.breaker == b)
      && (forall i :: 0 <= i < r.calls - 1 ==> !outcomes[i].RaisedCircuitOpen?)
      && (r.calls >= 1 && outcomes[r.calls - 1].RaisedCircuitOpen? ==> r.result == Err(CircuitOpen))
    decreases MaxAttempts(cfg) - attempts
  {
    var (allowed, b1) := AllowStep(b, now);
    if allowed && outcomes[0].Raised? && attempts + 1 < MaxAttempts(cfg) {
      var e := outcomes[0].elapsed;
      ExecuteRespectsBreaker(cfg, FailureStep(cfg, b1, now + e), now + e + delay, attempts + 1, Min(delay * 2, BackoffCap(cfg)), outcomes[1..]);
      assert forall i :: 1 <= i < |outcomes| ==> outcomes[i] == outcomes[1..][i - 1];
    }
  }

  /** `IntegrationClient`: the retry loop around one breaker. */
  class IntegrationClient {
    const config: Config
    const breaker: CircuitBreaker

    constructor (config: Config)
      ensures this.config == config && fresh(breaker) && breaker.config == config && breaker.State() == Closed
    {
      this.config := config;
      breaker := new CircuitBreaker(config);
    }

    /** `_execute(operation)`: the operation is called at most `max(1, max_attempts)` times,
        the `attempts`-th time is answered by `outcomes[attempts]`; time starts at `now` and
        advances by each call's duration and each sleep. */
    method Execute(now: int, outcomes: seq<Attempt>) returns (result: Result<Json, IntegrationError>, calls: nat, sleeps: seq<int>, clock: int)
      requires breaker.config == config
      requires |outcomes| >= MaxAttempts(config)
      modifies breaker
      ensures var r := ExecuteRun(config, old(breaker.State()), now, outcomes);
        result == r.result && calls == r.calls && sleeps == r.sleeps && clock == r.now && breaker.State() == r.breaker
    {
      var attempts: nat := 0;
      var delay := config.backoffFactor;
      var maxBackoff := if delay < config.maxBackoff then config.maxBackoff else delay;
      ghost var whole := ExecuteRun(config, breaker.State(), now, outcomes);
      assert maxBackoff == BackoffCap(config);
      clock := now;
      calls, sleeps := 0, [];
      while true
        invariant attempts == calls < MaxAttempts(config)
        invariant calls == |sleeps|
        invariant var rest := ExecuteFrom(config, breaker.State(), clock, attempts, delay, outcomes[attempts..]);
          whole == rest.(calls := rest.calls + calls, sleeps := sleeps + rest.sleeps)
        decreases MaxAttempts(config) - attempts
      {
        var answer, called;
        answer, called, clock := Attempt(clock, attempts, delay, outcomes[attempts..]);
        calls := calls + called;
        if answer.Some? {
          assert sleeps + [] == sleeps;
          return answer.value, calls, sleeps, clock;
        }
        attempts := attempts + 1;
        assert outcomes[attempts - 1..][1..] == outcomes[attempts..];
        ghost var tail := ExecuteFrom(config, breaker.State(), clock + delay, attempts, Min(delay * 2, BackoffCap(config)), outcomes[attempts..]);
        assert (sleeps + [delay]) + tail.sleeps == sleeps + ([delay] + tail.sleeps);
        sleeps := sleeps + [delay];
        clock := clock + delay;
        delay := Min(delay * 2, maxBackoff);
      }
    }

    /** One pass of the loop body up to the sleep: the breaker is asked, the operation called
        once and its outcome recorded. The answer is the value or error `_execute` ends with, or
        `None` when it goes on to sleep and retry. */
    method Attempt(now: int, attempts: nat, delay: int, outcomes: seq<Attempt>) returns (answer: Option<Result<Json, IntegrationError>>, called: nat, clock: int)
      requires breaker.config == config
      requires attempts < MaxAttempts(config) && |outcomes| >= MaxAttempts(config) - attempts
      modifies breaker
      ensures called <= 1 && (answer.None? ==> called == 1 && attempts + 1 < MaxAttempts(config))
      ensures answer.Some? ==>
        ExecuteFrom(config, old(breaker.State()), now, attempts, delay, outcomes) == Run(answer.value, called, [], breaker.State(), clock)
      ensures answer.None? ==>
        var tail := ExecuteFrom(config, breaker.State(), clock + delay, attempts + 1, Min(delay * 2, BackoffCap(config)), outcomes[1..]);
        ExecuteFrom(config, old(breaker.State()), now, attempts, delay, outcomes) == tail.(calls := tail.calls + 1, sleeps := [delay] + tail.sleeps)
    {
      FirstAttempt(config, breaker.State(), now, attempts, delay, outcomes);
      var maxAttempts := if config.maxAttempts < 1 then 1 else config.maxAttempts;
      var allowed := breaker.Allow(now);
      if allowed.Err? {
        return Some(Err(allowed.error)), 0, now;
      }
      var outcome := outcomes[0];
      clock := now + outcome.elapsed;
      match outcome {
        case RaisedCircuitOpen(_) =>
          return Some(Err(CircuitOpen)), 1, clock;
        case Returned(v, _) =>
          breaker.RecordSuccess();
          return Some(Ok(v)), 1, clock;
        case Raised(_) =>
          breaker.RecordFailure(clock);
          if attempts + 1 >= maxAttempts {
            return Some(Err(CallFailed)), 1, clock;
          }
          return None, 1, clock;
      }
    }
  }

  predicate IsAbsolute(path: string) {
    StartsWith(path, "http://") || StartsWith(path, "https://")
  }

  predicate AllChar(s: string, c: char) {
    forall k :: 0 <= k < |s| ==> s[k] == c
  }

  /** `r` is the first `i` characters of `base` and the characters of `path` from `j` on, with one
      slash between: what is cut off on either side is slashes only, and no slash is left next to
      the joining one. */
  predicate SlashJoin(base: string, path: string, r: string, i: int, j: int) {
    && 0 <= i <= |base| && 0 <= j <= |path|
    && r == base[..i] + "/" + path[j..]
    && AllChar(base[i..], '/') && AllChar(path[..j], '/')
    && (i == 0 || base[i - 1] != '/') && (j == |path| || path[j] != '/')
  }

  /** `HttpClient._build_url`: an absolute `http://` or `https://` path is kept; otherwise the base
      without its trailing slashes and the path without its leading slashes are joined by
      exactly one slash. */
  function BuildUrl(baseUrl: string, path: string): string {
    if IsAbsolute(path) then path
    else RStripChar(baseUrl, '/') + "/" + LStripChar(path, '/')
  }

  /** An absolute path is the URL itself; any other URL is the base and the path joined by one
      slash, only slashes cut off either side. */
  lemma BuildUrlJoins(baseUrl: string, path: string)
    ensures IsAbsolute(path) ==> BuildUrl(baseUrl, path) == path
    ensures !IsAbsolute(path) ==> exists i, j :: SlashJoin(baseUrl, path, BuildUrl(baseUrl, path), i, j)
  {
    if !IsAbsolute(path) {
      var b := RStripChar(baseUrl, '/');
      var p := LStripChar(path, '/');
      assert SlashJoin(baseUrl, path, BuildUrl(baseUrl, path), |b|, |path| - |p|);
    }
  }

  lemma SlashLedNotAbsolute(path: string)
    requires path != [] && path[0] == '/'
    ensures !IsAbsolute(path)
  {
    assert |path| < 7 || path[..7][0] == '/';
    assert |path| < 8 || path[..8][0] == '/';
  }

  /** A trailing slash on the base and a leading slash on a relative path change nothing. */
  lemma BuildUrlIgnoresExtraSlashes(baseUrl: string, path: string)
    requires !IsAbsolute(path)
    ensures BuildUrl(baseUrl + "/", "/" + path) == BuildUrl(baseUrl, path)
  {
    var slashed := "/" + path;
    SlashLedNotAbsolute(slashed);
    assert LStripChar(slashed, '/') == LStripChar(path, '/') by {
      assert slashed[1..] == path;
    }
    assert RStripChar(baseUrl + "/", '/') == RStripChar(baseUrl, '/') by {
      assert (baseUrl + "/")[..|baseUrl|] == baseUrl;
    }
  }

  /** `HttpClient._headers(extra)`: a JSON content type, a bearer token when a secret is
      configured, and the caller's extra headers on top of both. */
  function Headers(secret: Option<string>, extra: map<string, string>): (r: map<string, string>)
    ensures "Content-Type" in r
    ensures "Content-Type" !in extra ==> r["Content-Type"] == "application/json"
    ensures "Authorization" in r <==> (secret.Some? && secret.value != "") || "Authorization" in extra
    ensures "Authorization" !in extra && secret.Some? && secret.value != "" ==> r["Authorization"] == "Bearer " + secret.value
    ensures forall k :: k in extra ==> k in r && r[k] == extra[k]
    ensures r.Keys == {"Content-Type"} + (if secret.Some? && secret.value != "" then {"Authorization"} else {}) + extra.Keys
  {
    var base := map["Content-Type" := "application/json"];
    var withAuth := if secret.Some? && secret.value != "" then base["Authorization" := "Bearer " + secret.value] else base;
    withAuth + extra
  }
}
