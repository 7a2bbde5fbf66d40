/**
 * The two ends of `RpcClient.call` (packages/core/src/client/rpc-client.ts): the rate limiter and the circuit breaker
 * before the `await`, the breaker's and the metrics' records after it.
 */
module ClientCalls {
  import opened Common
  import opened Errors
  import RL = RateLimiter
  import CB = CircuitBreaker

  datatype MethodMetrics = MethodMetrics(
    totalCalls: nat,
    successCalls: nat,
    failedCalls: nat,
    totalDurationMs: int,
    averageDurationMs: real,
    lastErrorCode: Option<string>)

  const NO_CALLS: MethodMetrics := MethodMetrics(0, 0, 0, 0, 0.0, None)

  type Metrics = map<string, MethodMetrics>

  function MetricsOf(metrics: Metrics, key: string): MethodMetrics {
    if key in metrics then metrics[key] else NO_CALLS
  }

  /** How a call that was let through ends; the last case is a result that the logger then threw on. */
  datatype Ending = Returned | Failed(error: Error) | LoggerThrew(error: Error)

  function Counted(m: MethodMetrics, durationMs: int, error: Option<Error>): MethodMetrics {
    var total, duration := m.totalCalls + 1, m.totalDurationMs + durationMs;
    var m1 := m.(totalCalls := total, totalDurationMs := duration, averageDurationMs := duration as real / total as real);
    if error.None? then m1.(successCalls := m.successCalls + 1)
    else m1.(failedCalls := m.failedCalls + 1, lastErrorCode := GetErrorCode(error.value))
  }

  /** One call of `recordMetrics`. */
  function Recorded(metrics: Metrics, key: string, durationMs: int, error: Option<Error>): Metrics {
    metrics[key := Counted(MetricsOf(metrics, key), durationMs, error)]
  }

  /** The optional governors, after normalisation. */
  datatype Governors = Governors(bucket: Option<RL.Bucket>, limits: Option<CB.Limits>)

  predicate Normal(c: Governors) {
    && (c.bucket.Some? ==> RL.Positive(c.bucket.value))
    && (c.limits.Some? ==> c.limits.value.failureThreshold >= 1)
  }

  /** The client's own state; an absent governor's part never changes. */
  datatype Client = Client(bucket: RL.BucketState, breaker: CB.Entries, metrics: Metrics)

  datatype Verdict = RateLimited | BreakerOpen | LetThrough

  function BucketAfter(c: Governors, s: RL.BucketState, now: int): RL.BucketState
    requires Normal(c)
  {
    if c.bucket.Some? then RL.After(c.bucket.value, s, RL.Allow(now)) else s
  }

  function BreakerAfter(c: Governors, entries: CB.Entries, e: CB.Event): CB.Entries {
    if c.limits.Some? then CB.Step(c.limits.value, entries, e) else entries
  }

  predicate Limited(c: Governors, s: RL.BucketState, now: int)
    requires Normal(c)
  {
    c.bucket.Some? && RL.Answer(c.bucket.value, s, RL.Allow(now)) == RL.Denied
  }

  predicate Blocked(c: Governors, entries: CB.Entries, key: string, now: int) {
    c.limits.Some? && !CB.Allows(c.limits.value, CB.EntryOf(entries, key), now)
  }

  function Gate(c: Governors, s: RL.BucketState, entries: CB.Entries, key: string, now: int): Verdict
    requires Normal(c)
  {
    if Limited(c, s, now) then RateLimited else if Blocked(c, entries, key, now) then BreakerOpen else LetThrough
  }

  function Admit(c: Governors, s: Client, key: string, now: int): Verdict
    requires Normal(c)
  {
    Gate(c, s.bucket, s.breaker, key, now)
  }

  function AfterAdmit(c: Governors, s: Client, key: string, now: int): Client
    requires Normal(c)
  {
    var s1 := s.(bucket := BucketAfter(c, s.bucket, now));
    if Admit(c, s, key, now) == RateLimited then s1
    else s1.(breaker := BreakerAfter(c, s.breaker, CB.Event(key, CB.Asked, now)))
  }

  function AfterSuccess(c: Governors, s: Client, key: string, startedAt: int, now: int): Client {
    s.(breaker := BreakerAfter(c, s.breaker, CB.Event(key, CB.Succeeded, now)),
       metrics := Recorded(s.metrics, key, now - startedAt, None))
  }

  function AfterFailure(c: Governors, s: Client, key: string, startedAt: int, error: Error, now: int): Client {
    s.(breaker := BreakerAfter(c, s.breaker, CB.Event(key, CB.Failed, now)),
       metrics := Recorded(s.metrics, key, now - startedAt, Some(error)))
  }

  /** A logger that throws on the success of a call sends it through the `catch` as well. */
  function AfterEnding(c: Governors, s: Client, key: string, startedAt: int, ending: Ending, now: int): Client {
    match ending
    case Returned => AfterSuccess(c, s, key, startedAt, now)
    case Failed(error) => AfterFailure(c, s, key, startedAt, error, now)
    case LoggerThrew(error) => AfterFailure(c, AfterSuccess(c, s, key, startedAt, now), key, startedAt, error, now)
  }

  // ----- the objects -----

  class RpcMethodMetrics {
    var totalCalls: nat
    var successCalls: nat
    var failedCalls: nat
    var totalDurationMs: int
    var averageDurationMs: real
    var lastErrorCode: Option<string>

    constructor ()
      ensures Copy() == NO_CALLS
    {
      totalCalls, successCalls, failedCalls := 0, 0, 0;
      totalDurationMs, averageDurationMs, lastErrorCode := 0, 0.0, None;
    }

    method Count(durationMs: int, error: Option<Error>)
      modifies this
      ensures Copy() == Counted(old(Copy()), durationMs, error)
    {
      totalCalls := totalCalls + 1;
      totalDurationMs := totalDurationMs + durationMs;
      averageDurationMs := totalDurationMs as real / totalCalls as real;
      if error.None? {
        successCalls := successCalls + 1;
      } else {
        failedCalls := failedCalls + 1;
        lastErrorCode := GetErrorCode(error.value);
      }
    }

    function Copy(): MethodMetrics
      reads this
    {
      MethodMetrics(totalCalls, successCalls, failedCalls, totalDurationMs, averageDurationMs, lastErrorCode)
    }
  }

  class RpcClient {
    var metrics: map<string, RpcMethodMetrics>
    const circuitBreaker: CB.CircuitBreaker?
    const rateLimiter: RL.TokenBucketRateLimiter?
    ghost var Records: set<RpcMethodMetrics>

    ghost function Config(): Governors {
      Governors(if rateLimiter == null then None else Some(rateLimiter.options),
                if circuitBreaker == null then None else Some(circuitBreaker.options))
    }

    ghost function BreakerEntries(): set<CB.CircuitBreakerEntry>
      reads circuitBreaker
    {
      if circuitBreaker == null then {} else circuitBreaker.Repr
    }

    /** No two keys share a record. */
    ghost predicate MetricsValid()
      reads this
    {
      && (forall key <- metrics :: metrics[key] in Records)
      && (forall k, j | k in metrics && j in metrics && k != j :: metrics[k] != metrics[j])
    }

    ghost function MetricsView(): Metrics
      reads this, Records
      requires MetricsValid()
    {
      map key | key in metrics :: metrics[key].Copy()
    }

    ghost function Bucket(): RL.BucketState
      reads rateLimiter
    {
      if rateLimiter == null then RL.BucketState(0, 0) else rateLimiter.View()
    }

    ghost predicate BreakerValid()
      reads circuitBreaker, if circuitBreaker == null then {} else circuitBreaker.Repr
    {
      circuitBreaker != null ==> circuitBreaker.Valid()
    }

    ghost function Breaker(): CB.Entries
      reads circuitBreaker, if circuitBreaker == null then {} else circuitBreaker.Repr
      requires BreakerValid()
    {
      if circuitBreaker == null then map[] else circuitBreaker.View()
    }

    constructor (rateLimiterOptions: Option<RL.RateLimiterOptions>, breakerOptions: Option<CB.BreakerOptions>, now: int)
      ensures Normal(Config()) && MetricsValid() && MetricsView() == map[] && BreakerValid() && Breaker() == map[]
      ensures rateLimiter == null <==> rateLimiterOptions == None
      ensures rateLimiter != null ==> fresh(rateLimiter) && rateLimiter.options == RL.Normalize(rateLimiterOptions.value)
      ensures rateLimiter != null ==> Bucket() == RL.Start(rateLimiter.options, now)
      ensures circuitBreaker == null <==> breakerOptions == None
      ensures circuitBreaker != null ==> fresh(circuitBreaker) && circuitBreaker.options == CB.Normalize(breakerOptions.value)
    {
      metrics, Records := map[], {};
      if rateLimiterOptions.Some? {
        rateLimiter := new RL.TokenBucketRateLimiter(rateLimiterOptions.value, now);
      } else {
        rateLimiter := null;
      }
      if breakerOptions.Some? {
        circuitBreaker := new CB.CircuitBreaker(breakerOptions.value);
      } else {
        circuitBreaker := null;
      }
    }

    method AskLimiter(now: int) returns (allowed: bool)
      requires Normal(Config())
      modifies rateLimiter
      ensures allowed <==> !Limited(Config(), old(Bucket()), now)
      ensures Bucket() == BucketAfter(Config(), old(Bucket()), now)
    {
      allowed := true;
      if rateLimiter != null {
        allowed := rateLimiter.Allow(now);
      }
    }

    method AskBreaker(key: string, now: int) returns (admitted: bool)
      requires BreakerValid()
      modifies circuitBreaker, BreakerEntries()
      ensures BreakerValid() && fresh(BreakerEntries() - old(BreakerEntries()))
      ensures admitted <==> !Blocked(Config(), old(Breaker()), key, now)
      ensures Breaker() == BreakerAfter(Config(), old(Breaker()), CB.Event(key, CB.Asked, now))
    {
      admitted := true;
      if circuitBreaker != null {
        admitted := circuitBreaker.CanRequest(key, now);
      }
    }

    /** The two gates at the start of `call`, the rate limiter first. */
    method CallBegins(key: string, now: int) returns (verdict: Verdict)
      requires Normal(Config()) && MetricsValid() && BreakerValid()
      modifies rateLimiter, circuitBreaker, BreakerEntries()
      ensures MetricsValid() && BreakerValid() && fresh(BreakerEntries() - old(BreakerEntries()))
      ensures verdict == Admit(Config(), old(Client(Bucket(), Breaker(), MetricsView())), key, now)
      ensures Client(Bucket(), Breaker(), MetricsView())
           == AfterAdmit(Config(), old(Client(Bucket(), Breaker(), MetricsView())), key, now)
    {
      var allowed := AskLimiter(now);
      if !allowed {
        return RateLimited;
      }
      var admitted := AskBreaker(key, now);
      if !admitted {
        return BreakerOpen;
      }
      verdict := LetThrough;
    }

    /** The record of a key, made if need be. */
    method CurrentMetrics(key: string) returns (current: RpcMethodMetrics)
      requires MetricsValid()
      modifies this
      ensures MetricsValid() && fresh(Records - old(Records))
      ensures key in metrics && metrics[key] == current
      ensures forall k <- old(metrics) :: k in metrics && metrics[k] == old(metrics[k])
      ensures MetricsView() == old(MetricsView())[key := MetricsOf(old(MetricsView()), key)]
    {
      if key in metrics {
        current := metrics[key];
      } else {
        current := new RpcMethodMetrics();
      }
      Records := Records + {current};
      metrics := metrics[key := current];
    }

    method RecordMetrics(key: string, durationMs: int, error: Option<Error>)
      requires MetricsValid()
      modifies this, Records
      ensures MetricsValid() && fresh(Records - old(Records))
      ensures MetricsView() == Recorded(old(MetricsView()), key, durationMs, error)
    {
      var current := CurrentMetrics(key);
      current.Count(durationMs, error);
    }

    method TellSuccess(key: string, now: int)
      requires BreakerValid()
      modifies circuitBreaker, BreakerEntries()
      ensures BreakerValid() && fresh(BreakerEntries() - old(BreakerEntries()))
      ensures Breaker() == BreakerAfter(Config(), old(Breaker()), CB.Event(key, CB.Succeeded, now))
    {
      if circuitBreaker != null {
        circuitBreaker.RecordSuccess(key);
      }
    }

    method TellFailure(key: string, now: int)
      requires BreakerValid()
      modifies circuitBreaker, BreakerEntries()
      ensures BreakerValid() && fresh(BreakerEntries() - old(BreakerEntries()))
      ensures Breaker() == BreakerAfter(Config(), old(Breaker()), CB.Event(key, CB.Failed, now))
    {
      if circuitBreaker != null {
        circuitBreaker.RecordFailure(key, now);
      }
    }

    method CallReturned(key: string, startedAt: int, now: int)
      requires MetricsValid() && BreakerValid()
      modifies this, Records, circuitBreaker, BreakerEntries()
      ensures MetricsValid() && fresh(Records - old(Records))
      ensures BreakerValid() && fresh(BreakerEntries() - old(BreakerEntries()))
      ensures Breaker() == BreakerAfter(Config(), old(Breaker()), CB.Event(key, CB.Succeeded, now))
      ensures MetricsView() == Recorded(old(MetricsView()), key, now - startedAt, None)
    {
      TellSuccess(key, now);
      RecordMetrics(key, now - startedAt, None);
    }

    method CallThrew(key: string, startedAt: int, error: Error, now: int)
      requires MetricsValid() && BreakerValid()
      modifies this, Records, circuitBreaker, BreakerEntries()
      ensures MetricsValid() && fresh(Records - old(Records))
      ensures BreakerValid() && fresh(BreakerEntries() - old(BreakerEntries()))
      ensures Breaker() == BreakerAfter(Config(), old(Breaker()), CB.Event(key, CB.Failed, now))
      ensures MetricsView() == Recorded(old(MetricsView()), key, now - startedAt, Some(error))
    {
      TellFailure(key, now);
      RecordMetrics(key, now - startedAt, Some(error));
    }

    /** The code after the `await`: the result is recorded, then logged, inside the `try`. */
    method CallEnds(key: string, startedAt: int, ending: Ending, now: int)
      requires MetricsValid() && BreakerValid()
      modifies this, Records, circuitBreaker, BreakerEntries()
      ensures MetricsValid() && fresh(Records - old(Records))
      ensures BreakerValid() && fresh(BreakerEntries() - old(BreakerEntries()))
      ensures Client(Bucket(), Breaker(), MetricsView())
           == AfterEnding(Config(), old(Client(Bucket(), Breaker(), MetricsView())), key, startedAt, ending, now)
    {
      match ending {
        case Returned =>
          CallReturned(key, startedAt, now);
        case Failed(error) =>
          CallThrew(key, startedAt, error, now);
        case LoggerThrew(error) =>
          CallReturned(key, startedAt, now);
          CallThrew(key, startedAt, error, now);
      }
    }

    /** A snapshot that later calls do not change. */
    method GetMetrics() returns (snapshot: Metrics)
      requires MetricsValid()
      ensures snapshot == MetricsView()
    {
      snapshot := map[];
      var keys := metrics.Keys;
      while keys != {}
        invariant keys <= metrics.Keys && snapshot.Keys == metrics.Keys - keys
        invariant forall key <- snapshot :: snapshot[key] == metrics[key].Copy()
      {
        var key :| key in keys;
        snapshot := snapshot[key := metrics[key].Copy()];
        keys := keys - {key};
      }
    }

    method ResetMetrics()
      requires MetricsValid()
      modifies this`metrics
      ensures MetricsValid() && MetricsView() == map[]
    {
      metrics := map[];
    }
  }
}
