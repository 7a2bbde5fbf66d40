/**
 * The retry and failover loop of packages/core/src/client/rpc-client.ts over the round-robin balancer, for a call that
 * no other call of the same service interleaves with.
 */
module Failover {
  import opened Common
  import opened Errors
  import opened Messages
  import opened LoadBalancers
  import opened Arithmetic

  datatype RetryRule = RetryRule(
    maxAttempts: Option<JsNumber>,
    initialBackoffMs: Option<int>,
    maxBackoffMs: Option<int>)

  datatype RetryOptions = RetryOptions(
    retryMaxAttempts: Option<JsNumber>,
    retryInitialBackoffMs: Option<int>,
    retryMaxBackoffMs: Option<int>,
    retryRules: map<string, RetryRule>)

  datatype RetryContext = RetryContext(
    serviceName: string,
    methodName: string,
    attempt: nat,
    maxAttempts: nat,
    endpoint: Endpoint,
    errorCode: Option<string>)

  /** What one attempt, or the whole call, comes to. */
  datatype Outcome = Replied(result: Option<Value>) | Threw(error: Error)

  function GetMethodKey(serviceName: string, methodName: string): string {
    serviceName + "." + methodName
  }

  function GetRetryRule(o: RetryOptions, serviceName: string, methodName: string): Option<RetryRule> {
    var key := GetMethodKey(serviceName, methodName);
    if key in o.retryRules then Some(o.retryRules[key]) else None
  }

  function OrElse<T>(first: Option<T>, second: Option<T>): Option<T> {
    if first.Some? then first else second
  }

  function GetMaxAttempts(o: RetryOptions, serviceName: string, methodName: string, endpointCount: nat): (r: nat)
    ensures endpointCount > 0 ==> 1 <= r <= endpointCount
    ensures endpointCount == 0 ==> r <= 1
  {
    var rule := GetRetryRule(o, serviceName, methodName);
    var configured := OrElse(if rule.Some? then rule.value.maxAttempts else None, o.retryMaxAttempts);
    if configured.None? || configured.value.NonFinite? then endpointCount
    else Max(1, Min(configured.value.value.Floor, endpointCount))
  }

  function GetRetryBackoffMs(o: RetryOptions, serviceName: string, methodName: string, attempt: nat): int
    requires attempt >= 1
  {
    var rule := GetRetryRule(o, serviceName, methodName);
    var initial := OrElse(if rule.Some? then rule.value.initialBackoffMs else None, o.retryInitialBackoffMs);
    if initial.None? || initial.value <= 0 then 0 else
    var maximum := OrElse(if rule.Some? then rule.value.maxBackoffMs else None, o.retryMaxBackoffMs);
    Min(initial.value * Pow2(attempt - 1), if maximum.Some? then maximum.value else initial.value)
  }

  /**
   * Everything the loop depends on: its inputs, where the service's cursor stands, and how an attempt on an
   * endpoint behaves. An attempt covers connecting, sending and waiting for the answer.
   */
  datatype Setting = Setting(
    options: RetryOptions,
    shouldRetry: (Error, RetryContext) -> bool,
    serviceName: string,
    methodName: string,
    endpoints: seq<Endpoint>,
    cursor: nat,
    attempt: (nat, Endpoint) -> Outcome)
  {
    function MaxAttempts(): nat {
      GetMaxAttempts(options, serviceName, methodName, |endpoints|)
    }

    /** The list position that attempt number i (from 0) goes to. */
    function Position(i: nat): (p: nat)
      requires endpoints != []
      ensures p < |endpoints|
    {
      (cursor + i) % |endpoints|
    }

    function OutcomeOf(i: nat): Outcome
      requires endpoints != []
    {
      attempt(i, endpoints[Position(i)])
    }

    /** Attempt number i fails with an error that the policy wants retried. */
    predicate GoesOn(i: nat)
      requires endpoints != []
    {
      OutcomeOf(i).Threw? &&
      shouldRetry(OutcomeOf(i).error,
                  RetryContext(serviceName, methodName, i + 1, MaxAttempts(), endpoints[Position(i)],
                               GetErrorCode(OutcomeOf(i).error)))
    }
  }

  /** The cursors after `count` selections for one service. */
  function Advanced(cursors: map<string, nat>, serviceName: string, count: nat): map<string, nat> {
    if count == 0 then cursors else cursors[serviceName := CursorOf(cursors, serviceName) + count]
  }

  class DiscoveryClient {
    const options: RetryOptions
    const loadBalancer: RoundRobinLoadBalancer

    constructor (options: RetryOptions, loadBalancer: RoundRobinLoadBalancer)
      ensures this.options == options && this.loadBalancer == loadBalancer
    {
      this.options := options;
      this.loadBalancer := loadBalancer;
    }

    /** One turn of the loop: the outcome of attempt number i, and whether the policy wants it retried. */
    method TryOnce(serviceName: string, methodName: string, endpoints: seq<Endpoint>,
                   shouldRetry: (Error, RetryContext) -> bool, attempt: (nat, Endpoint) -> Outcome,
                   maxAttempts: nat, i: nat, ghost s: Setting)
      returns (outcome: Outcome, again: bool)
      requires s == Setting(options, shouldRetry, serviceName, methodName, endpoints, s.cursor, attempt)
      requires s.MaxAttempts() == maxAttempts && CursorOf(loadBalancer.cursors, serviceName) == s.cursor + i
      modifies loadBalancer
      ensures endpoints == [] ==> outcome == Threw(NoEndpoint(serviceName)) && !again && unchanged(loadBalancer)
      ensures endpoints != [] ==>
                && outcome == s.OutcomeOf(i)
                && var endpoint := endpoints[(s.cursor + i) % |endpoints|];
                && (again <==>
                      && outcome.Threw?
                      && shouldRetry(outcome.error, RetryContext(serviceName, methodName, i + 1, maxAttempts, endpoint,
                                                                 GetErrorCode(outcome.error))))
                && loadBalancer.cursors == old(loadBalancer.cursors)[serviceName := s.cursor + i + 1]
    {
      var selected := loadBalancer.Select(serviceName, endpoints);
      if selected.Failure? {
        return Threw(selected.error), false;
      }
      var endpoint := selected.value;
      outcome := attempt(i, endpoint);
      if outcome.Replied? {
        return outcome, false;
      }
      var context := RetryContext(serviceName, methodName, i + 1, maxAttempts, endpoint, GetErrorCode(outcome.error));
      again := shouldRetry(outcome.error, context);
    }

    /** The loop: the outcome that ends the call early, if one does, in attempt number `at`. */
    method TryAll(serviceName: string, methodName: string, endpoints: seq<Endpoint>,
                  shouldRetry: (Error, RetryContext) -> bool, attempt: (nat, Endpoint) -> Outcome,
                  maxAttempts: nat, ghost s: Setting)
      returns (ending: Option<Outcome>, lastError: Option<Error>, sleeps: seq<int>, ghost at: nat)
      requires s == Setting(options, shouldRetry, serviceName, methodName, endpoints,
                            CursorOf(loadBalancer.cursors, serviceName), attempt)
      requires s.MaxAttempts() == maxAttempts
      modifies loadBalancer
      ensures Tried(s, at, lastError, sleeps)
      ensures if ending.None? then at == maxAttempts else at < maxAttempts && EndsWith(s, at, ending.value)
      ensures loadBalancer.cursors == Advanced(old(loadBalancer.cursors), serviceName,
                                               if ending.Some? && endpoints != [] then at + 1 else at)
    {
      ending, lastError, sleeps, at := None, None, [], 0;
      for i := 0 to maxAttempts
        invariant at == i
        invariant Tried(s, i, lastError, sleeps)
        invariant loadBalancer.cursors == Advanced(old(loadBalancer.cursors), serviceName, i)
      {
        var outcome, again := TryOnce(serviceName, methodName, endpoints, shouldRetry, attempt, maxAttempts, i, s);
        if !again {
          ending := Some(outcome);
          return;
        }
        TriedOnceMore(s, i, lastError, sleeps);
        lastError := Some(outcome.error);
        if i + 1 < maxAttempts {
          sleeps := sleeps + [GetRetryBackoffMs(options, serviceName, methodName, i + 1)];
        }
        at := at + 1;
      }
    }

    /** `endpoints` is what the registry looked up; `sleeps` are the backoff times waited between attempts. */
    method CallWithDiscoveryFailover(serviceName: string, methodName: string, endpoints: seq<Endpoint>,
                                     shouldRetry: (Error, RetryContext) -> bool, attempt: (nat, Endpoint) -> Outcome)
      returns (r: Outcome, sleeps: seq<int>)
      modifies loadBalancer
      ensures var s := Setting(options, shouldRetry, serviceName, methodName, endpoints,
                               CursorOf(old(loadBalancer.cursors), serviceName), attempt);
              && r == FinalOutcome(s)
              && sleeps == Sleeps(s)
              && loadBalancer.cursors == Advanced(old(loadBalancer.cursors), serviceName,
                                                  if endpoints == [] then 0 else AttemptsMade(s))
    {
      var maxAttempts := GetMaxAttempts(options, serviceName, methodName, |endpoints|);
      ghost var s := Setting(options, shouldRetry, serviceName, methodName, endpoints,
                             CursorOf(loadBalancer.cursors, serviceName), attempt);
      var ending, lastError, slept, at := TryAll(serviceName, methodName, endpoints, shouldRetry, attempt, maxAttempts, s);
      sleeps := slept;
      if ending.Some? {
        EndsDecisively(s, at, lastError, sleeps);
        return ending.value, sleeps;
      }
      EndsExhausted(s, lastError, sleeps);
      if lastError.Some? && !lastError.value.NotAnError? {
        return Threw(lastError.value), sleeps;
      }
      r := Threw(NoAvailableEndpoint(serviceName));
    }
  }

  function NoAvailableEndpoint(serviceName: string): Error {
    PlainError("No available endpoint for service: " + serviceName)
  }

  // ----- what the loop computes -----

  /** The number of the first attempt that ends the call, or `MaxAttempts()` when every attempt goes on. */
  function FirstDecisive(s: Setting, from: nat): (k: nat)
    requires s.endpoints != [] && from <= s.MaxAttempts()
    ensures from <= k <= s.MaxAttempts()
    ensures forall i | from <= i < k :: s.GoesOn(i)
    ensures k < s.MaxAttempts() ==> !s.GoesOn(k)
    decreases s.MaxAttempts() - from
  {
    if from == s.MaxAttempts() || !s.GoesOn(from) then from else FirstDecisive(s, from + 1)
  }

  function AttemptsMade(s: Setting): nat
    requires s.endpoints != []
  {
    Min(FirstDecisive(s, 0) + 1, s.MaxAttempts())
  }

  function FinalOutcome(s: Setting): Outcome {
    if s.endpoints == [] then
      if s.MaxAttempts() == 0 then Threw(NoAvailableEndpoint(s.serviceName)) else Threw(NoEndpoint(s.serviceName))
    else
      var k := FirstDecisive(s, 0);
      if k < s.MaxAttempts() then s.OutcomeOf(k)
      else
        assert s.GoesOn(k - 1);
        var last := s.OutcomeOf(k - 1).error;
        Threw(if last.NotAnError? then NoAvailableEndpoint(s.serviceName) else last)
  }

  /** The backoff times after the first `count` attempts. */
  function SleepsBefore(s: Setting, count: int): seq<int> {
    if count <= 0 then []
    else SleepsBefore(s, count - 1) + [GetRetryBackoffMs(s.options, s.serviceName, s.methodName, count)]
  }

  function Sleeps(s: Setting): seq<int> {
    if s.endpoints == [] then [] else SleepsBefore(s, AttemptsMade(s) - 1)
  }

  /** Where the loop stands after `count` attempts that all went on. */
  ghost predicate Tried(s: Setting, count: nat, lastError: Option<Error>, sleeps: seq<int>) {
    && (s.endpoints != [] ==> forall k | 0 <= k < count :: s.GoesOn(k))
    && (count == 0 ==> lastError == None)
    && (count > 0 ==> s.endpoints != [] && s.OutcomeOf(count - 1).Threw?
                      && lastError == Some(s.OutcomeOf(count - 1).error))
    && sleeps == SleepsBefore(s, Min(count, s.MaxAttempts() - 1))
  }

  lemma TriedOnceMore(s: Setting, i: nat, lastError: Option<Error>, sleeps: seq<int>)
    requires s.endpoints != [] && Tried(s, i, lastError, sleeps) && i < s.MaxAttempts() && s.GoesOn(i)
    ensures Tried(s, i + 1, Some(s.OutcomeOf(i).error),
                  if i + 1 < s.MaxAttempts()
                  then sleeps + [GetRetryBackoffMs(s.options, s.serviceName, s.methodName, i + 1)] else sleeps)
  {
  }

  /** Attempt number i ends the call with this outcome; without endpoints it is the balancer that throws. */
  ghost predicate EndsWith(s: Setting, i: nat, outcome: Outcome) {
    if s.endpoints == [] then outcome == Threw(NoEndpoint(s.serviceName))
    else outcome == s.OutcomeOf(i) && !s.GoesOn(i)
  }

  lemma EndsDecisively(s: Setting, i: nat, lastError: Option<Error>, sleeps: seq<int>)
    requires Tried(s, i, lastError, sleeps) && i < s.MaxAttempts() && (s.endpoints != [] ==> !s.GoesOn(i))
    ensures s.endpoints == [] ==> FinalOutcome(s) == Threw(NoEndpoint(s.serviceName))
    ensures s.endpoints != [] ==> FinalOutcome(s) == s.OutcomeOf(i) && AttemptsMade(s) == i + 1
    ensures sleeps == Sleeps(s)
  {
    if s.endpoints != [] {
      FirstDecisiveIs(s, i);
    }
  }

  lemma EndsExhausted(s: Setting, lastError: Option<Error>, sleeps: seq<int>)
    requires Tried(s, s.MaxAttempts(), lastError, sleeps)
    ensures s.endpoints != [] ==> AttemptsMade(s) == s.MaxAttempts()
    ensures FinalOutcome(s) == Threw(if lastError.Some? && !lastError.value.NotAnError? then lastError.value
                                     else NoAvailableEndpoint(s.serviceName))
    ensures sleeps == Sleeps(s)
  {
    if s.endpoints != [] {
      FirstDecisiveIs(s, s.MaxAttempts());
    }
  }

  lemma FirstDecisiveIs(s: Setting, k: nat)
    requires s.endpoints != [] && k <= s.MaxAttempts() && (k < s.MaxAttempts() ==> !s.GoesOn(k))
    requires forall i | 0 <= i < k :: s.GoesOn(i)
    ensures FirstDecisive(s, 0) == k
  {
  }

  // ----- what the call promises -----

  /** No list position is tried twice in one call. */
  lemma AttemptsAreDistinct(s: Setting, i: nat, j: nat)
    requires s.endpoints != [] && i < j < s.MaxAttempts()
    ensures s.Position(i) != s.Position(j)
  {
    SameRemainderWhen(s.cursor + i, j - i, |s.endpoints|);
    SmallRemainder(j - i, |s.endpoints|);
    assert s.cursor + i + (j - i) == s.cursor + j;
  }

  /** With as many attempts as endpoints, every list position has its turn. */
  lemma EveryPositionHasATurn(s: Setting, p: nat) returns (i: nat)
    requires p < |s.endpoints|
    ensures i < |s.endpoints| && s.Position(i) == p
  {
    var n := |s.endpoints|;
    i := TurnOf(s.cursor, n, p);
  }

  /** What attempt number i, from 0, comes to: it goes to the i-th list position from the cursor on, round the list. */
  function Attempted(s: Setting, i: nat): Outcome
    requires s.endpoints != []
  {
    s.attempt(i, s.endpoints[(s.cursor + i) % |s.endpoints|])
  }

  /** The policy, asked about this attempt's error, wants another try. */
  predicate PolicyRetries(s: Setting, i: nat)
    requires s.endpoints != [] && Attempted(s, i).Threw?
  {
    var error := Attempted(s, i).error;
    s.shouldRetry(error, RetryContext(s.serviceName, s.methodName, i + 1, s.MaxAttempts(),
                                      s.endpoints[(s.cursor + i) % |s.endpoints|], GetErrorCode(error)))
  }

  /** Attempt number k is the first, in rotation order, that succeeds or fails with an error that is not to be retried. */
  ghost predicate EndsAt(s: Setting, k: nat)
    requires s.endpoints != []
  {
    && k < s.MaxAttempts()
    && (Attempted(s, k).Replied? || !PolicyRetries(s, k))
    && forall i | 0 <= i < k :: Attempted(s, i).Threw? && PolicyRetries(s, i)
  }

  lemma GoesOnExactlyWhen(s: Setting, i: nat)
    requires s.endpoints != []
    ensures s.OutcomeOf(i) == Attempted(s, i)
    ensures s.GoesOn(i) <==> Attempted(s, i).Threw? && PolicyRetries(s, i)
  {
  }

  lemma EndsAtIsFirst(s: Setting, k: nat)
    requires s.endpoints != [] && EndsAt(s, k)
    ensures FinalOutcome(s) == Attempted(s, k) && AttemptsMade(s) == k + 1
  {
    forall i | 0 <= i < k
      ensures s.GoesOn(i)
    {
      GoesOnExactlyWhen(s, i);
    }
    GoesOnExactlyWhen(s, k);
    FirstDecisiveIs(s, k);
  }

  /**
   * The call has the outcome of the first decisive attempt, after exactly the attempts up to it; if there is none within
   * the attempts allowed, it makes them all and throws the last error.
   */
  lemma FirstDecisiveInRotation(s: Setting)
    requires s.endpoints != []
    ensures forall k: nat | EndsAt(s, k) :: FinalOutcome(s) == Attempted(s, k) && AttemptsMade(s) == k + 1
    ensures (forall k: nat :: !EndsAt(s, k)) ==>
              && AttemptsMade(s) == s.MaxAttempts() && Attempted(s, s.MaxAttempts() - 1).Threw?
              && var last := Attempted(s, s.MaxAttempts() - 1).error;
                 FinalOutcome(s) == Threw(if last.NotAnError? then NoAvailableEndpoint(s.serviceName) else last)
  {
    forall k: nat | EndsAt(s, k)
      ensures FinalOutcome(s) == Attempted(s, k) && AttemptsMade(s) == k + 1
    {
      EndsAtIsFirst(s, k);
    }
    var k := FirstDecisive(s, 0);
    forall i: nat
      ensures s.GoesOn(i) <==> Attempted(s, i).Threw? && PolicyRetries(s, i)
    {
      GoesOnExactlyWhen(s, i);
    }
    if k == s.MaxAttempts() {
      assert s.GoesOn(k - 1);
    } else {
      assert EndsAt(s, k);
    }
  }

  /** Without a limit on attempts, one healthy endpoint among failures that the policy retries makes the call succeed. */
  lemma HealthyEndpointIsFound(s: Setting, healthy: nat)
    requires healthy < |s.endpoints| && s.MaxAttempts() == |s.endpoints|
    requires forall i: nat :: s.attempt(i, s.endpoints[healthy]).Replied?
    requires forall i: nat | i < s.MaxAttempts() && Attempted(s, i).Threw? :: PolicyRetries(s, i)
    ensures FinalOutcome(s).Replied?
  {
    var i := EveryPositionHasATurn(s, healthy);
    assert Attempted(s, i).Replied?;
    forall j: nat
      ensures s.GoesOn(j) <==> Attempted(s, j).Threw? && PolicyRetries(s, j)
    {
      GoesOnExactlyWhen(s, j);
    }
    assert s.OutcomeOf(i).Replied?;
    assert !s.GoesOn(i);
  }

  /** The policy of a client that configures none: it looks at the error's code alone. */
  ghost predicate HasDefaultPolicy(s: Setting) {
    forall error, context :: s.shouldRetry(error, context) <==> DefaultShouldRetry(error)
  }

  /**
   * Under the default policy the call has the outcome of the first attempt that does not fail transiently: a refused
   * connection is tried elsewhere, an application error is thrown at once.
   */
  lemma DefaultPolicyInRotation(s: Setting, k: nat)
    requires s.endpoints != [] && HasDefaultPolicy(s) && k < s.MaxAttempts()
    requires forall i | 0 <= i < k :: Attempted(s, i).Threw? && Transient(Attempted(s, i).error)
    requires Attempted(s, k).Replied? || !Transient(Attempted(s, k).error)
    ensures FinalOutcome(s) == Attempted(s, k) && AttemptsMade(s) == k + 1
  {
    forall i | 0 <= i < k
      ensures PolicyRetries(s, i)
    {
      RetriedByDefault(Attempted(s, i).error);
    }
    if Attempted(s, k).Threw? {
      RetriedByDefault(Attempted(s, k).error);
    }
    assert EndsAt(s, k);
    EndsAtIsFirst(s, k);
  }

  /** The limit is absent exactly when neither the rule nor the options set a finite one, or it is no real limit. */
  lemma UncappedWhen(s: Setting)
    requires s.endpoints != []
    ensures var rule := GetRetryRule(s.options, s.serviceName, s.methodName);
            var configured := OrElse(if rule.Some? then rule.value.maxAttempts else None, s.options.retryMaxAttempts);
            s.MaxAttempts() == |s.endpoints| <==>
              || configured.None? || configured.value.NonFinite?
              || configured.value.value >= |s.endpoints| as real
              || |s.endpoints| == 1
  {
    var rule := GetRetryRule(s.options, s.serviceName, s.methodName);
    var configured := OrElse(if rule.Some? then rule.value.maxAttempts else None, s.options.retryMaxAttempts);
    if configured.Some? && configured.value.Finite? {
      var x := configured.value.value;
      assert x.Floor as real <= x < x.Floor as real + 1.0;
    }
  }

  /** With no endpoints the balancer throws exactly when a finite limit is configured; otherwise it is not even asked. */
  lemma NoEndpoints(s: Setting)
    requires s.endpoints == []
    ensures var rule := GetRetryRule(s.options, s.serviceName, s.methodName);
            var configured := OrElse(if rule.Some? then rule.value.maxAttempts else None, s.options.retryMaxAttempts);
            if configured.Some? && configured.value.Finite? then FinalOutcome(s) == Threw(NoEndpoint(s.serviceName))
            else FinalOutcome(s) == Threw(NoAvailableEndpoint(s.serviceName))
    ensures Sleeps(s) == []
  {
  }

  /** The limit on attempts: the rule's or else the client's, floored, and kept between one and the number of endpoints. */
  lemma MaxAttemptsIs(s: Setting)
    requires s.endpoints != []
    ensures var o, key := s.options, s.serviceName + "." + s.methodName;
            var limit := if key in o.retryRules && o.retryRules[key].maxAttempts.Some? then o.retryRules[key].maxAttempts
                         else o.retryMaxAttempts;
            var r, n := s.MaxAttempts(), |s.endpoints|;
            if limit.None? || limit.value.NonFinite? || limit.value.value >= n as real then r == n
            else if limit.value.value < 1.0 then r == 1
            else r as real <= limit.value.value < r as real + 1.0
  {
  }

  /** The i-th wait, from 0: the initial backoff, the rule's or else the client's, doubled i times up to the maximum. */
  lemma {:induction false} SleepsAre(s: Setting, count: nat)
    ensures |SleepsBefore(s, count)| == count
    ensures var o, key := s.options, s.serviceName + "." + s.methodName;
            var ruled := key in o.retryRules;
            var initial := if ruled && o.retryRules[key].initialBackoffMs.Some? then o.retryRules[key].initialBackoffMs
                           else o.retryInitialBackoffMs;
            var maximum := if ruled && o.retryRules[key].maxBackoffMs.Some? then o.retryRules[key].maxBackoffMs
                           else if o.retryMaxBackoffMs.Some? then o.retryMaxBackoffMs else initial;
            forall i | 0 <= i < count ::
              SleepsBefore(s, count)[i]
              == if initial.None? || initial.value <= 0 then 0 else Min(initial.value * Pow2(i), maximum.value)
    decreases count
  {
    if count > 0 {
      SleepsAre(s, count - 1);
    }
  }

  /** One sleep between consecutive attempts, none after the last, and they never get shorter. */
  lemma BackoffGrows(s: Setting)
    requires s.endpoints != []
    ensures |Sleeps(s)| == AttemptsMade(s) - 1
    ensures forall i, j | 0 <= i <= j < |Sleeps(s)| :: Sleeps(s)[i] <= Sleeps(s)[j]
  {
    SleepsAre(s, AttemptsMade(s) - 1);
    forall i, j | 0 <= i <= j < |Sleeps(s)|
      ensures Sleeps(s)[i] <= Sleeps(s)[j]
    {
      Pow2Monotone(i, j);
      var rule := GetRetryRule(s.options, s.serviceName, s.methodName);
      var initial := OrElse(if rule.Some? then rule.value.initialBackoffMs else None, s.options.retryInitialBackoffMs);
      if initial.Some? && initial.value > 0 {
        ProductMonotone(Pow2(i), Pow2(j), initial.value);
      }
    }
  }

  // ----- interleaved calls -----

  /** The cursors after a run of selections, for any services. */
  function AfterPicks(cursors: map<string, nat>, picks: seq<Pick>): map<string, nat>
    decreases |picks|
  {
    if picks == [] then cursors else AfterPicks(AfterPick(cursors, picks[0]), picks[1..])
  }

  /** How many of the selections move the service's cursor. */
  function PicksFor(picks: seq<Pick>, serviceName: string): nat {
    if picks == [] then 0
    else (if picks[0].serviceName == serviceName && picks[0].endpoints != [] then 1 else 0)
         + PicksFor(picks[1..], serviceName)
  }

  lemma {:induction false} CursorAfterPicks(cursors: map<string, nat>, picks: seq<Pick>, serviceName: string)
    ensures CursorOf(AfterPicks(cursors, picks), serviceName) == CursorOf(cursors, serviceName) + PicksFor(picks, serviceName)
    decreases |picks|
  {
    if picks != [] {
      CursorAfterPicks(AfterPick(cursors, picks[0]), picks[1..], serviceName);
    }
  }

  /**
   * Two selections for a service from one list, with any selections of any calls between them, go to the same position if
   * and only if the list's length divides the number of the service's selections from the first to just before the second.
   * A call whose attempts no other call interleaves with therefore repeats a position only after a whole turn.
   */
  lemma SamePositionExactlyWhen(cursors: map<string, nat>, between: seq<Pick>, serviceName: string, endpoints: seq<Endpoint>)
    requires endpoints != []
    ensures var later := AfterPicks(AfterPick(cursors, Pick(serviceName, endpoints)), between);
            CursorOf(later, serviceName) % |endpoints| == CursorOf(cursors, serviceName) % |endpoints|
            <==> (1 + PicksFor(between, serviceName)) % |endpoints| == 0
  {
    var after := AfterPick(cursors, Pick(serviceName, endpoints));
    CursorAfterPicks(after, between, serviceName);
    SameRemainderWhen(CursorOf(cursors, serviceName), 1 + PicksFor(between, serviceName), |endpoints|);
  }

  // ----- method keys -----

  lemma LongerServiceHasDots(service1: string, method1: string, service2: string, method2: string)
    requires GetMethodKey(service1, method1) == GetMethodKey(service2, method2) && |service1| < |service2|
    ensures '.' in method1 && '.' in service2
  {
    var key := GetMethodKey(service1, method1);
    assert key == service1 + ("." + method1) && key == service2 + ("." + method2);
    assert key[|service2|] == '.' && key[|service2|] == method1[|service2| - |service1| - 1];
    assert key[|service1|] == '.' && key[|service1|] == service2[|service1|];
  }

  lemma SameLengthSameMethod(service1: string, method1: string, service2: string, method2: string)
    requires GetMethodKey(service1, method1) == GetMethodKey(service2, method2) && |service1| == |service2|
    ensures service1 == service2 && method1 == method2
  {
    var key, n := GetMethodKey(service1, method1), |service1|;
    assert key == service1 + ("." + method1) && key == service2 + ("." + method2);
    assert service1 == key[..n] && service2 == key[..n];
    assert method1 == key[n + 1..] && method2 == key[n + 1..];
  }

  /** Another method with the same key. */
  predicate SharesKey(service1: string, method1: string, service2: string, method2: string) {
    (service1 != service2 || method1 != method2) && GetMethodKey(service1, method1) == GetMethodKey(service2, method2)
  }

  /** A dot at some place in the method's name lets everything before it count as the service's. */
  lemma DotInMethodSplits(serviceName: string, methodName: string, i: nat)
    requires i < |methodName| && methodName[i] == '.'
    ensures SharesKey(serviceName, methodName, serviceName + "." + methodName[..i], methodName[i + 1..])
  {
    assert methodName == methodName[..i] + "." + methodName[i + 1..];
    assert serviceName + "." + (methodName[..i] + "." + methodName[i + 1..])
        == serviceName + "." + methodName[..i] + "." + methodName[i + 1..];
  }

  lemma DotInServiceSplits(serviceName: string, methodName: string, i: nat)
    requires i < |serviceName| && serviceName[i] == '.'
    ensures SharesKey(serviceName, methodName, serviceName[..i], serviceName[i + 1..] + "." + methodName)
  {
    assert serviceName == serviceName[..i] + "." + serviceName[i + 1..];
    assert serviceName[..i] + "." + (serviceName[i + 1..] + "." + methodName)
        == serviceName[..i] + "." + serviceName[i + 1..] + "." + methodName;
  }

  /** Some other method shares the key of this one if and only if there is a dot in one of its two names. */
  lemma KeyIsSharedExactlyWhen(serviceName: string, methodName: string)
    ensures (exists service2, method2 :: SharesKey(serviceName, methodName, service2, method2))
            <==> '.' in serviceName || '.' in methodName
  {
    if service2, method2 :| SharesKey(serviceName, methodName, service2, method2) {
      if |serviceName| < |service2| {
        LongerServiceHasDots(serviceName, methodName, service2, method2);
      } else if |service2| < |serviceName| {
        LongerServiceHasDots(service2, method2, serviceName, methodName);
      } else {
        SameLengthSameMethod(serviceName, methodName, service2, method2);
      }
    }
    if i :| 0 <= i < |methodName| && methodName[i] == '.' {
      DotInMethodSplits(serviceName, methodName, i);
    }
    if i :| 0 <= i < |serviceName| && serviceName[i] == '.' {
      DotInServiceSplits(serviceName, methodName, i);
    }
  }
}
