/** The token bucket of packages/core/src/client/rate-limiter.ts. */
module RateLimiter {
  import opened Common
  import opened Arithmetic

  datatype RateLimiterOptions = RateLimiterOptions(capacity: real, refillTokens: real, refillIntervalMs: real)

  /** The options after `Math.max(1, Math.floor(...))`. */
  datatype Bucket = Bucket(capacity: int, refillTokens: int, refillIntervalMs: int)

  datatype BucketState = BucketState(tokens: int, lastRefillAt: int)

  function AtLeastOne(value: real): (r: int)
    ensures r >= 1
    ensures value >= 1.0 ==> r as real <= value < r as real + 1.0
    ensures value < 1.0 ==> r == 1
  {
    Max(1, value.Floor)
  }

  function Normalize(options: RateLimiterOptions): (b: Bucket)
    ensures FlooredFrom(1, options.capacity, b.capacity)
    ensures FlooredFrom(1, options.refillTokens, b.refillTokens)
    ensures FlooredFrom(1, options.refillIntervalMs, b.refillIntervalMs)
  {
    Bucket(AtLeastOne(options.capacity), AtLeastOne(options.refillTokens), AtLeastOne(options.refillIntervalMs))
  }

  predicate Positive(b: Bucket) {
    b.capacity >= 1 && b.refillTokens >= 1 && b.refillIntervalMs >= 1
  }

  function Start(b: Bucket, now: int): BucketState {
    BucketState(b.capacity, now)
  }

  /** The lazy refill: all whole intervals since the last one at once. The clock may have gone backwards. */
  function Refill(b: Bucket, s: BucketState, now: int): BucketState
    requires Positive(b)
  {
    var intervals := (now - s.lastRefillAt) / b.refillIntervalMs;
    if intervals <= 0 then s
    else BucketState(Min(b.capacity, s.tokens + intervals * b.refillTokens),
                     s.lastRefillAt + intervals * b.refillIntervalMs)
  }

  /** A call of `allow` or `getAvailableTokens` at a time, and what it returns. */
  datatype Op = Allow(at: int) | Available(at: int)
  datatype Reply = Admitted | Denied | Tokens(count: int)

  function Answer(b: Bucket, s: BucketState, op: Op): Reply
    requires Positive(b)
  {
    var r := Refill(b, s, op.at);
    if op.Available? then Tokens(r.tokens) else if r.tokens <= 0 then Denied else Admitted
  }

  function After(b: Bucket, s: BucketState, op: Op): BucketState
    requires Positive(b)
  {
    var r := Refill(b, s, op.at);
    if Answer(b, s, op) == Admitted then r.(tokens := r.tokens - 1) else r
  }

  function Replies(b: Bucket, s: BucketState, ops: seq<Op>): seq<Reply>
    requires Positive(b)
    decreases |ops|
  {
    if ops == [] then [] else [Answer(b, s, ops[0])] + Replies(b, After(b, s, ops[0]), ops[1..])
  }

  function AfterAll(b: Bucket, s: BucketState, ops: seq<Op>): BucketState
    requires Positive(b)
    decreases |ops|
  {
    if ops == [] then s else AfterAll(b, After(b, s, ops[0]), ops[1..])
  }

  /** How many calls were admitted. */
  function Admissions(b: Bucket, s: BucketState, ops: seq<Op>): nat
    requires Positive(b)
    decreases |ops|
  {
    if ops == [] then 0
    else (if Answer(b, s, ops[0]) == Admitted then 1 else 0) + Admissions(b, After(b, s, ops[0]), ops[1..])
  }

  class TokenBucketRateLimiter {
    var tokens: int
    var lastRefillAt: int
    const options: Bucket

    ghost function View(): BucketState
      reads this
    {
      BucketState(tokens, lastRefillAt)
    }

    constructor (options: RateLimiterOptions, now: int)
      ensures this.options == Normalize(options) && Positive(this.options) && View() == Start(this.options, now)
    {
      this.options := Bucket(Max(1, options.capacity.Floor), Max(1, options.refillTokens.Floor),
                             Max(1, options.refillIntervalMs.Floor));
      this.tokens := Max(1, options.capacity.Floor);
      this.lastRefillAt := now;
    }

    method Allow(now: int) returns (r: bool)
      requires Positive(options)
      modifies this
      ensures r <==> Answer(options, old(View()), Op.Allow(now)) == Admitted
      ensures View() == After(options, old(View()), Op.Allow(now))
    {
      RefillTokens(now);
      if tokens <= 0 {
        return false;
      }
      tokens := tokens - 1;
      r := true;
    }

    method GetAvailableTokens(now: int) returns (r: int)
      requires Positive(options)
      modifies this
      ensures Tokens(r) == Answer(options, old(View()), Available(now))
      ensures View() == After(options, old(View()), Available(now))
    {
      RefillTokens(now);
      r := tokens;
    }

    method RefillTokens(now: int)
      requires Positive(options)
      modifies this
      ensures View() == Refill(options, old(View()), now)
    {
      var elapsedMs := now - lastRefillAt;
      var intervals := elapsedMs / options.refillIntervalMs;
      if intervals <= 0 {
        return;
      }
      tokens := Min(options.capacity, tokens + intervals * options.refillTokens);
      lastRefillAt := lastRefillAt + intervals * options.refillIntervalMs;
    }
  }

  // ----- lazy refill is eager ticking -----

  /** A bucket that is topped up at every multiple of the interval, one tick at a time, up to the given time. */
  function Tick(b: Bucket, s: BucketState, now: int): BucketState
    requires Positive(b)
    decreases now - s.lastRefillAt
  {
    if now < s.lastRefillAt + b.refillIntervalMs then s
    else Tick(b, BucketState(Min(b.capacity, s.tokens + b.refillTokens), s.lastRefillAt + b.refillIntervalMs), now)
  }

  function EagerReplies(b: Bucket, s: BucketState, ops: seq<Op>): seq<Reply>
    requires Positive(b)
    decreases |ops|
  {
    if ops == [] then [] else
    var r := Tick(b, s, ops[0].at);
    match ops[0]
    case Available(_) => [Tokens(r.tokens)] + EagerReplies(b, r, ops[1..])
    case Allow(_) =>
      if r.tokens <= 0 then [Denied] + EagerReplies(b, r, ops[1..])
      else [Admitted] + EagerReplies(b, r.(tokens := r.tokens - 1), ops[1..])
  }

  lemma {:induction false} RefillIsTicking(b: Bucket, s: BucketState, now: int)
    requires Positive(b) && s.tokens <= b.capacity
    ensures Refill(b, s, now) == Tick(b, s, now)
    decreases now - s.lastRefillAt
  {
    var i := b.refillIntervalMs;
    var q := (now - s.lastRefillAt) / i;
    QuotientAtLeast(now - s.lastRefillAt, i, 1);
    if q >= 1 {
      var s1 := BucketState(Min(b.capacity, s.tokens + b.refillTokens), s.lastRefillAt + i);
      RefillIsTicking(b, s1, now);
      QuotientShift(now - s.lastRefillAt, -1, i);
      assert now - s.lastRefillAt + (-1) * i == now - s1.lastRefillAt;
      assert (q - 1) * b.refillTokens == q * b.refillTokens - b.refillTokens;
      assert (q - 1) * i == q * i - i;
      ProductMonotone(0, q - 1, b.refillTokens);
    }
  }

  lemma TokensStayInRange(b: Bucket, s: BucketState, op: Op)
    requires Positive(b) && 0 <= s.tokens <= b.capacity
    ensures 0 <= After(b, s, op).tokens <= b.capacity
    ensures 0 <= Refill(b, s, op.at).tokens <= b.capacity
    ensures After(b, s, op).lastRefillAt >= s.lastRefillAt
  {
    var q := (op.at - s.lastRefillAt) / b.refillIntervalMs;
    if q > 0 {
      ProductMonotone(0, q, b.refillTokens);
      ProductMonotone(0, q, b.refillIntervalMs);
    }
  }

  /** Lazy refill equals eager ticking: the same answers on every trace, for every clock. */
  lemma {:induction false} LazyEqualsEager(b: Bucket, s: BucketState, ops: seq<Op>)
    requires Positive(b) && 0 <= s.tokens <= b.capacity
    ensures Replies(b, s, ops) == EagerReplies(b, s, ops)
    decreases |ops|
  {
    if ops != [] {
      RefillIsTicking(b, s, ops[0].at);
      TokensStayInRange(b, s, ops[0]);
      LazyEqualsEager(b, After(b, s, ops[0]), ops[1..]);
    }
  }

  // ----- observations -----

  /** Refilling early and refilling later comes to refilling later, exactly unless the early time is an interval ahead. */
  lemma RefillTwice(b: Bucket, s: BucketState, early: int, late: int)
    requires Positive(b) && 0 <= s.tokens <= b.capacity
    ensures var q1, q2 := (early - s.lastRefillAt) / b.refillIntervalMs, (late - s.lastRefillAt) / b.refillIntervalMs;
            Refill(b, Refill(b, s, early), late) == Refill(b, s, late) <==> q1 <= 0 || q1 <= q2
  {
    var i := b.refillIntervalMs;
    var q1, q2 := (early - s.lastRefillAt) / i, (late - s.lastRefillAt) / i;
    if q1 > 0 {
      var s1 := Refill(b, s, early);
      QuotientShift(late - s.lastRefillAt, -q1, i);
      assert late - s.lastRefillAt + (-q1) * i == late - s1.lastRefillAt;
      assert (q2 - q1) * b.refillTokens == q2 * b.refillTokens - q1 * b.refillTokens;
      assert (q2 - q1) * i == q2 * i - q1 * i;
      ProductMonotone(0, q1, b.refillTokens);
      ProductAtLeast(q1, i);
      if q1 < q2 {
        ProductMonotone(0, q2 - q1, b.refillTokens);
      } else if q1 > q2 {
        assert (q1 - q2) * i == q1 * i - q2 * i;
        ProductAtLeast(q1 - q2, i);
        assert s1.lastRefillAt != Refill(b, s, late).lastRefillAt;
      }
    }
  }

  /** The next answers depend on the state only through the refill at the next call. */
  lemma RefillDecides(b: Bucket, s: BucketState, s1: BucketState, ops: seq<Op>)
    requires Positive(b) && ops != [] && Refill(b, s1, ops[0].at) == Refill(b, s, ops[0].at)
    ensures Replies(b, s1, ops) == Replies(b, s, ops) && Admissions(b, s1, ops) == Admissions(b, s, ops)
  {
    assert After(b, s1, ops[0]) == After(b, s, ops[0]);
  }

  /** A look at `early`, more than the whole intervals up to `late` ahead, leaves a state that a refill at `late` keeps. */
  lemma RefilledAhead(b: Bucket, s: BucketState, early: int, late: int)
    requires Positive(b) && 0 <= s.tokens <= b.capacity
    requires (early - s.lastRefillAt) / b.refillIntervalMs > 0
    requires (early - s.lastRefillAt) / b.refillIntervalMs > (late - s.lastRefillAt) / b.refillIntervalMs
    ensures var ahead, r := Refill(b, s, early), Refill(b, s, late);
            && Refill(b, ahead, late) == ahead
            && r.lastRefillAt + b.refillIntervalMs <= ahead.lastRefillAt
            && r.tokens <= ahead.tokens <= b.capacity
            && (r.tokens == ahead.tokens ==> r.tokens == b.capacity)
  {
    var i := b.refillIntervalMs;
    var q1, q2 := (early - s.lastRefillAt) / i, (late - s.lastRefillAt) / i;
    QuotientShift(late - s.lastRefillAt, -q1, i);
    assert late - s.lastRefillAt + (-q1) * i == late - Refill(b, s, early).lastRefillAt;
    assert q1 * i == Max(0, q2) * i + (q1 - Max(0, q2)) * i;
    assert q1 * b.refillTokens == Max(0, q2) * b.refillTokens + (q1 - Max(0, q2)) * b.refillTokens;
    ProductAtLeast(q1 - Max(0, q2), i);
    ProductAtLeast(q1 - Max(0, q2), b.refillTokens);
    ProductMonotone(0, Max(0, q2), b.refillTokens);
  }

  lemma RepliesOfTwo(b: Bucket, s: BucketState, op1: Op, op2: Op)
    requires Positive(b)
    ensures Replies(b, s, [op1, op2]) == [Answer(b, s, op1), Answer(b, After(b, s, op1), op2)]
  {
    var s1 := After(b, s, op1);
    assert [op1, op2][1..] == [op2] && Replies(b, After(b, s1, op2), [op2][1..]) == [];
    assert Replies(b, s1, [op2]) == [Answer(b, s1, op2)];
  }

  /** Two states that differ after a refill at `late`, one being ahead, are told apart by at most two calls. */
  lemma AheadIsTold(b: Bucket, s: BucketState, ahead: BucketState, late: int) returns (ops: seq<Op>)
    requires Positive(b) && Refill(b, ahead, late) == ahead
    requires Refill(b, s, late).lastRefillAt + b.refillIntervalMs <= ahead.lastRefillAt
    requires Refill(b, s, late).tokens == ahead.tokens ==> ahead.tokens == b.capacity
    ensures ops != [] && ops[0].at == late && Replies(b, ahead, ops) != Replies(b, s, ops)
  {
    var r := Refill(b, s, late);
    if r.tokens != ahead.tokens {
      ops := [Available(late)];
      assert Replies(b, ahead, ops)[0] != Replies(b, s, ops)[0];
    } else {
      var op1, op2 := Op.Allow(late), Available(r.lastRefillAt + b.refillIntervalMs);
      RepliesOfTwo(b, s, op1, op2);
      RepliesOfTwo(b, ahead, op1, op2);
      QuotientIs(b.refillIntervalMs, b.refillIntervalMs, 1);
      QuotientMonotone(op2.at - ahead.lastRefillAt, 0, b.refillIntervalMs);
      QuotientIs(0, b.refillIntervalMs, 0);
      assert Answer(b, After(b, s, op1), op2) == Tokens(b.capacity);
      assert Answer(b, After(b, ahead, op1), op2) == Tokens(b.capacity - 1);
      ops := [op1, op2];
      assert Replies(b, ahead, ops)[1] != Replies(b, s, ops)[1];
    }
  }

  /** Whatever is called from `late` on gets the same replies after a look at `early`. */
  ghost predicate LookIsHarmless(b: Bucket, s: BucketState, early: int, late: int)
    requires Positive(b)
  {
    forall ops: seq<Op> | ops != [] && ops[0].at == late ::
      Replies(b, After(b, s, Available(early)), ops) == Replies(b, s, ops)
  }

  /** Looking changes no answer exactly when it adds nothing, or no more than the next call will have added anyway. */
  lemma LookIsHarmlessExactlyWhen(b: Bucket, s: BucketState, early: int, late: int)
    requires Positive(b) && 0 <= s.tokens <= b.capacity
    ensures var q1, q2 := (early - s.lastRefillAt) / b.refillIntervalMs, (late - s.lastRefillAt) / b.refillIntervalMs;
            LookIsHarmless(b, s, early, late) <==> q1 <= 0 || q1 <= q2
  {
    var q1, q2 := (early - s.lastRefillAt) / b.refillIntervalMs, (late - s.lastRefillAt) / b.refillIntervalMs;
    var s1 := After(b, s, Available(early));
    if q1 <= 0 || q1 <= q2 {
      RefillTwice(b, s, early, late);
      forall ops: seq<Op> | ops != [] && ops[0].at == late
        ensures Replies(b, s1, ops) == Replies(b, s, ops)
      {
        RefillDecides(b, s, s1, ops);
      }
    } else {
      RefilledAhead(b, s, early, late);
      var ops := AheadIsTold(b, s, s1, late);
    }
  }

  /** Looking at the bucket no later than the next call changes no later answer. */
  lemma ObservationsAreHarmless(b: Bucket, s: BucketState, at: int, ops: seq<Op>)
    requires Positive(b) && 0 <= s.tokens <= b.capacity
    requires ops != [] ==> at <= ops[0].at
    ensures Replies(b, s, [Available(at)] + ops) == [Answer(b, s, Available(at))] + Replies(b, s, ops)
    ensures Admissions(b, Refill(b, s, at), ops) == Admissions(b, s, ops)
  {
    var s1 := Refill(b, s, at);
    assert ([Available(at)] + ops)[1..] == ops;
    assert After(b, s, Available(at)) == s1;
    if ops != [] {
      QuotientMonotone(at - s.lastRefillAt, ops[0].at - s.lastRefillAt, b.refillIntervalMs);
      RefillTwice(b, s, at, ops[0].at);
      RefillDecides(b, s, s1, ops);
    }
  }

  /**
   * With a clock that goes back, a look does change a later answer: on an empty bucket, looking one interval ahead lets
   * in a call at the old time that would have been denied.
   */
  lemma BackwardClockObservationMatters(b: Bucket, now: int)
    requires Positive(b)
    ensures var empty := BucketState(0, now);
            && Replies(b, empty, [Allow(now)]) == [Denied]
            && Replies(b, Refill(b, empty, now + b.refillIntervalMs), [Allow(now)]) == [Admitted]
  {
    var empty := BucketState(0, now);
    var i := b.refillIntervalMs;
    QuotientIs(i, i, 1);
    QuotientIs(0, i, 0);
    var ahead := Refill(b, empty, now + i);
    assert ahead == BucketState(Min(b.capacity, b.refillTokens), now + i);
    QuotientIs(-i, i, -1);
    assert Refill(b, ahead, now) == ahead;
  }

  // ----- bounds -----

  predicate Monotone(ops: seq<Op>, from: int, to: int)
    decreases |ops|
  {
    if ops == [] then from <= to else from <= ops[0].at && Monotone(ops[1..], ops[0].at, to)
  }

  predicate NoLaterThan(ops: seq<Op>, to: int) {
    forall op <- ops :: op.at <= to
  }

  /** One call: what it uses, what whole intervals have added, and how far the last refill can move. */
  lemma OneCall(b: Bucket, s: BucketState, op: Op) returns (q: nat)
    requires Positive(b) && 0 <= s.tokens <= b.capacity
    ensures var d := After(b, s, op);
            && 0 <= d.tokens <= b.capacity
            && d.lastRefillAt == s.lastRefillAt + q * b.refillIntervalMs
            && (if Answer(b, s, op) == Admitted then 1 else 0) + d.tokens <= s.tokens + q * b.refillTokens
            && (q == 0 || d.lastRefillAt <= op.at)
  {
    TokensStayInRange(b, s, op);
    QuotientBracket(op.at - s.lastRefillAt, b.refillIntervalMs);
    q := Max(0, (op.at - s.lastRefillAt) / b.refillIntervalMs);
  }

  /** Each admission uses a token, and tokens come from whole intervals that have passed. */
  lemma {:induction false} AdmissionsArePaidFor(b: Bucket, s: BucketState, ops: seq<Op>, latest: int) returns (q: nat)
    requires Positive(b) && 0 <= s.tokens <= b.capacity && NoLaterThan(ops, latest)
    ensures var d := AfterAll(b, s, ops);
            && 0 <= d.tokens <= b.capacity
            && d.lastRefillAt == s.lastRefillAt + q * b.refillIntervalMs
            && Admissions(b, s, ops) + d.tokens <= s.tokens + q * b.refillTokens
            && (q == 0 || d.lastRefillAt <= latest)
    decreases |ops|
  {
    if ops == [] {
      return 0;
    }
    assert ops[0] in ops && forall op <- ops[1..] :: op in ops;
    var first := OneCall(b, s, ops[0]);
    var later := AdmissionsArePaidFor(b, After(b, s, ops[0]), ops[1..], latest);
    q := first + later;
    Distribute(first, later, b.refillIntervalMs);
    Distribute(first, later, b.refillTokens);
  }

  /** For any clock at all: at most C + R * floor((latest - start) / I) admissions since the start. */
  lemma TotalBound(b: Bucket, start: int, ops: seq<Op>, latest: int)
    requires Positive(b) && NoLaterThan(ops, latest) && start <= latest
    ensures Admissions(b, Start(b, start), ops) <= b.capacity + b.refillTokens * ((latest - start) / b.refillIntervalMs)
  {
    var q := AdmissionsArePaidFor(b, Start(b, start), ops, latest);
    QuotientAtLeast(latest - start, b.refillIntervalMs, q);
    ProductMonotone(q, (latest - start) / b.refillIntervalMs, b.refillTokens);
  }

  function CeilDiv(a: int, d: int): int
    requires d >= 1
  {
    (a + d - 1) / d
  }

  lemma {:induction false} MonotoneNoLater(ops: seq<Op>, from: int, to: int)
    requires Monotone(ops, from, to)
    ensures NoLaterThan(ops, to) && from <= to
    ensures ops != [] ==> from <= ops[0].at
    decreases |ops|
  {
    if ops != [] {
      MonotoneNoLater(ops[1..], ops[0].at, to);
    }
  }

  /** After a refill less than one interval has passed since the last whole one. */
  lemma RefillAligns(b: Bucket, s: BucketState, now: int)
    requires Positive(b) && 0 <= s.tokens <= b.capacity && s.lastRefillAt <= now
    ensures var r := Refill(b, s, now);
            0 <= r.tokens <= b.capacity && now < r.lastRefillAt + b.refillIntervalMs
  {
    TokensStayInRange(b, s, Available(now));
    QuotientBracket(now - s.lastRefillAt, b.refillIntervalMs);
    QuotientAtLeast(now - s.lastRefillAt, b.refillIntervalMs, 0);
  }

  lemma IntervalsInWindow(i: int, last: int, from: int, to: int, q: nat)
    requires i >= 1 && from < last + i && from <= to
    requires q == 0 || last + q * i <= to
    ensures q <= CeilDiv(to - from, i)
  {
    QuotientAtLeast(to - from + i - 1, i, q);
  }

  /**
   * The window bound: on a clock that never goes back, the calls made from `from` to `to` admit at most
   * C + R * ceil((to - from) / I), whatever happened before.
   */
  lemma WindowBound(b: Bucket, s: BucketState, ops: seq<Op>, from: int, to: int)
    requires Positive(b) && 0 <= s.tokens <= b.capacity && s.lastRefillAt <= from
    requires Monotone(ops, from, to)
    ensures Admissions(b, s, ops) <= b.capacity + b.refillTokens * CeilDiv(to - from, b.refillIntervalMs)
  {
    MonotoneNoLater(ops, from, to);
    // A look at `from` changes no answer.
    ObservationsAreHarmless(b, s, from, ops);
    RefillAligns(b, s, from);
    var s0 := Refill(b, s, from);
    var q := AdmissionsArePaidFor(b, s0, ops, to);
    IntervalsInWindow(b.refillIntervalMs, s0.lastRefillAt, from, to, q);
    ProductMonotone(q, CeilDiv(to - from, b.refillIntervalMs), b.refillTokens);
  }

  /** Every reachable state of a bucket on a forward clock can start such a window. */
  lemma ReachableStatesStartWindows(b: Bucket, s: BucketState, ops: seq<Op>, from: int, to: int)
    requires Positive(b) && 0 <= s.tokens <= b.capacity && s.lastRefillAt <= from && Monotone(ops, from, to)
    ensures var d := AfterAll(b, s, ops);
            0 <= d.tokens <= b.capacity && d.lastRefillAt <= to
  {
    MonotoneNoLater(ops, from, to);
    var q := AdmissionsArePaidFor(b, s, ops, to);
  }

  lemma AdmitsFirst(b: Bucket, s: BucketState, op: Op, more: seq<Op>)
    requires Positive(b) && Answer(b, s, op) == Admitted
    ensures Admissions(b, s, [op] + more) == 1 + Admissions(b, After(b, s, op), more)
  {
    assert ([op] + more)[1..] == more;
  }

  /** The window bound is reached: a full bucket, one interval later a full refill, everything asked for. */
  lemma WindowBoundIsTight()
    ensures var b := Bucket(2, 1, 10);
            Admissions(b, Start(b, 0), [Allow(9)] + ([Allow(9)] + ([Allow(10)] + [])))
            == b.capacity + b.refillTokens * CeilDiv(10 - 9, 10)
  {
    var b := Bucket(2, 1, 10);
    var s1, s2 := BucketState(1, 0), BucketState(0, 0);
    assert After(b, Start(b, 0), Allow(9)) == s1;
    assert After(b, s1, Allow(9)) == s2;
    assert Refill(b, s2, 10) == BucketState(1, 10);
    AdmitsFirst(b, Start(b, 0), Allow(9), [Allow(9)] + ([Allow(10)] + []));
    AdmitsFirst(b, s1, Allow(9), [Allow(10)] + []);
    AdmitsFirst(b, s2, Allow(10), []);
  }
}
