/**
 * What `RpcClient.call` counts, over every interleaving of calls. A step is the code between two awaits: a call begins,
 * or a call in flight ends.
 */
module CallAccounting {
  import opened Common
  import opened Errors
  import opened ClientCalls
  import RL = RateLimiter
  import CB = CircuitBreaker

  datatype Call = Call(key: string, startedAt: int)
  datatype Refusal = Refusal(key: string, why: Verdict)
  datatype Ended = Ended(call: Call, ending: Ending, at: int)

  /** Who is where: kept beside the client's state, and never read by it. */
  datatype Ledger = Ledger(inFlight: seq<Call>, refused: seq<Refusal>, ended: seq<Ended>, told: seq<CB.Event>)

  datatype World = World(client: Client, ledger: Ledger)

  /** A call begins, or the call at some place among those in flight ends. */
  datatype Step = Begins(key: string, at: int) | Ends(place: nat, ending: Ending, at: int)

  function Without<T>(items: seq<T>, i: nat): seq<T>
    requires i < |items|
  {
    items[..i] + items[i + 1..]
  }

  function Tell(c: Governors, told: seq<CB.Event>, events: seq<CB.Event>): seq<CB.Event> {
    if c.limits.Some? then told + events else told
  }

  function NotesOf(call: Call, ending: Ending, at: int): seq<CB.Event> {
    (if ending.Failed? then [] else [CB.Event(call.key, CB.Succeeded, at)])
    + if ending.Returned? then [] else [CB.Event(call.key, CB.Failed, at)]
  }

  function LedgerBegins(c: Governors, l: Ledger, verdict: Verdict, key: string, at: int): Ledger {
    var told := if verdict == RateLimited then l.told else Tell(c, l.told, [CB.Event(key, CB.Asked, at)]);
    if verdict == LetThrough then l.(inFlight := l.inFlight + [Call(key, at)], told := told)
    else l.(refused := l.refused + [Refusal(key, verdict)], told := told)
  }

  function LedgerEnds(c: Governors, l: Ledger, place: nat, ending: Ending, at: int): Ledger
    requires place < |l.inFlight|
  {
    var call := l.inFlight[place];
    l.(inFlight := Without(l.inFlight, place),
       ended := l.ended + [Ended(call, ending, at)],
       told := Tell(c, l.told, NotesOf(call, ending, at)))
  }

  /** There is nothing to do for a call that is not in flight. */
  function Apply(c: Governors, w: World, step: Step): World
    requires Normal(c)
  {
    match step
    case Begins(key, at) =>
      World(AfterAdmit(c, w.client, key, at), LedgerBegins(c, w.ledger, Admit(c, w.client, key, at), key, at))
    case Ends(place, ending, at) =>
      if place >= |w.ledger.inFlight| then w else
      var call := w.ledger.inFlight[place];
      World(AfterEnding(c, w.client, call.key, call.startedAt, ending, at), LedgerEnds(c, w.ledger, place, ending, at))
  }

  function NewClient(c: Governors, now: int): Client {
    Client(if c.bucket.Some? then RL.Start(c.bucket.value, now) else RL.BucketState(0, 0), map[], map[])
  }

  /** The client after a run, made at time `birth`; `resetMetrics` is not called. */
  function After(c: Governors, birth: int, steps: seq<Step>): World
    requires Normal(c)
  {
    if steps == [] then World(NewClient(c, birth), Ledger([], [], [], []))
    else Apply(c, After(c, birth, steps[..|steps| - 1]), steps[|steps| - 1])
  }

  // ----- counting -----

  function Count<T>(items: seq<T>, p: T -> bool): nat {
    if items == [] then 0 else Count(items[..|items| - 1], p) + if p(items[|items| - 1]) then 1 else 0
  }

  function CallsOf(key: string): Call -> bool {
    (call: Call) => call.key == key
  }

  function RefusalsOf(key: string, why: Verdict): Refusal -> bool {
    (refusal: Refusal) => refusal.key == key && refusal.why == why
  }

  function EndedOf(key: string): Ended -> bool {
    (ended: Ended) => ended.call.key == key
  }

  function Successes(key: string): Ended -> bool {
    (ended: Ended) => ended.call.key == key && !ended.ending.Failed?
  }

  function Failures(key: string): Ended -> bool {
    (ended: Ended) => ended.call.key == key && !ended.ending.Returned?
  }

  function LoggerFailures(key: string): Ended -> bool {
    (ended: Ended) => ended.call.key == key && ended.ending.LoggerThrew?
  }

  function EventsOf(key: string, kind: CB.Kind): CB.Event -> bool {
    (event: CB.Event) => event.key == key && event.kind == kind
  }

  function StartsOf(key: string): Step -> bool {
    (step: Step) => step.Begins? && step.key == key
  }

  lemma CountSnoc<T>(items: seq<T>, item: T, p: T -> bool)
    ensures Count(items + [item], p) == Count(items, p) + if p(item) then 1 else 0
  {
    assert (items + [item])[..|items|] == items;
  }

  lemma {:induction false} CountWithout<T>(items: seq<T>, i: nat, p: T -> bool)
    requires i < |items|
    ensures Count(items, p) == Count(Without(items, i), p) + if p(items[i]) then 1 else 0
    decreases |items|
  {
    var n := |items| - 1;
    if i < n {
      CountWithout(items[..n], i, p);
      assert items == items[..n] + [items[n]];
      assert Without(items, i) == Without(items[..n], i) + [items[n]];
      CountSnoc(Without(items[..n], i), items[n], p);
    } else {
      assert Without(items, i) == items[..n];
    }
  }

  // ----- conservation -----

  /** Every call that was started is refused, in flight or ended. */
  predicate CallsConserved(l: Ledger, key: string, started: nat) {
    && started == Count(l.refused, RefusalsOf(key, RateLimited)) + Count(l.refused, RefusalsOf(key, BreakerOpen))
                  + Count(l.ended, EndedOf(key)) + Count(l.inFlight, CallsOf(key))
    && Count(l.ended, Successes(key)) + Count(l.ended, Failures(key))
       == Count(l.ended, EndedOf(key)) + Count(l.ended, LoggerFailures(key))
  }

  /** The metrics know the ended calls. */
  predicate MetricsCount(m: MethodMetrics, l: Ledger, key: string) {
    && m.totalCalls == m.successCalls + m.failedCalls
    && m.successCalls == Count(l.ended, Successes(key))
    && m.failedCalls == Count(l.ended, Failures(key))
  }

  /** The breaker is asked about every call that the limiter lets through, and told how each of them ended. */
  predicate BreakerHears(l: Ledger, key: string, started: nat) {
    && HearsEndings(l.told, l.ended, key)
    && Count(l.told, EventsOf(key, CB.Asked)) + Count(l.refused, RefusalsOf(key, RateLimited)) == started
  }

  predicate HearsEndings(told: seq<CB.Event>, ended: seq<Ended>, key: string) {
    && Count(told, EventsOf(key, CB.Succeeded)) == Count(ended, Successes(key))
    && Count(told, EventsOf(key, CB.Failed)) == Count(ended, Failures(key))
  }

  predicate Balanced(c: Governors, w: World, key: string, started: nat) {
    && CallsConserved(w.ledger, key, started)
    && MetricsCount(MetricsOf(w.client.metrics, key), w.ledger, key)
    && (c.limits.Some? ==> BreakerHears(w.ledger, key, started))
  }

  lemma BeginConserves(c: Governors, l: Ledger, verdict: Verdict, begun: string, at: int, key: string, started: nat)
    requires CallsConserved(l, key, started)
    ensures CallsConserved(LedgerBegins(c, l, verdict, begun, at), key, if begun == key then started + 1 else started)
  {
    CountSnoc(l.inFlight, Call(begun, at), CallsOf(key));
    CountSnoc(l.refused, Refusal(begun, verdict), RefusalsOf(key, RateLimited));
    CountSnoc(l.refused, Refusal(begun, verdict), RefusalsOf(key, BreakerOpen));
  }

  lemma BeginIsHeard(c: Governors, l: Ledger, verdict: Verdict, begun: string, at: int, key: string, started: nat)
    requires c.limits.Some? && BreakerHears(l, key, started)
    ensures BreakerHears(LedgerBegins(c, l, verdict, begun, at), key, if begun == key then started + 1 else started)
  {
    CountSnoc(l.refused, Refusal(begun, verdict), RefusalsOf(key, RateLimited));
    var event := CB.Event(begun, CB.Asked, at);
    CountSnoc(l.told, event, EventsOf(key, CB.Asked));
    CountSnoc(l.told, event, EventsOf(key, CB.Succeeded));
    CountSnoc(l.told, event, EventsOf(key, CB.Failed));
  }

  lemma NotesCount(told: seq<CB.Event>, call: Call, ending: Ending, at: int, key: string, kind: CB.Kind)
    ensures Count(told + NotesOf(call, ending, at), EventsOf(key, kind))
         == Count(told, EventsOf(key, kind))
            + (if call.key == key && kind == CB.Succeeded && !ending.Failed? then 1 else 0)
            + (if call.key == key && kind == CB.Failed && !ending.Returned? then 1 else 0)
  {
    var succeeded, failed := CB.Event(call.key, CB.Succeeded, at), CB.Event(call.key, CB.Failed, at);
    match ending {
      case Returned =>
        CountSnoc(told, succeeded, EventsOf(key, kind));
      case Failed(_) =>
        CountSnoc(told, failed, EventsOf(key, kind));
      case LoggerThrew(_) =>
        CountSnoc(told, succeeded, EventsOf(key, kind));
        CountSnoc(told + [succeeded], failed, EventsOf(key, kind));
        assert told + NotesOf(call, ending, at) == told + [succeeded] + [failed];
    }
  }

  /** The metrics after an ending: each `recordMetrics` adds one to the total and one to one of its parts. */
  lemma EndingCounts(c: Governors, s: Client, key: string, startedAt: int, ending: Ending, at: int, other: string)
    ensures var m, d := MetricsOf(s.metrics, other), MetricsOf(AfterEnding(c, s, key, startedAt, ending, at).metrics, other);
            && d.totalCalls - m.totalCalls == (d.successCalls - m.successCalls) + (d.failedCalls - m.failedCalls)
            && d.successCalls == m.successCalls + (if key == other && !ending.Failed? then 1 else 0)
            && d.failedCalls == m.failedCalls + (if key == other && !ending.Returned? then 1 else 0)
  {
  }

  lemma EndConserves(c: Governors, l: Ledger, place: nat, ending: Ending, at: int, key: string, started: nat)
    requires place < |l.inFlight| && CallsConserved(l, key, started)
    ensures CallsConserved(LedgerEnds(c, l, place, ending, at), key, started)
  {
    var ended := Ended(l.inFlight[place], ending, at);
    CountWithout(l.inFlight, place, CallsOf(key));
    CountSnoc(l.ended, ended, EndedOf(key));
    CountSnoc(l.ended, ended, Successes(key));
    CountSnoc(l.ended, ended, Failures(key));
    CountSnoc(l.ended, ended, LoggerFailures(key));
  }

  lemma NotesAreHeard(told: seq<CB.Event>, ended: seq<Ended>, call: Call, ending: Ending, at: int, key: string)
    requires HearsEndings(told, ended, key)
    ensures HearsEndings(told + NotesOf(call, ending, at), ended + [Ended(call, ending, at)], key)
  {
    CountSnoc(ended, Ended(call, ending, at), Successes(key));
    CountSnoc(ended, Ended(call, ending, at), Failures(key));
    NotesCount(told, call, ending, at, key, CB.Succeeded);
    NotesCount(told, call, ending, at, key, CB.Failed);
  }

  lemma EndIsHeard(c: Governors, l: Ledger, place: nat, ending: Ending, at: int, key: string, started: nat)
    requires c.limits.Some? && place < |l.inFlight| && BreakerHears(l, key, started)
    ensures BreakerHears(LedgerEnds(c, l, place, ending, at), key, started)
  {
    NotesAreHeard(l.told, l.ended, l.inFlight[place], ending, at, key);
    NotesCount(l.told, l.inFlight[place], ending, at, key, CB.Asked);
  }

  lemma EndIsCounted(c: Governors, s: Client, l: Ledger, place: nat, ending: Ending, at: int, key: string)
    requires place < |l.inFlight| && MetricsCount(MetricsOf(s.metrics, key), l, key)
    ensures var call := l.inFlight[place];
            MetricsCount(MetricsOf(AfterEnding(c, s, call.key, call.startedAt, ending, at).metrics, key),
                         LedgerEnds(c, l, place, ending, at), key)
  {
    var call := l.inFlight[place];
    CountSnoc(l.ended, Ended(call, ending, at), Successes(key));
    CountSnoc(l.ended, Ended(call, ending, at), Failures(key));
    EndingCounts(c, s, call.key, call.startedAt, ending, at, key);
  }

  lemma StepBalances(c: Governors, w: World, step: Step, key: string, started: nat)
    requires Normal(c) && Balanced(c, w, key, started)
    ensures Balanced(c, Apply(c, w, step), key, if step.Begins? && step.key == key then started + 1 else started)
  {
    match step {
      case Begins(begun, at) =>
        var verdict := Admit(c, w.client, begun, at);
        BeginConserves(c, w.ledger, verdict, begun, at, key, started);
        if c.limits.Some? {
          BeginIsHeard(c, w.ledger, verdict, begun, at, key, started);
        }
      case Ends(place, ending, at) =>
        if place < |w.ledger.inFlight| {
          EndConserves(c, w.ledger, place, ending, at, key, started);
          EndIsCounted(c, w.client, w.ledger, place, ending, at, key);
          if c.limits.Some? {
            EndIsHeard(c, w.ledger, place, ending, at, key, started);
          }
        }
    }
  }

  /** Conservation of calls, for every key and every interleaving. */
  lemma {:induction false} EveryCallIsAccountedFor(c: Governors, birth: int, steps: seq<Step>, key: string)
    requires Normal(c)
    ensures Balanced(c, After(c, birth, steps), key, Count(steps, StartsOf(key)))
    decreases |steps|
  {
    if steps != [] {
      var before, last := steps[..|steps| - 1], steps[|steps| - 1];
      EveryCallIsAccountedFor(c, birth, before, key);
      StepBalances(c, After(c, birth, before), last, key, Count(before, StartsOf(key)));
    }
  }

  /**
   * `totalCalls` is the number of ended calls, and the breaker hears of each of them once, exactly when no logger threw on
   * a success; each time one did, both count it once too often.
   */
  lemma OneRecordPerCall(c: Governors, birth: int, steps: seq<Step>, key: string)
    requires Normal(c)
    ensures var w := After(c, birth, steps);
            var ended := Count(w.ledger.ended, EndedOf(key));
            var quiet := Count(w.ledger.ended, LoggerFailures(key)) == 0;
            var heard := Count(w.ledger.told, EventsOf(key, CB.Succeeded)) + Count(w.ledger.told, EventsOf(key, CB.Failed));
            && (MetricsOf(w.client.metrics, key).totalCalls == ended <==> quiet)
            && (c.limits.Some? ==> (heard == ended <==> quiet) && heard == MetricsOf(w.client.metrics, key).totalCalls)
  {
    EveryCallIsAccountedFor(c, birth, steps, key);
  }

  // ----- durations and error codes -----

  function Durations(ended: seq<Ended>, key: string): int {
    if ended == [] then 0 else
    var last := ended[|ended| - 1];
    var once := last.at - last.call.startedAt;
    Durations(ended[..|ended| - 1], key)
    + if last.call.key != key then 0 else if last.ending.LoggerThrew? then 2 * once else once
  }

  /** The code of the last failure; one without a code wipes out the one before. */
  function LastErrorCode(ended: seq<Ended>, key: string): Option<string> {
    if ended == [] then None else
    var last := ended[|ended| - 1];
    if last.call.key != key || last.ending.Returned? then LastErrorCode(ended[..|ended| - 1], key)
    else GetErrorCode(last.ending.error)
  }

  predicate MetricsTell(m: MethodMetrics, ended: seq<Ended>, key: string) {
    && m.totalDurationMs == Durations(ended, key)
    && m.averageDurationMs == (if m.totalCalls == 0 then 0.0 else m.totalDurationMs as real / m.totalCalls as real)
    && m.lastErrorCode == LastErrorCode(ended, key)
  }

  /** One key's metrics after an ending of that key. */
  function CountedEnding(m: MethodMetrics, durationMs: int, ending: Ending): MethodMetrics {
    match ending
    case Returned => Counted(m, durationMs, None)
    case Failed(error) => Counted(m, durationMs, Some(error))
    case LoggerThrew(error) => Counted(Counted(m, durationMs, None), durationMs, Some(error))
  }

  lemma EndingIsCounted(c: Governors, s: Client, key: string, startedAt: int, ending: Ending, at: int, other: string)
    ensures MetricsOf(AfterEnding(c, s, key, startedAt, ending, at).metrics, other)
         == if key == other then CountedEnding(MetricsOf(s.metrics, key), at - startedAt, ending)
            else MetricsOf(s.metrics, other)
  {
  }

  lemma EndTells(m: MethodMetrics, ended: seq<Ended>, last: Ended, key: string)
    requires MetricsTell(m, ended, key)
    ensures MetricsTell(if last.call.key == key then CountedEnding(m, last.at - last.call.startedAt, last.ending) else m,
                        ended + [last], key)
  {
    assert (ended + [last])[..|ended|] == ended;
  }

  lemma StepTells(c: Governors, w: World, step: Step, key: string)
    requires Normal(c) && MetricsTell(MetricsOf(w.client.metrics, key), w.ledger.ended, key)
    ensures var d := Apply(c, w, step); MetricsTell(MetricsOf(d.client.metrics, key), d.ledger.ended, key)
  {
    if step.Ends? && step.place < |w.ledger.inFlight| {
      var call := w.ledger.inFlight[step.place];
      var last := Ended(call, step.ending, step.at);
      EndTells(MetricsOf(w.client.metrics, key), w.ledger.ended, last, key);
      EndingIsCounted(c, w.client, call.key, call.startedAt, step.ending, step.at, key);
      assert Apply(c, w, step).ledger.ended == w.ledger.ended + [last];
    }
  }

  lemma {:induction false} MetricsFollowTheEndings(c: Governors, birth: int, steps: seq<Step>, key: string)
    requires Normal(c)
    ensures var w := After(c, birth, steps); MetricsTell(MetricsOf(w.client.metrics, key), w.ledger.ended, key)
    decreases |steps|
  {
    if steps != [] {
      var before, last := steps[..|steps| - 1], steps[|steps| - 1];
      MetricsFollowTheEndings(c, birth, before, key);
      StepTells(c, After(c, birth, before), last, key);
    }
  }

  // ----- the breaker -----

  /** How many calls of a key have failed since the last one that did not, in the order in which they ended. */
  function TrailingFailures(ended: seq<Ended>, key: string): nat {
    if ended == [] then 0 else
    var last, before := ended[|ended| - 1], ended[..|ended| - 1];
    if last.call.key != key then TrailingFailures(before, key)
    else match last.ending
      case Returned => 0
      case Failed(_) => TrailingFailures(before, key) + 1
      case LoggerThrew(_) => 1
  }

  predicate BreakerFollows(l: CB.Limits, entries: CB.Entries, told: seq<CB.Event>, ended: seq<Ended>, key: string) {
    && entries == CB.After(l, told)
    && CB.ConsecutiveFailures(told, key) == TrailingFailures(ended, key)
  }

  lemma ToldOneMore(l: CB.Limits, told: seq<CB.Event>, e: CB.Event, key: string)
    ensures CB.After(l, told + [e]) == CB.Step(l, CB.After(l, told), e)
    ensures CB.ConsecutiveFailures(told + [e], key)
         == if e.key != key then CB.ConsecutiveFailures(told, key)
            else if e.kind == CB.Succeeded then 0
            else if e.kind == CB.Failed then CB.ConsecutiveFailures(told, key) + 1
            else CB.ConsecutiveFailures(told, key)
  {
    assert (told + [e])[..|told|] == told;
  }

  lemma TrailingOneMore(ended: seq<Ended>, last: Ended, key: string)
    ensures TrailingFailures(ended + [last], key)
         == if last.call.key != key then TrailingFailures(ended, key)
            else if last.ending.Failed? then TrailingFailures(ended, key) + 1
            else if last.ending.Returned? then 0 else 1
  {
    assert (ended + [last])[..|ended|] == ended;
  }

  function BreakerAfterEnding(l: CB.Limits, entries: CB.Entries, key: string, ending: Ending, at: int): CB.Entries {
    var succeeded, failed := CB.Event(key, CB.Succeeded, at), CB.Event(key, CB.Failed, at);
    match ending
    case Returned => CB.Step(l, entries, succeeded)
    case Failed(_) => CB.Step(l, entries, failed)
    case LoggerThrew(_) => CB.Step(l, CB.Step(l, entries, succeeded), failed)
  }

  lemma NotesFollow(l: CB.Limits, told: seq<CB.Event>, call: Call, ending: Ending, at: int, key: string)
    ensures CB.After(l, told + NotesOf(call, ending, at))
         == BreakerAfterEnding(l, CB.After(l, told), call.key, ending, at)
    ensures CB.ConsecutiveFailures(told + NotesOf(call, ending, at), key)
         == if call.key != key then CB.ConsecutiveFailures(told, key)
            else if ending.Failed? then CB.ConsecutiveFailures(told, key) + 1
            else if ending.Returned? then 0 else 1
  {
    var succeeded, failed := CB.Event(call.key, CB.Succeeded, at), CB.Event(call.key, CB.Failed, at);
    match ending {
      case Returned =>
        ToldOneMore(l, told, succeeded, key);
      case Failed(_) =>
        ToldOneMore(l, told, failed, key);
      case LoggerThrew(_) =>
        ToldOneMore(l, told, succeeded, key);
        ToldOneMore(l, told + [succeeded], failed, key);
        assert told + NotesOf(call, ending, at) == told + [succeeded] + [failed];
    }
  }

  lemma EndFollows(c: Governors, s: Client, l: Ledger, place: nat, ending: Ending, at: int, key: string)
    requires c.limits.Some? && place < |l.inFlight|
    requires BreakerFollows(c.limits.value, s.breaker, l.told, l.ended, key)
    ensures var call, l1 := l.inFlight[place], LedgerEnds(c, l, place, ending, at);
            BreakerFollows(c.limits.value, AfterEnding(c, s, call.key, call.startedAt, ending, at).breaker,
                           l1.told, l1.ended, key)
  {
    var call := l.inFlight[place];
    TrailingOneMore(l.ended, Ended(call, ending, at), key);
    NotesFollow(c.limits.value, l.told, call, ending, at, key);
    EndingReachesBreaker(c, s, call.key, call.startedAt, ending, at);
  }

  lemma EndingReachesBreaker(c: Governors, s: Client, key: string, startedAt: int, ending: Ending, at: int)
    requires c.limits.Some?
    ensures AfterEnding(c, s, key, startedAt, ending, at).breaker
         == BreakerAfterEnding(c.limits.value, s.breaker, key, ending, at)
  {
  }

  lemma BeginFollows(c: Governors, s: Client, l: Ledger, begun: string, at: int, key: string)
    requires Normal(c) && c.limits.Some?
    requires BreakerFollows(c.limits.value, s.breaker, l.told, l.ended, key)
    ensures var l1 := LedgerBegins(c, l, Admit(c, s, begun, at), begun, at);
            BreakerFollows(c.limits.value, AfterAdmit(c, s, begun, at).breaker, l1.told, l1.ended, key)
  {
    ToldOneMore(c.limits.value, l.told, CB.Event(begun, CB.Asked, at), key);
  }

  predicate WorldFollows(c: Governors, w: World, key: string)
    requires c.limits.Some?
  {
    BreakerFollows(c.limits.value, w.client.breaker, w.ledger.told, w.ledger.ended, key)
  }

  lemma StepFollows(c: Governors, w: World, step: Step, key: string)
    requires Normal(c) && c.limits.Some? && WorldFollows(c, w, key)
    ensures WorldFollows(c, Apply(c, w, step), key)
  {
    if step.Begins? {
      BeginFollows(c, w.client, w.ledger, step.key, step.at, key);
    } else if step.place < |w.ledger.inFlight| {
      EndFollows(c, w.client, w.ledger, step.place, step.ending, step.at, key);
    }
  }

  lemma {:induction false} EveryRunFollows(c: Governors, birth: int, steps: seq<Step>, key: string)
    requires Normal(c) && c.limits.Some?
    ensures WorldFollows(c, After(c, birth, steps), key)
    decreases |steps|
  {
    if steps != [] {
      EveryRunFollows(c, birth, steps[..|steps| - 1], key);
      StepFollows(c, After(c, birth, steps[..|steps| - 1]), steps[|steps| - 1], key);
    }
  }

  /**
   * The breaker stops being closed for a method exactly when its last `failureThreshold` calls to end have failed,
   * whatever order they began in and whatever was refused meanwhile.
   */
  lemma BreakerTripsOnTrailingFailures(c: Governors, birth: int, steps: seq<Step>, key: string)
    requires Normal(c) && c.limits.Some?
    ensures var w := After(c, birth, steps);
            CB.EntryOf(w.client.breaker, key).state != CB.Closed
            <==> TrailingFailures(w.ledger.ended, key) >= c.limits.value.failureThreshold
  {
    EveryRunFollows(c, birth, steps, key);
    CB.HistoryLaw(c.limits.value, After(c, birth, steps).ledger.told, key);
  }

  // ----- the limiter -----

  function Asks(steps: seq<Step>): seq<RL.Op> {
    if steps == [] then [] else
    var last := steps[|steps| - 1];
    Asks(steps[..|steps| - 1]) + if last.Begins? then [RL.Allow(last.at)] else []
  }

  function Started(): Step -> bool {
    (step: Step) => step.Begins?
  }

  function LimitedRefusals(): Refusal -> bool {
    (refusal: Refusal) => refusal.why == RateLimited
  }

  lemma {:induction false} AskOneMore(b: RL.Bucket, s: RL.BucketState, ops: seq<RL.Op>, op: RL.Op)
    requires RL.Positive(b)
    ensures RL.AfterAll(b, s, ops + [op]) == RL.After(b, RL.AfterAll(b, s, ops), op)
    ensures RL.Admissions(b, s, ops + [op])
         == RL.Admissions(b, s, ops) + if RL.Answer(b, RL.AfterAll(b, s, ops), op) == RL.Admitted then 1 else 0
    decreases |ops|
  {
    if ops == [] {
      assert ops + [op] == [op] && [op][1..] == [];
    } else {
      AskOneMore(b, RL.After(b, s, ops[0]), ops[1..], op);
      assert (ops + [op])[1..] == ops[1..] + [op];
    }
  }

  /** What one step does to the limiter and to the count of calls that it refused. */
  lemma StepAsks(c: Governors, w: World, step: Step)
    requires Normal(c) && c.bucket.Some?
    ensures var b, d := c.bucket.value, Apply(c, w, step);
            if step.Begins? then
              && d.client.bucket == RL.After(b, w.client.bucket, RL.Allow(step.at))
              && Count(d.ledger.refused, LimitedRefusals())
                 == Count(w.ledger.refused, LimitedRefusals())
                    + if RL.Answer(b, w.client.bucket, RL.Allow(step.at)) == RL.Admitted then 0 else 1
            else d.client.bucket == w.client.bucket && d.ledger.refused == w.ledger.refused
  {
    if step.Begins? {
      CountSnoc(w.ledger.refused, Refusal(step.key, Admit(c, w.client, step.key, step.at)), LimitedRefusals());
    }
  }

  /** The limiter is asked once for every call, and lets through those that were not refused by it. */
  lemma {:induction false} LimiterIsAskedOnce(c: Governors, birth: int, steps: seq<Step>)
    requires Normal(c) && c.bucket.Some?
    ensures var b, w := c.bucket.value, After(c, birth, steps);
            && w.client.bucket == RL.AfterAll(b, RL.Start(b, birth), Asks(steps))
            && Count(steps, Started())
               == RL.Admissions(b, RL.Start(b, birth), Asks(steps)) + Count(w.ledger.refused, LimitedRefusals())
    decreases |steps|
  {
    if steps != [] {
      var before, last := steps[..|steps| - 1], steps[|steps| - 1];
      LimiterIsAskedOnce(c, birth, before);
      StepAsks(c, After(c, birth, before), last);
      if last.Begins? {
        AskOneMore(c.bucket.value, RL.Start(c.bucket.value, birth), Asks(before), RL.Allow(last.at));
      } else {
        assert Asks(steps) == Asks(before);
      }
    }
  }

  lemma {:induction false} AsksAreNoLater(steps: seq<Step>, latest: int)
    requires forall step <- steps :: step.Begins? ==> step.at <= latest
    ensures RL.NoLaterThan(Asks(steps), latest)
    decreases |steps|
  {
    if steps != [] {
      var before := steps[..|steps| - 1];
      assert forall step <- before :: step in steps;
      AsksAreNoLater(before, latest);
      assert steps[|steps| - 1] in steps;
    }
  }

  /**
   * However calls overlap, at most C + R * floor((latest - birth) / I) of those begun by then were not rate limited. Calls
   * that the breaker refuses count among them: they have used up a token.
   */
  lemma CallsThroughTheLimiter(c: Governors, birth: int, steps: seq<Step>, latest: int)
    requires Normal(c) && c.bucket.Some? && birth <= latest
    requires forall step <- steps :: step.Begins? ==> step.at <= latest
    ensures var b := c.bucket.value;
            Count(steps, Started()) - Count(After(c, birth, steps).ledger.refused, LimitedRefusals())
            <= b.capacity + b.refillTokens * ((latest - birth) / b.refillIntervalMs)
  {
    LimiterIsAskedOnce(c, birth, steps);
    AsksAreNoLater(steps, latest);
    RL.TotalBound(c.bucket.value, birth, Asks(steps), latest);
  }

  /** A call that the breaker refuses has still cost a token. */
  lemma RefusedByBreakerCostsAToken(c: Governors, s: Client, key: string, now: int)
    requires Normal(c) && c.bucket.Some? && Admit(c, s, key, now) == BreakerOpen
    ensures AfterAdmit(c, s, key, now).bucket.tokens == RL.Refill(c.bucket.value, s.bucket, now).tokens - 1
    ensures AfterAdmit(c, s, key, now).metrics == s.metrics
  {
  }

  // ----- who is let through -----

  /** The limiter has a token for a call at this time, or there is no limiter. */
  predicate HasToken(c: Governors, s: RL.BucketState, at: int)
    requires Normal(c)
  {
    c.bucket.Some? ==> RL.Refill(c.bucket.value, s, at).tokens > 0
  }

  /**
   * The key has failed often enough since its last success, no request has been let through since the breaker last opened,
   * and that was less than `resetTimeoutMs` ago.
   */
  predicate TurnedAway(c: Governors, l: Ledger, key: string, at: int) {
    && c.limits.Some?
    && var limits := c.limits.value;
       && TrailingFailures(l.ended, key) >= limits.failureThreshold
       && !CB.Probed(limits, l.told, key)
       && CB.LastOpened(limits, l.told, key).Some?
       && at - CB.LastOpened(limits, l.told, key).value < limits.resetTimeoutMs
  }

  lemma BlockedExactlyWhen(c: Governors, birth: int, steps: seq<Step>, key: string, at: int)
    requires Normal(c)
    ensures var w := After(c, birth, steps);
            Blocked(c, w.client.breaker, key, at) <==> TurnedAway(c, w.ledger, key, at)
  {
    if c.limits.Some? {
      EveryRunFollows(c, birth, steps, key);
      CB.RefusalLaw(c.limits.value, After(c, birth, steps).ledger.told, key, at);
    }
  }

  lemma LimitedExactlyWhen(c: Governors, s: RL.BucketState, at: int)
    requires Normal(c)
    ensures Limited(c, s, at) <==> !HasToken(c, s, at)
  {
  }

  /**
   * Whom the gates turn away, in every run: a call that finds no token is refused as rate limited; one with a token is
   * refused by the breaker exactly while its key's trailing failures have reached the threshold, no probe is out and the
   * reset timeout has not passed; every other call goes ahead.
   */
  lemma CallsAreLetThroughExactlyWhen(c: Governors, birth: int, steps: seq<Step>, key: string, at: int)
    requires Normal(c)
    ensures var w := After(c, birth, steps);
            var l, l1 := w.ledger, After(c, birth, steps + [Begins(key, at)]).ledger;
            if !HasToken(c, w.client.bucket, at) then
              l1.refused == l.refused + [Refusal(key, RateLimited)] && l1.inFlight == l.inFlight
            else if TurnedAway(c, l, key, at) then
              l1.refused == l.refused + [Refusal(key, BreakerOpen)] && l1.inFlight == l.inFlight
            else
              l1.inFlight == l.inFlight + [Call(key, at)] && l1.refused == l.refused
  {
    assert (steps + [Begins(key, at)])[..|steps|] == steps;
    BlockedExactlyWhen(c, birth, steps, key, at);
    LimitedExactlyWhen(c, After(c, birth, steps).client.bucket, at);
  }
}
