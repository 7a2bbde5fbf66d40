/**
 * The worker pool of packages/benchmark/src/shared/runner.ts: `concurrency` workers take request numbers from a shared
 * counter until it has passed `totalRequests`. The code between two awaits of `task()` is one step.
 */
module Benchmark {
  import opened Common

  /** A worker awaits `task()`, or has returned. */
  datatype Worker = Awaiting(index: nat, startedAt: int) | Finished

  /** The shared variables, the suspended workers, and for each request number taken, who took it. */
  datatype Pool = Pool(
    nextRequestIndex: nat,
    successRequests: nat,
    failedRequests: nat,
    latencies: seq<int>,
    workers: seq<Worker>,
    claimedBy: seq<nat>,
    settled: seq<nat>)

  const NEW_POOL: Pool := Pool(0, 0, 0, [], [], [], [])

  /** The head of the loop, for worker number `w`. */
  function Claim(total: int, p: Pool, w: nat, now: int): Pool
    requires w < |p.workers|
  {
    var index := p.nextRequestIndex;
    if index >= total then p.(nextRequestIndex := index + 1, workers := p.workers[w := Finished])
    else p.(nextRequestIndex := index + 1, workers := p.workers[w := Awaiting(index, now)], claimedBy := p.claimedBy + [w])
  }

  function Record(p: Pool, ok: bool, index: nat, latency: int): Pool {
    p.(successRequests := if ok then p.successRequests + 1 else p.successRequests,
       failedRequests := if ok then p.failedRequests else p.failedRequests + 1,
       latencies := p.latencies + [latency],
       settled := p.settled + [index])
  }

  /** What worker `w` awaits settles: it is recorded, and the worker goes round its loop. */
  function Settle(total: int, p: Pool, w: nat, ok: bool, now: int): Pool {
    if w >= |p.workers| || p.workers[w].Finished? then p
    else Claim(total, Record(p, ok, p.workers[w].index, now - p.workers[w].startedAt), w, now)
  }

  /** All workers start in one go, each running up to its first await. */
  function Started(total: int, concurrency: nat, now: int): (p: Pool)
    ensures |p.workers| == concurrency
  {
    if concurrency == 0 then NEW_POOL else
    var p := Started(total, concurrency - 1, now);
    Claim(total, p.(workers := p.workers + [Finished]), concurrency - 1, now)
  }

  datatype Event = Settles(worker: nat, ok: bool, at: int)

  function After(total: int, concurrency: nat, now: int, events: seq<Event>): Pool {
    if events == [] then Started(total, concurrency, now) else
    var last := events[|events| - 1];
    Settle(total, After(total, concurrency, now, events[..|events| - 1]), last.worker, last.ok, last.at)
  }

  class BenchmarkRun {
    const totalRequests: int
    var nextRequestIndex: nat
    var successRequests: nat
    var failedRequests: nat
    var latencies: seq<int>
    var workers: seq<Worker>
    ghost var claimedBy: seq<nat>
    ghost var settled: seq<nat>

    ghost function View(): Pool
      reads this
    {
      Pool(nextRequestIndex, successRequests, failedRequests, latencies, workers, claimedBy, settled)
    }

    constructor (totalRequests: int, concurrency: nat, now: int)
      ensures this.totalRequests == totalRequests && View() == Started(totalRequests, concurrency, now)
    {
      this.totalRequests := totalRequests;
      nextRequestIndex, successRequests, failedRequests := 0, 0, 0;
      latencies, workers, claimedBy, settled := [], [], [], [];
      new;
      for w := 0 to concurrency
        invariant View() == Started(totalRequests, w, now)
      {
        workers := workers + [Finished];
        TakeNext(w, now);
      }
    }

    method TakeNext(w: nat, now: int)
      requires w < |workers|
      modifies this
      ensures View() == Claim(totalRequests, old(View()), w, now)
    {
      var requestIndex := nextRequestIndex;
      nextRequestIndex := nextRequestIndex + 1;
      if requestIndex >= totalRequests {
        workers := workers[w := Finished];
        return;
      }
      workers := workers[w := Awaiting(requestIndex, now)];
      claimedBy := claimedBy + [w];
    }

    method TaskSettles(w: nat, ok: bool, now: int)
      modifies this
      ensures View() == Settle(totalRequests, old(View()), w, ok, now)
    {
      if w >= |workers| || workers[w].Finished? {
        return;
      }
      if ok {
        successRequests := successRequests + 1;
      } else {
        failedRequests := failedRequests + 1;
      }
      latencies := latencies + [now - workers[w].startedAt];
      settled := settled + [workers[w].index];
      TakeNext(w, now);
    }
  }

  // ----- conservation of work -----

  function CountAwaiting(workers: seq<Worker>): nat {
    if workers == [] then 0
    else CountAwaiting(workers[..|workers| - 1]) + if workers[|workers| - 1].Awaiting? then 1 else 0
  }

  lemma {:induction false} CountUpdate(workers: seq<Worker>, w: nat, worker: Worker)
    requires w < |workers|
    ensures CountAwaiting(workers[w := worker])
         == CountAwaiting(workers) - (if workers[w].Awaiting? then 1 else 0) + if worker.Awaiting? then 1 else 0
    decreases |workers|
  {
    var n := |workers| - 1;
    if w < n {
      CountUpdate(workers[..n], w, worker);
      assert workers[w := worker][..n] == workers[..n][w := worker];
    } else {
      assert workers[w := worker][..n] == workers[..n];
    }
  }

  lemma {:induction false} NoneAwaiting(workers: seq<Worker>)
    requires forall worker <- workers :: worker.Finished?
    ensures CountAwaiting(workers) == 0
    decreases |workers|
  {
    if workers != [] {
      assert workers[|workers| - 1] in workers && forall worker <- workers[..|workers| - 1] :: worker in workers;
      NoneAwaiting(workers[..|workers| - 1]);
    }
  }

  /** Where request number i is: with the worker that took it, or settled. */
  predicate IsWith(p: Pool, i: nat)
    requires i < |p.claimedBy|
  {
    p.claimedBy[i] < |p.workers| && p.workers[p.claimedBy[i]].Awaiting? && p.workers[p.claimedBy[i]].index == i
  }

  /** A request number taken is with its one worker or has settled, and never both. */
  ghost predicate ClaimsOk(p: Pool) {
    && (forall i | 0 <= i < |p.claimedBy| :: IsWith(p, i) <==> i !in p.settled)
    && (forall w | 0 <= w < |p.workers| && p.workers[w].Awaiting? ::
          p.workers[w].index < |p.claimedBy| && p.claimedBy[p.workers[w].index] == w)
  }

  ghost predicate SettledOk(p: Pool) {
    && (forall i <- p.settled :: i < |p.claimedBy|)
    && (forall j, k | 0 <= j < k < |p.settled| :: p.settled[j] != p.settled[k])
  }

  /** The counters; the shared counter runs past the total once for every worker that has returned. */
  predicate CountsOk(total: int, p: Pool) {
    && |p.claimedBy| == Min(p.nextRequestIndex, Max(0, total))
    && p.successRequests + p.failedRequests == |p.latencies| == |p.settled|
    && |p.settled| + CountAwaiting(p.workers) == |p.claimedBy|
    && p.nextRequestIndex == |p.claimedBy| + |p.workers| - CountAwaiting(p.workers)
  }

  ghost predicate PoolOk(total: int, p: Pool) {
    ClaimsOk(p) && SettledOk(p) && CountsOk(total, p)
  }

  /** All is well except that worker `w`, which has just recorded its request, has not looped yet. */
  ghost predicate ReadyToLoop(total: int, p: Pool, w: nat) {
    && w < |p.workers| && p.workers[w].Finished?
    && ClaimsOk(p) && SettledOk(p)
    && |p.claimedBy| == Min(p.nextRequestIndex, Max(0, total))
    && p.successRequests + p.failedRequests == |p.latencies| == |p.settled|
    && |p.settled| + CountAwaiting(p.workers) == |p.claimedBy|
    && p.nextRequestIndex == |p.claimedBy| + |p.workers| - 1 - CountAwaiting(p.workers)
  }

  lemma ClaimIsOk(total: int, p: Pool, w: nat, now: int)
    requires ReadyToLoop(total, p, w)
    ensures PoolOk(total, Claim(total, p, w, now))
  {
    CountUpdate(p.workers, w, Finished);
    CountUpdate(p.workers, w, Awaiting(p.nextRequestIndex, now));
  }

  lemma ClaimIgnoresWorker(total: int, p: Pool, w: nat, now: int)
    requires w < |p.workers|
    ensures Claim(total, p.(workers := p.workers[w := Finished]), w, now) == Claim(total, p, w, now)
  {
    assert p.workers[w := Finished][w := Finished] == p.workers[w := Finished];
    assert p.workers[w := Finished][w := Awaiting(p.nextRequestIndex, now)]
        == p.workers[w := Awaiting(p.nextRequestIndex, now)];
  }

  lemma RecordIsReady(total: int, p: Pool, w: nat, ok: bool, latency: int)
    requires PoolOk(total, p) && w < |p.workers| && p.workers[w].Awaiting?
    ensures var r := Record(p, ok, p.workers[w].index, latency);
            ReadyToLoop(total, r.(workers := r.workers[w := Finished]), w)
  {
    CountUpdate(p.workers, w, Finished);
    var index := p.workers[w].index;
    assert IsWith(p, index);
    var d := Record(p, ok, index, latency);
    var r := d.(workers := d.workers[w := Finished]);
    forall i | 0 <= i < |r.claimedBy|
      ensures IsWith(r, i) <==> i !in r.settled
    {
      assert IsWith(p, i) <==> i !in p.settled;
      assert i in r.settled <==> i in p.settled || i == index;
    }
  }

  lemma SettleKeepsPoolOk(total: int, p: Pool, w: nat, ok: bool, now: int)
    requires PoolOk(total, p)
    ensures PoolOk(total, Settle(total, p, w, ok, now))
  {
    if w < |p.workers| && p.workers[w].Awaiting? {
      var latency := now - p.workers[w].startedAt;
      var r := Record(p, ok, p.workers[w].index, latency);
      RecordIsReady(total, p, w, ok, latency);
      ClaimIsOk(total, r.(workers := r.workers[w := Finished]), w, now);
      ClaimIgnoresWorker(total, r, w, now);
    }
  }

  lemma NewWorkerIsReady(total: int, p: Pool)
    requires PoolOk(total, p)
    ensures ReadyToLoop(total, p.(workers := p.workers + [Finished]), |p.workers|)
  {
    var r := p.(workers := p.workers + [Finished]);
    assert r.workers[..|p.workers|] == p.workers;
    forall i | 0 <= i < |r.claimedBy|
      ensures IsWith(r, i) <==> i !in r.settled
    {
      assert IsWith(p, i) <==> i !in p.settled;
    }
  }

  lemma {:induction false} StartedIsOk(total: int, concurrency: nat, now: int)
    ensures PoolOk(total, Started(total, concurrency, now))
    decreases concurrency
  {
    if concurrency > 0 {
      StartedIsOk(total, concurrency - 1, now);
      var p := Started(total, concurrency - 1, now);
      NewWorkerIsReady(total, p);
      ClaimIsOk(total, p.(workers := p.workers + [Finished]), concurrency - 1, now);
    }
  }

  /** In every run, each request number taken is with exactly one worker until it settles, once. */
  lemma {:induction false} EveryRunKeepsPoolOk(total: int, concurrency: nat, now: int, events: seq<Event>)
    ensures PoolOk(total, After(total, concurrency, now, events))
    ensures |After(total, concurrency, now, events).workers| == concurrency
    decreases |events|
  {
    if events == [] {
      StartedIsOk(total, concurrency, now);
    } else {
      var before, last := events[..|events| - 1], events[|events| - 1];
      EveryRunKeepsPoolOk(total, concurrency, now, before);
      SettleKeepsPoolOk(total, After(total, concurrency, now, before), last.worker, last.ok, last.at);
    }
  }

  /**
   * When every worker has returned, each request number below the total has settled exactly once, successes and failures
   * add up to the latencies and to the total, and the counter has gone `concurrency` past the total.
   */
  lemma WorkIsConserved(total: int, concurrency: nat, now: int, events: seq<Event>)
    requires concurrency >= 1
    requires forall worker <- After(total, concurrency, now, events).workers :: worker.Finished?
    ensures var p := After(total, concurrency, now, events);
            && p.successRequests + p.failedRequests == |p.latencies| == Max(0, total)
            && p.nextRequestIndex == Max(0, total) + concurrency
            && (forall i: nat :: i < total <==> i in p.settled)
            && (forall j, k | 0 <= j < k < |p.settled| :: p.settled[j] != p.settled[k])
  {
    var p := After(total, concurrency, now, events);
    EveryRunKeepsPoolOk(total, concurrency, now, events);
    NoneAwaiting(p.workers);
    forall i: nat
      ensures i < total <==> i in p.settled
    {
      if i < |p.claimedBy| {
        assert IsWith(p, i) <==> i !in p.settled;
        assert p.claimedBy[i] < |p.workers| ==> p.workers[p.claimedBy[i]] in p.workers;
      }
    }
  }

  /** No worker returns while there is a request left to take. */
  lemma NoWorkerLeavesEarly(total: int, concurrency: nat, now: int, events: seq<Event>, w: nat)
    requires w < concurrency
    ensures var p := After(total, concurrency, now, events);
            w < |p.workers| && (p.workers[w].Finished? ==> |p.claimedBy| == Max(0, total))
  {
    EveryRunKeepsPoolOk(total, concurrency, now, events);
    var p := After(total, concurrency, now, events);
    if p.workers[w].Finished? {
      AllButOne(p.workers, w);
    }
  }

  lemma {:induction false} AllButOne(workers: seq<Worker>, w: nat)
    requires w < |workers| && workers[w].Finished?
    ensures CountAwaiting(workers) <= |workers| - 1
    decreases |workers|
  {
    var n := |workers| - 1;
    if w < n {
      AllButOne(workers[..n], w);
    } else {
      AtMostAll(workers[..n]);
    }
  }

  lemma {:induction false} AtMostAll(workers: seq<Worker>)
    ensures CountAwaiting(workers) <= |workers|
    decreases |workers|
  {
    if workers != [] {
      AtMostAll(workers[..|workers| - 1]);
    }
  }

  // ----- what is reported -----

  /** Whether the event finds its worker waiting. */
  predicate Counts(p: Pool, e: Event) {
    e.worker < |p.workers| && p.workers[e.worker].Awaiting?
  }

  /** How many of the settlements that found their worker waiting were successes, or failures. */
  function Reported(total: int, concurrency: nat, now: int, events: seq<Event>, ok: bool): nat {
    if events == [] then 0 else
    var before, last := events[..|events| - 1], events[|events| - 1];
    Reported(total, concurrency, now, before, ok)
    + if Counts(After(total, concurrency, now, before), last) && last.ok == ok then 1 else 0
  }

  /** When a worker began to wait: at its last settlement, or at the start. */
  function WaitsSince(events: seq<Event>, w: nat, now: int): int {
    if events == [] then now else
    var before, last := events[..|events| - 1], events[|events| - 1];
    if last.worker == w then last.at else WaitsSince(before, w, now)
  }

  function WaitingTimes(total: int, concurrency: nat, now: int, events: seq<Event>): seq<int> {
    if events == [] then [] else
    var before, last := events[..|events| - 1], events[|events| - 1];
    WaitingTimes(total, concurrency, now, before)
    + if Counts(After(total, concurrency, now, before), last) then [last.at - WaitsSince(before, last.worker, now)] else []
  }

  predicate Waits(p: Pool, events: seq<Event>, now: int, w: nat) {
    w < |p.workers| && p.workers[w].Awaiting? ==> p.workers[w].startedAt == WaitsSince(events, w, now)
  }

  lemma {:induction false} StartedWaits(total: int, concurrency: nat, now: int)
    ensures var p := Started(total, concurrency, now);
            && p.successRequests == 0 && p.failedRequests == 0 && p.latencies == []
            && forall w: nat :: Waits(p, [], now, w)
    decreases concurrency
  {
    if concurrency > 0 {
      StartedWaits(total, concurrency - 1, now);
      var p := Started(total, concurrency - 1, now);
      forall w: nat
        ensures Waits(Started(total, concurrency, now), [], now, w)
      {
        assert Waits(p, [], now, w);
      }
    }
  }

  predicate ReportsOk(total: int, concurrency: nat, now: int, events: seq<Event>, p: Pool) {
    && p.successRequests == Reported(total, concurrency, now, events, true)
    && p.failedRequests == Reported(total, concurrency, now, events, false)
    && p.latencies == WaitingTimes(total, concurrency, now, events)
  }

  lemma SettlingWaits(total: int, p: Pool, events: seq<Event>, last: Event, now: int, w: nat)
    requires Waits(p, events, now, w)
    ensures Waits(Settle(total, p, last.worker, last.ok, last.at), events + [last], now, w)
  {
    assert (events + [last])[..|events|] == events;
  }

  lemma SettlingReports(total: int, concurrency: nat, now: int, events: seq<Event>, last: Event)
    requires var p := After(total, concurrency, now, events);
             ReportsOk(total, concurrency, now, events, p) && Waits(p, events, now, last.worker)
    ensures ReportsOk(total, concurrency, now, events + [last], After(total, concurrency, now, events + [last]))
  {
    assert (events + [last])[..|events|] == events;
  }

  /** The counters are the successes and failures reported, and each latency is how long its worker waited. */
  lemma {:induction false} OutcomesAreCounted(total: int, concurrency: nat, now: int, events: seq<Event>)
    ensures var p := After(total, concurrency, now, events);
            ReportsOk(total, concurrency, now, events, p) && forall w: nat :: Waits(p, events, now, w)
    decreases |events|
  {
    if events == [] {
      StartedWaits(total, concurrency, now);
    } else {
      var before, last := events[..|events| - 1], events[|events| - 1];
      OutcomesAreCounted(total, concurrency, now, before);
      assert events == before + [last];
      SettlingReports(total, concurrency, now, before, last);
      forall w: nat
        ensures Waits(After(total, concurrency, now, events), events, now, w)
      {
        SettlingWaits(total, After(total, concurrency, now, before), before, last, now, w);
      }
    }
  }
}
