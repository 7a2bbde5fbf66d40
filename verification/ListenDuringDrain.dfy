/**
 * Why `listen` and a drain do not go together (packages/core/src/server/rpc-server.ts): a graceful close that still waits is
 * safe exactly as long as nobody has called `listen`. The runs that break it are ones that the event loop can take.
 */
module ListenDuringDrain {
  import opened Messages
  import opened Codec
  import opened Server
  import opened ServerProofs

  predicate NoListen(events: seq<Event>) {
    forall e <- events :: !e.ListenStarts? && !e.ListenDone?
  }

  /** Nobody calls `listen` any more; a call that is under way may still complete, for the server that it has made. */
  predicate NoFurtherListen(cfg: CodecConfig, s: Srv, events: seq<Event>)
    decreases |events|
  {
    events == [] || (&& !events[0].ListenStarts? && (events[0].ListenDone? ==> s.drain.hasServer)
                     && NoFurtherListen(cfg, Step(cfg, s, events[0]), events[1..]))
  }

  /** A graceful close that waits for the drain: neither resolved nor timed out. */
  predicate Waits(d: Shutdown, i: nat) {
    && i < |d.closes| && d.closes[i].graceful && d.closes[i].phase == AwaitingDrain && d.closes[i].waiter.Some?
    && d.closes[i].waiter.value < |d.waiters| && d.waiters[d.closes[i].waiter.value] == Waiting
  }

  /** When the close goes on to destroy the connections without its timer having fired, nothing is active. */
  predicate Safe(s: Srv, i: nat) {
    (&& CanCloseConnections(s.drain, i)
     && (s.drain.closes[i].waiter.Some? ==> s.drain.waiters[s.drain.closes[i].waiter.value] != TimedOut))
    ==> s.work.activeRequests == 0
  }

  /**
   * The waiting close began in a run without `listen` during a drain; since then either nobody has called `listen`, or a
   * call of it is under way, in which the state is `draining` still, or one has completed.
   */
  ghost predicate Pending(s: Srv, i: nat) {
    && ServerOk(s.(drain := s.drain.(state := Draining, hasServer := false)))
    && Waits(s.drain, i)
    && (s.drain.state == Draining || (s.drain.state == Listening && s.drain.hasServer))
  }

  /** Such states come about: by waiting in a clean run, by calling `listen` then, and by its completion. */
  lemma CleanWaitIsPending(s: Srv, i: nat)
    requires ServerOk(s) && Waits(s.drain, i)
    ensures Pending(s, i) && s.drain.state == Draining && !s.drain.hasServer
  {
    assert s.drain.closes[i] in s.drain.closes && CloseOk(s.drain, s.work.activeRequests, s.drain.closes[i]);
    assert s.drain.(state := Draining, hasServer := false) == s.drain;
  }

  lemma ListenKeepsPending(cfg: CodecConfig, s: Srv, i: nat)
    requires Pending(s, i)
    ensures var d := Step(cfg, s, ListenStarts); Pending(d, i) && d.drain.hasServer && d.drain.state == s.drain.state
    ensures s.drain.hasServer ==> var d := Step(cfg, s, ListenDone); Pending(d, i) && d.drain.state == Listening
  {
    var d, e := Step(cfg, s, ListenStarts), Step(cfg, s, ListenDone);
    assert d.drain.(state := Draining, hasServer := false) == s.drain.(state := Draining, hasServer := false);
    assert e.drain.(state := Draining, hasServer := false) == s.drain.(state := Draining, hasServer := false);
  }

  // ----- what the event loop can do -----

  /**
   * A continuation that is due runs before the next event; a `listen` completes for a server that has been made; data
   * comes on sockets that are open, connections come to a listening server, and no write succeeds on a destroyed socket.
   */
  ghost predicate Possible(s: Srv, e: Event) {
    && ((exists j :: CanCloseConnections(s.drain, j)) ==> e.CloseResumes?)
    && (e.ListenDone? ==> s.drain.hasServer)
    && (e.DataReceived? ==> e.socket in s.sockets && e.socket !in s.work.destroyed)
    && (e.Accepted? ==>
          s.drain.hasServer && s.drain.state == Listening && e.socket !in s.sockets && e.socket !in s.work.destroyed)
    && (e.WriteSettles? && e.ok && e.handler < |s.work.handlers| ==> s.work.handlers[e.handler].socket !in s.work.destroyed)
  }

  ghost predicate AllPossible(cfg: CodecConfig, s: Srv, events: seq<Event>)
    decreases |events|
  {
    events == [] || (Possible(s, events[0]) && AllPossible(cfg, Step(cfg, s, events[0]), events[1..]))
  }

  lemma {:induction false} RunAppend(cfg: CodecConfig, s: Srv, a: seq<Event>, b: seq<Event>)
    ensures Run(cfg, s, a + b) == Run(cfg, Run(cfg, s, a), b)
    ensures AllPossible(cfg, s, a + b) <==> AllPossible(cfg, s, a) && AllPossible(cfg, Run(cfg, s, a), b)
    decreases |a|
  {
    if a == [] {
      assert a + b == b;
    } else {
      assert (a + b)[0] == a[0] && (a + b)[1..] == a[1..] + b;
      RunAppend(cfg, Step(cfg, s, a[0]), a[1..], b);
    }
  }

  lemma RunOne(cfg: CodecConfig, s: Srv, e: Event)
    ensures Run(cfg, s, [e]) == Step(cfg, s, e)
    ensures AllPossible(cfg, s, [e]) <==> Possible(s, e)
  {
    assert [e][1..] == [];
  }

  lemma RunTwo(cfg: CodecConfig, s: Srv, e1: Event, e2: Event)
    ensures Run(cfg, s, [e1, e2]) == Step(cfg, Step(cfg, s, e1), e2)
    ensures AllPossible(cfg, s, [e1, e2]) <==> Possible(s, e1) && Possible(Step(cfg, s, e1), e2)
  {
    assert [e1, e2] == [e1] + [e2];
    RunAppend(cfg, s, [e1], [e2]);
    RunOne(cfg, s, e1);
    RunOne(cfg, Step(cfg, s, e1), e2);
  }

  // ----- before any `listen`: safe -----

  /** Without a server no `listen` can complete, and only a call of it makes one. */
  lemma {:induction false} NoFurtherListenIsClean(cfg: CodecConfig, s: Srv, events: seq<Event>)
    requires !s.drain.hasServer && NoFurtherListen(cfg, s, events)
    ensures NoListenWhileDraining(cfg, s, events)
    decreases |events|
  {
    if events != [] {
      NoServerStays(cfg, s, events[0]);
      NoFurtherListenIsClean(cfg, Step(cfg, s, events[0]), events[1..]);
    }
  }

  lemma NoServerStays(cfg: CodecConfig, s: Srv, e: Event)
    requires !s.drain.hasServer && !e.ListenStarts?
    ensures !Step(cfg, s, e).drain.hasServer
  {
  }

  /** Before any `listen`, no run in which nobody calls it breaks the close. */
  lemma UnlistenedIsSafe(cfg: CodecConfig, s: Srv, i: nat, events: seq<Event>)
    requires Pending(s, i) && !s.drain.hasServer && NoFurtherListen(cfg, s, events)
    ensures Safe(Run(cfg, s, events), i)
  {
    assert s.drain.(state := Draining, hasServer := false) == s.drain;
    NoFurtherListenIsClean(cfg, s, events);
    EveryRunKeepsServerOk(cfg, s, events);
    var d := Run(cfg, s, events);
    if CanCloseConnections(d.drain, i) {
      assert d.drain.closes[i] in d.drain.closes && CloseOk(d.drain, d.work.activeRequests, d.drain.closes[i]);
    }
  }

  // ----- after a `listen`: not safe -----

  /** Handler `h` has accepted its first request, on an open socket of its own, and has another request behind it. */
  ghost predicate HoldsTwo(s: Srv, h: nat, x: nat, request: RpcMessage, next: RpcMessage) {
    && WorkOk(s.work) && h < |s.work.handlers|
    && s.work.handlers[h].socket == x && s.work.handlers[h].rest == [next] && s.work.handlers[h].phase.AwaitingInvoke?
    && s.work.handlers[h].phase.request < |s.work.requests|
    && s.work.requests[s.work.handlers[h].phase.request].request == request
    && request.Request? && next.Request?
    && x !in s.work.destroyed
    && (forall g | 0 <= g < |s.work.handlers| && g != h :: s.work.handlers[g].socket != x)
  }

  ghost predicate NothingDue(d: Shutdown) {
    forall j: nat :: !CanCloseConnections(d, j)
  }

  /** Another busy handler can be done with: its method settles, and its write fails. */
  lemma WriteFails(cfg: CodecConfig, s: Srv, h: nat, x: nat, request: RpcMessage, next: RpcMessage, g: nat)
    requires HoldsTwo(s, h, x, request, next) && NothingDue(s.drain)
    requires g < |s.work.handlers| && g != h && s.work.handlers[g].phase.AwaitingWrite? && s.work.activeRequests > 1
    ensures var d := Step(cfg, s, WriteSettles(g, false));
            && HoldsTwo(d, h, x, request, next) && Possible(s, WriteSettles(g, false))
            && d.drain == s.drain && d.sockets == s.sockets && d.work.activeRequests == s.work.activeRequests - 1
  {
    assert HandlerHolds(s.work, g) && HandlerHolds(s.work, h);
    WriteEndsKeepsWorkOk(cfg, IsDraining(s), s.clock, s.work, g, false);
  }

  lemma MethodRaises(cfg: CodecConfig, s: Srv, h: nat, x: nat, request: RpcMessage, next: RpcMessage, g: nat,
                     outcome: MethodOutcome)
    requires HoldsTwo(s, h, x, request, next) && NothingDue(s.drain)
    requires g < |s.work.handlers| && g != h && s.work.handlers[g].phase.AwaitingInvoke? && s.work.activeRequests > 1
    ensures var d := Step(cfg, s, MethodSettles(g, outcome));
            && HoldsTwo(d, h, x, request, next) && Possible(s, MethodSettles(g, outcome))
            && d.drain == s.drain && d.sockets == s.sockets && |d.work.handlers| == |s.work.handlers|
            && (d.work.activeRequests == s.work.activeRequests - 1
                || (d.work.activeRequests == s.work.activeRequests && d.work.handlers[g].phase.AwaitingWrite?))
  {
    assert HandlerHolds(s.work, g) && HandlerHolds(s.work, h);
    assert RequestSound(s.work.requests[s.work.handlers[g].phase.request]);
    InvokeReturnsKeepsWorkOk(cfg, s.work, g, outcome);
  }

  lemma OneLessBusy(cfg: CodecConfig, s: Srv, h: nat, x: nat, request: RpcMessage, next: RpcMessage, g: nat,
                    outcome: MethodOutcome) returns (events: seq<Event>)
    requires HoldsTwo(s, h, x, request, next) && NothingDue(s.drain)
    requires g < |s.work.handlers| && g != h && Busy(s.work.handlers[g]) && s.work.activeRequests > 1
    ensures NoListen(events) && AllPossible(cfg, s, events)
    ensures var d := Run(cfg, s, events);
            && HoldsTwo(d, h, x, request, next)
            && d.drain == s.drain && d.sockets == s.sockets && d.work.activeRequests == s.work.activeRequests - 1
  {
    var settles, fails := MethodSettles(g, outcome), WriteSettles(g, false);
    if s.work.handlers[g].phase.AwaitingWrite? {
      events := [fails];
      WriteFails(cfg, s, h, x, request, next, g);
      RunOne(cfg, s, fails);
    } else {
      MethodRaises(cfg, s, h, x, request, next, g, outcome);
      var d := Step(cfg, s, settles);
      if d.work.activeRequests == s.work.activeRequests {
        events := [settles, fails];
        WriteFails(cfg, d, h, x, request, next, g);
        RunTwo(cfg, s, settles, fails);
      } else {
        events := [settles];
        RunOne(cfg, s, settles);
      }
    }
  }

  lemma {:induction false} CountAtMostOne(handlers: seq<Handler>, h: nat)
    requires h < |handlers| && (forall g | 0 <= g < |handlers| && g != h :: !Busy(handlers[g]))
    ensures CountBusy(handlers) <= 1
    decreases |handlers|
  {
    var n := |handlers| - 1;
    if h < n {
      CountAtMostOne(handlers[..n], h);
    } else {
      NoneBusy(handlers[..n]);
    }
  }

  /** All others can be done with, so that only this one request is active. */
  lemma {:induction false} OnlyOneBusy(cfg: CodecConfig, s: Srv, h: nat, x: nat, request: RpcMessage, next: RpcMessage,
                                       outcome: MethodOutcome) returns (events: seq<Event>)
    requires HoldsTwo(s, h, x, request, next) && NothingDue(s.drain)
    ensures NoListen(events) && AllPossible(cfg, s, events)
    ensures var d := Run(cfg, s, events);
            && HoldsTwo(d, h, x, request, next)
            && d.drain == s.drain && d.sockets == s.sockets && d.work.activeRequests == 1
    decreases s.work.activeRequests
  {
    BusyMeansActive(s.work, h);
    if s.work.activeRequests == 1 {
      return [];
    }
    if forall g | 0 <= g < |s.work.handlers| && g != h :: !Busy(s.work.handlers[g]) {
      CountAtMostOne(s.work.handlers, h);
    }
    var g :| 0 <= g < |s.work.handlers| && g != h && Busy(s.work.handlers[g]);
    var first := OneLessBusy(cfg, s, h, x, request, next, g, outcome);
    var later := OnlyOneBusy(cfg, Run(cfg, s, first), h, x, request, next, outcome);
    RunAppend(cfg, s, first, later);
    events := first + later;
  }

  /** The response to the first request is written. */
  lemma ResponseIsWritten(cfg: CodecConfig, s: Srv, h: nat, x: nat, request: RpcMessage, next: RpcMessage,
                          outcome: MethodOutcome)
    requires HoldsTwo(s, h, x, request, next) && Encoded(cfg, InvokeResponse(request, outcome)).Success?
    ensures var d := Step(cfg, s, MethodSettles(h, outcome));
            && WorkOk(d.work) && h < |d.work.handlers| && d.work.handlers[h].phase.AwaitingWrite?
            && d.work.handlers[h].rest == [next] && d.work.handlers[h].socket == x && x !in d.work.destroyed
            && d.drain == s.drain && d.work.activeRequests == s.work.activeRequests
  {
    assert HandlerHolds(s.work, h);
    InvokeReturnsKeepsWorkOk(cfg, s.work, h, outcome);
  }

  /**
   * The write ends: the `finally` of the first request resolves the drain, and in the same step the loop takes the next
   * request, which a server that is not draining accepts.
   */
  lemma NextIsAccepted(cfg: CodecConfig, s: Srv, h: nat, next: RpcMessage, i: nat)
    requires WorkOk(s.work) && h < |s.work.handlers| && s.work.handlers[h].phase.AwaitingWrite? && next.Request?
    requires s.work.handlers[h].rest == [next] && s.work.activeRequests == 1 && !IsDraining(s)
    requires Waits(s.drain, i) && Resolver(s.drain.closes[i].waiter.value) in s.drain.drainResolvers
    ensures var d := Step(cfg, s, WriteSettles(h, true));
            && d.work.activeRequests == 1 && d.work.requests != [] && Open(d.work.requests[|d.work.requests| - 1])
            && d.work.requests[|d.work.requests| - 1].request == next
            && CanCloseConnections(d.drain, i) && !Safe(d, i)
  {
    assert HandlerHolds(s.work, h);
    var r := s.work.handlers[h].phase.request;
    var w1 := FinishRequest(s.work, r, Answered);
    var w2 := w1.(handlers := w1.handlers[h := w1.handlers[h].(phase := Ended)]);
    var w3 := w2.(handlers := w2.handlers[h := w2.handlers[h].(rest := w2.handlers[h].rest[1..])]);
    assert Proceed(cfg, false, s.clock, w2, h) == Accept(w3, h, next);
    CallResolversResult(s.drain.waiters, s.drain.drainResolvers);
    assert Resolver(s.drain.closes[i].waiter.value).waiter == s.drain.closes[i].waiter.value;
  }

  /** With one request active and another behind it in the same handler, two steps break the close. */
  lemma TwoStepsBreak(cfg: CodecConfig, s: Srv, h: nat, x: nat, request: RpcMessage, next: RpcMessage, i: nat,
                      outcome: MethodOutcome) returns (events: seq<Event>)
    requires HoldsTwo(s, h, x, request, next) && s.work.activeRequests == 1 && !IsDraining(s) && NothingDue(s.drain)
    requires Waits(s.drain, i) && Resolver(s.drain.closes[i].waiter.value) in s.drain.drainResolvers
    requires Encoded(cfg, InvokeResponse(request, outcome)).Success?
    ensures events == [MethodSettles(h, outcome), WriteSettles(h, true)]
    ensures NoListen(events) && AllPossible(cfg, s, events)
    ensures var d := Run(cfg, s, events);
            !Safe(d, i) && d.work.requests != [] && Open(d.work.requests[|d.work.requests| - 1])
            && d.work.requests[|d.work.requests| - 1].request == next
  {
    events := [MethodSettles(h, outcome), WriteSettles(h, true)];
    ResponseIsWritten(cfg, s, h, x, request, next, outcome);
    NextIsAccepted(cfg, Step(cfg, s, events[0]), h, next, i);
    RunTwo(cfg, s, events[0], events[1]);
  }

  lemma {:induction false} UnusedNumber(used: set<nat>) returns (x: nat)
    ensures forall n <- used :: n < x
    decreases |used|
  {
    if used == {} {
      return 0;
    }
    var n :| n in used;
    var y := UnusedNumber(used - {n});
    x := if n < y then y else n + 1;
    assert forall m <- used :: m == n || m in used - {n};
  }

  function SocketsOf(handlers: seq<Handler>): set<nat> {
    set h | 0 <= h < |handlers| :: handlers[h].socket
  }

  /** Two requests in one chunk on a new socket: the first is accepted, the second waits behind it. */
  lemma TwoArrive(cfg: CodecConfig, s: Srv, x: nat, request: RpcMessage, next: RpcMessage)
    requires WorkOk(s.work) && !IsDraining(s) && request.Request? && next.Request?
    requires x !in s.work.destroyed && forall h | 0 <= h < |s.work.handlers| :: s.work.handlers[h].socket != x
    ensures var d := Step(cfg, s, DataReceived(x, [request, next]));
            HoldsTwo(d, |s.work.handlers|, x, request, next) && d.drain == s.drain && d.sockets == s.sockets
            && d.work.activeRequests == s.work.activeRequests + 1
  {
    var n := |s.work.handlers|;
    StartKeepsWorkOk(cfg, false, s.clock, s.work, x, [request, next]);
    var w1 := s.work.(handlers := s.work.handlers + [Handler(x, [request, next], Ended)]);
    var w2 := w1.(handlers := w1.handlers[n := w1.handlers[n].(rest := w1.handlers[n].rest[1..])]);
    assert w1.handlers[n].rest[0] == request && [request, next][1..] == [next];
    assert Proceed(cfg, false, s.clock, w1, n) == Accept(w2, n, request);
  }

  /** Once a `listen` has completed, the event loop can break the close, without another `listen`. */
  lemma ListeningIsNotSafe(cfg: CodecConfig, s: Srv, i: nat, request: RpcMessage, next: RpcMessage, outcome: MethodOutcome)
    returns (events: seq<Event>)
    requires Pending(s, i) && s.drain.state == Listening && request.Request? && next.Request?
    requires Encoded(cfg, InvokeResponse(request, outcome)).Success?
    ensures NoListen(events) && AllPossible(cfg, s, events) && !Safe(Run(cfg, s, events), i)
  {
    PendingHasOne(s, i);
    var x := UnusedNumber(s.sockets + s.work.destroyed + SocketsOf(s.work.handlers));
    assert forall h | 0 <= h < |s.work.handlers| :: s.work.handlers[h].socket in SocketsOf(s.work.handlers);
    var arrive := [Accepted(x), DataReceived(x, [request, next])];
    var s1 := Step(cfg, s, arrive[0]);
    TwoArrive(cfg, s1, x, request, next);
    RunTwo(cfg, s, arrive[0], arrive[1]);
    var s2 := Step(cfg, s1, arrive[1]);
    var done := OnlyOneBusy(cfg, s2, |s.work.handlers|, x, request, next, outcome);
    var s3 := Run(cfg, s2, done);
    var broken := TwoStepsBreak(cfg, s3, |s.work.handlers|, x, request, next, i, outcome);
    RunAppend(cfg, s2, done, broken);
    RunAppend(cfg, s, arrive, done + broken);
    events := arrive + (done + broken);
  }

  /** No other close is due, and the resolver is stored. */
  lemma PendingHasOne(s: Srv, i: nat)
    requires Pending(s, i)
    ensures NothingDue(s.drain) && WorkOk(s.work)
    ensures Resolver(s.drain.closes[i].waiter.value) in s.drain.drainResolvers
  {
    var d := s.drain.(state := Draining, hasServer := false);
    forall j: nat
      ensures !CanCloseConnections(s.drain, j)
    {
      if j < |d.closes| && d.closes[j].phase == AwaitingDrain {
        assert d.closes[j] in d.closes && CloseOk(d, s.work.activeRequests, d.closes[j]);
        assert Live(d.closes[j]) && Live(d.closes[i]);
      }
    }
  }

  lemma {:induction false} NoListenIsNoFurther(cfg: CodecConfig, s: Srv, events: seq<Event>)
    requires NoListen(events)
    ensures NoFurtherListen(cfg, s, events)
    decreases |events|
  {
    if events != [] {
      assert events[0] in events && forall e <- events[1..] :: e in events;
      NoListenIsNoFurther(cfg, Step(cfg, s, events[0]), events[1..]);
    }
  }

  /** Once `listen` has been called, completed or not, the event loop can break the close without another call. */
  lemma ListenedIsNotSafe(cfg: CodecConfig, s: Srv, i: nat, request: RpcMessage, next: RpcMessage, outcome: MethodOutcome)
    returns (events: seq<Event>)
    requires Pending(s, i) && s.drain.hasServer && request.Request? && next.Request?
    requires Encoded(cfg, InvokeResponse(request, outcome)).Success?
    ensures NoFurtherListen(cfg, s, events) && AllPossible(cfg, s, events) && !Safe(Run(cfg, s, events), i)
  {
    if s.drain.state == Listening {
      events := ListeningIsNotSafe(cfg, s, i, request, next, outcome);
      NoListenIsNoFurther(cfg, s, events);
    } else {
      ListenKeepsPending(cfg, s, i);
      PendingHasOne(s, i);
      var d := Step(cfg, s, ListenDone);
      var later := ListeningIsNotSafe(cfg, d, i, request, next, outcome);
      NoListenIsNoFurther(cfg, d, later);
      events := [ListenDone] + later;
      assert events[1..] == later;
    }
  }

  /**
   * A graceful close that waits is safe in every run in which nobody calls `listen` any more if and only if the server
   * drains and nobody has called it yet. A `listen` that is under way, when the state is `draining` still, is enough to
   * break it; and what breaks it is a run that the event loop can take.
   */
  lemma SafeExactlyBeforeListen(cfg: CodecConfig, s: Srv, i: nat, request: RpcMessage, next: RpcMessage,
                                outcome: MethodOutcome)
    requires Pending(s, i) && request.Request? && next.Request?
    requires Encoded(cfg, InvokeResponse(request, outcome)).Success?
    ensures s.drain.state == Draining && !s.drain.hasServer
            <==> forall events | NoFurtherListen(cfg, s, events) :: Safe(Run(cfg, s, events), i)
    ensures s.drain.state == Draining && !s.drain.hasServer
            <==> forall events | NoFurtherListen(cfg, s, events) && AllPossible(cfg, s, events) ::
                   Safe(Run(cfg, s, events), i)
  {
    if s.drain.hasServer {
      var events := ListenedIsNotSafe(cfg, s, i, request, next, outcome);
    } else {
      forall events | NoFurtherListen(cfg, s, events)
        ensures Safe(Run(cfg, s, events), i)
      {
        UnlistenedIsSafe(cfg, s, i, events);
      }
    }
  }

  // ----- a run from the start -----

  /** A server listens, accepts a connection, and takes the first of two requests that come in one chunk. */
  lemma ServingOne(cfg: CodecConfig, clock: int, request: RpcMessage, next: RpcMessage) returns (s: Srv, events: seq<Event>)
    requires request.Request? && next.Request?
    ensures events == [ListenStarts, ListenDone] + [Accepted(0), DataReceived(0, [request, next])]
    ensures s == Run(cfg, InitialServer(clock), events) && AllPossible(cfg, InitialServer(clock), events)
    ensures HoldsTwo(s, 0, 0, request, next) && s.work.activeRequests == 1
    ensures s.drain == Shutdown(Listening, true, [], [], [])
  {
    var s0 := InitialServer(clock);
    var listen, serve := [ListenStarts, ListenDone], [Accepted(0), DataReceived(0, [request, next])];
    events := listen + serve;
    InitialServerOk(clock);
    RunTwo(cfg, s0, listen[0], listen[1]);
    var s1 := Step(cfg, Step(cfg, s0, listen[0]), listen[1]);
    TwoArrive(cfg, Step(cfg, s1, serve[0]), 0, request, next);
    RunTwo(cfg, s1, serve[0], serve[1]);
    RunAppend(cfg, s0, listen, serve);
    s := Step(cfg, Step(cfg, s1, serve[0]), serve[1]);
  }

  /** A graceful close begins. */
  lemma ClosingOne(cfg: CodecConfig, s: Srv, request: RpcMessage, next: RpcMessage) returns (d: Srv)
    requires HoldsTwo(s, 0, 0, request, next) && s.work.activeRequests == 1 && s.drain == Shutdown(Listening, true, [], [], [])
    ensures d == Step(cfg, s, CloseRequested(true)) && Possible(s, CloseRequested(true))
    ensures HoldsTwo(d, 0, 0, request, next) && d.work.activeRequests == 1 && Pending(d, 0) && d.drain.state == Draining
  {
    d := Step(cfg, s, CloseRequested(true));
    BeginCloseKeepsDrainOk(s.drain, true, 1);
    CleanWaitIsPending(d, 0);
  }

  /**
   * From the start: two requests in one chunk, a graceful close, a `listen` that completes, and the first request's
   * response is written. The second request has then been accepted, and the close goes on to cut it off.
   */
  lemma ListenDuringDrainBreaksSafety(cfg: CodecConfig, clock: int, request: RpcMessage, next: RpcMessage,
                                      outcome: MethodOutcome) returns (events: seq<Event>)
    requires request.Request? && next.Request? && Encoded(cfg, InvokeResponse(request, outcome)).Success?
    ensures events == [ListenStarts, ListenDone] + [Accepted(0), DataReceived(0, [request, next])] + [CloseRequested(true)]
                      + [ListenStarts, ListenDone] + [MethodSettles(0, outcome), WriteSettles(0, true)]
    ensures AllPossible(cfg, InitialServer(clock), events)
    ensures var s := Run(cfg, InitialServer(clock), events);
            !Safe(s, 0) && s.work.requests != [] && Open(s.work.requests[|s.work.requests| - 1])
            && s.work.requests[|s.work.requests| - 1].request == next
  {
    var s0 := InitialServer(clock);
    var s1, serve := ServingOne(cfg, clock, request, next);
    var s2 := ClosingOne(cfg, s1, request, next);
    RunOne(cfg, s1, CloseRequested(true));
    RunAppend(cfg, s0, serve, [CloseRequested(true)]);
    var s3 := ListenAgain(cfg, s2, request, next);
    RunAppend(cfg, s0, serve + [CloseRequested(true)], [ListenStarts, ListenDone]);
    PendingHasOne(s3, 0);
    var broken := TwoStepsBreak(cfg, s3, 0, 0, request, next, 0, outcome);
    RunAppend(cfg, s0, serve + [CloseRequested(true)] + [ListenStarts, ListenDone], broken);
    events := serve + [CloseRequested(true)] + [ListenStarts, ListenDone] + broken;
  }

  lemma ListenAgain(cfg: CodecConfig, s: Srv, request: RpcMessage, next: RpcMessage) returns (d: Srv)
    requires HoldsTwo(s, 0, 0, request, next) && s.work.activeRequests == 1 && Pending(s, 0)
    ensures d == Run(cfg, s, [ListenStarts, ListenDone]) && AllPossible(cfg, s, [ListenStarts, ListenDone])
    ensures HoldsTwo(d, 0, 0, request, next) && d.work.activeRequests == 1 && Pending(d, 0) && d.drain.state == Listening
  {
    PendingHasOne(s, 0);
    ListenKeepsPending(cfg, s, 0);
    RunTwo(cfg, s, ListenStarts, ListenDone);
    var started := Step(cfg, s, ListenStarts);
    ListenKeepsPending(cfg, started, 0);
    assert forall j: nat :: CanCloseConnections(started.drain, j) == CanCloseConnections(s.drain, j);
    d := Step(cfg, Step(cfg, s, ListenStarts), ListenDone);
  }
}
