/** What every step of the server keeps of its requests and its shutdown, and how it closes. */
module ServerProofs {
  import opened Messages
  import opened Codec
  import opened Server

  // ----- counting -----

  predicate Busy(h: Handler) {
    h.phase.AwaitingInvoke? || h.phase.AwaitingWrite?
  }

  /** How many handlers are between the increment of `activeRequests` and the `finally` that undoes it. */
  function CountBusy(handlers: seq<Handler>): nat {
    if handlers == [] then 0
    else CountBusy(handlers[..|handlers| - 1]) + if Busy(handlers[|handlers| - 1]) then 1 else 0
  }

  lemma {:induction false} CountBusyUpdate(handlers: seq<Handler>, i: nat, h: Handler)
    requires i < |handlers|
    ensures CountBusy(handlers[i := h]) ==
            CountBusy(handlers) - (if Busy(handlers[i]) then 1 else 0) + (if Busy(h) then 1 else 0)
    decreases |handlers|
  {
    var n := |handlers| - 1;
    if i == n {
      assert handlers[i := h][..n] == handlers[..n];
    } else {
      assert handlers[i := h][..n] == handlers[..n][i := h];
      CountBusyUpdate(handlers[..n], i, h);
    }
  }

  lemma {:induction false} NoneBusy(handlers: seq<Handler>)
    ensures CountBusy(handlers) == 0 <==> forall i | 0 <= i < |handlers| :: !Busy(handlers[i])
    decreases |handlers|
  {
    if handlers != [] {
      NoneBusy(handlers[..|handlers| - 1]);
    }
  }

  // ----- what every step keeps of the work -----

  predicate Open(r: AcceptedRequest) {
    r.status == Invoking || r.status == Writing
  }

  /** A busy handler and the open request it works on point at each other. */
  predicate HandlerHolds(w: Work, h: nat)
    requires h < |w.handlers|
  {
    Busy(w.handlers[h]) ==>
      var r := w.handlers[h].phase.request;
      && r < |w.requests| && w.requests[r].handler == h
      && w.requests[r].status == if w.handlers[h].phase.AwaitingInvoke? then Invoking else Writing
  }

  predicate RequestHeld(w: Work, r: nat)
    requires r < |w.requests|
  {
    Open(w.requests[r]) ==>
      var h := w.requests[r].handler;
      h < |w.handlers| && Busy(w.handlers[h]) && w.handlers[h].phase.request == r
  }

  /** A request has an outcome once its method has settled, and is a request message. */
  predicate RequestSound(r: AcceptedRequest) {
    r.request.Request? && (r.status == Invoking <==> r.outcome.None?)
  }

  ghost predicate WorkOk(w: Work) {
    && w.activeRequests == CountBusy(w.handlers)
    && (forall h | 0 <= h < |w.handlers| :: HandlerHolds(w, h))
    && (forall r | 0 <= r < |w.requests| :: RequestHeld(w, r) && RequestSound(w.requests[r]))
  }

  lemma ReplaceIdleHandler(w: Work, h: nat, handler: Handler)
    requires WorkOk(w) && h < |w.handlers| && !Busy(w.handlers[h]) && !Busy(handler)
    ensures WorkOk(w.(handlers := w.handlers[h := handler]))
  {
    var w1 := w.(handlers := w.handlers[h := handler]);
    CountBusyUpdate(w.handlers, h, handler);
    forall i | 0 <= i < |w1.handlers|
      ensures HandlerHolds(w1, i)
    {
      assert HandlerHolds(w, i);
    }
    forall r | 0 <= r < |w1.requests|
      ensures RequestHeld(w1, r) && RequestSound(w1.requests[r])
    {
      assert RequestHeld(w, r) && RequestSound(w.requests[r]);
    }
  }

  lemma OtherFieldsKeepWorkOk(w: Work, w1: Work)
    requires WorkOk(w)
    requires w1.activeRequests == w.activeRequests && w1.requests == w.requests && w1.handlers == w.handlers
    ensures WorkOk(w1)
  {
    forall i | 0 <= i < |w1.handlers|
      ensures HandlerHolds(w1, i)
    {
      assert HandlerHolds(w, i);
    }
    forall r | 0 <= r < |w1.requests|
      ensures RequestHeld(w1, r) && RequestSound(w1.requests[r])
    {
      assert RequestHeld(w, r) && RequestSound(w.requests[r]);
    }
  }

  lemma AcceptKeepsWorkOk(w: Work, h: nat, message: RpcMessage)
    requires WorkOk(w) && h < |w.handlers| && !Busy(w.handlers[h]) && message.Request?
    ensures WorkOk(Accept(w, h, message))
    ensures Accept(w, h, message).activeRequests == w.activeRequests + 1
  {
    var w1 := Accept(w, h, message);
    CountBusyUpdate(w.handlers, h, w1.handlers[h]);
    forall i | 0 <= i < |w1.handlers|
      ensures HandlerHolds(w1, i)
    {
      assert HandlerHolds(w, i);
    }
    forall r | 0 <= r < |w1.requests|
      ensures RequestHeld(w1, r) && RequestSound(w1.requests[r])
    {
      assert r < |w.requests| ==> RequestHeld(w, r) && RequestSound(w.requests[r]);
    }
  }

  lemma FailKeepsWorkOk(w: Work, h: nat)
    requires WorkOk(w) && h < |w.handlers| && !Busy(w.handlers[h])
    ensures WorkOk(FailHandler(w, h)) && WorkOk(EndHandler(w, h))
  {
    ReplaceIdleHandler(w, h, w.handlers[h].(rest := [], phase := Ended));
    OtherFieldsKeepWorkOk(EndHandler(w, h), FailHandler(w, h));
  }

  /** The message loop keeps the bookkeeping, and accepts nothing while the server is draining. */
  lemma {:induction false} ProceedKeepsWorkOk(cfg: CodecConfig, draining: bool, clock: int, w: Work, h: nat)
    requires WorkOk(w) && h < |w.handlers| && !Busy(w.handlers[h])
    ensures WorkOk(Proceed(cfg, draining, clock, w, h))
    ensures draining ==> Proceed(cfg, draining, clock, w, h).activeRequests == w.activeRequests
    ensures Proceed(cfg, draining, clock, w, h).activeRequests >= w.activeRequests
    decreases |w.handlers[h].rest|
  {
    if w.handlers[h].rest == [] {
      FailKeepsWorkOk(w, h);
    } else {
      var message := w.handlers[h].rest[0];
      var w1 := w.(handlers := w.handlers[h := w.handlers[h].(rest := w.handlers[h].rest[1..])]);
      ReplaceIdleHandler(w, h, w1.handlers[h]);
      FailKeepsWorkOk(w1, h);
      match message
      case Request(_, _, _, _, _) =>
        if draining {
          ReplaceIdleHandler(w1, h, w1.handlers[h].(phase := AwaitingRejection));
          var w2 := w1.(handlers := w1.handlers[h := w1.handlers[h].(phase := AwaitingRejection)]);
          if Encoded(cfg, DrainingResponse(message)).Success? {
            OtherFieldsKeepWorkOk(w2, Refuse(cfg, w1, h, message));
          }
        } else {
          AcceptKeepsWorkOk(w1, h, message);
        }
      case Ping(id, _) =>
        var pong := Pong(id, clock);
        if Encoded(cfg, pong).Success? {
          var w2 := WriteMessage(w1, h, pong, Encoded(cfg, pong).value);
          OtherFieldsKeepWorkOk(w1, w2);
          ProceedKeepsWorkOk(cfg, draining, clock, w2, h);
        }
      case _ => ProceedKeepsWorkOk(cfg, draining, clock, w1, h);
    }
  }

  lemma NewHandlerKeepsWorkOk(w: Work, handler: Handler)
    requires WorkOk(w) && !Busy(handler)
    ensures WorkOk(w.(handlers := w.handlers + [handler]))
  {
    var w1 := w.(handlers := w.handlers + [handler]);
    assert w1.handlers[..|w1.handlers| - 1] == w.handlers;
    forall i | 0 <= i < |w1.handlers|
      ensures HandlerHolds(w1, i)
    {
      assert i < |w.handlers| ==> HandlerHolds(w, i);
    }
    forall r | 0 <= r < |w1.requests|
      ensures RequestHeld(w1, r) && RequestSound(w1.requests[r])
    {
      assert RequestHeld(w, r) && RequestSound(w.requests[r]);
    }
  }

  lemma StartKeepsWorkOk(cfg: CodecConfig, draining: bool, clock: int, w: Work, socket: nat, messages: seq<RpcMessage>)
    requires WorkOk(w)
    ensures var w1 := StartHandler(cfg, draining, clock, w, socket, messages);
            WorkOk(w1) && w1.activeRequests >= w.activeRequests
            && (draining ==> w1.activeRequests == w.activeRequests)
  {
    NewHandlerKeepsWorkOk(w, Handler(socket, messages, Ended));
    ProceedKeepsWorkOk(cfg, draining, clock, w.(handlers := w.handlers + [Handler(socket, messages, Ended)]), |w.handlers|);
  }

  /** Closing request `r` and taking its handler out of the busy phases, in one go. */
  lemma ReleaseKeepsWorkOk(w: Work, w1: Work, h: nat, r: nat)
    requires WorkOk(w) && h < |w.handlers| && Busy(w.handlers[h]) && w.handlers[h].phase.request == r
    requires r < |w.requests|
    requires w1.activeRequests == w.activeRequests - 1
    requires |w1.handlers| == |w.handlers| && w1.handlers == w.handlers[h := w1.handlers[h]] && !Busy(w1.handlers[h])
    requires |w1.requests| == |w.requests| && w1.requests == w.requests[r := w1.requests[r]]
    requires !Open(w1.requests[r]) && RequestSound(w1.requests[r])
    ensures WorkOk(w1)
  {
    CountBusyUpdate(w.handlers, h, w1.handlers[h]);
    assert HandlerHolds(w, h);
    forall i | 0 <= i < |w1.handlers|
      ensures HandlerHolds(w1, i)
    {
      assert HandlerHolds(w, i);
    }
    forall q | 0 <= q < |w1.requests|
      ensures RequestHeld(w1, q) && RequestSound(w1.requests[q])
    {
      assert RequestHeld(w, q) && RequestSound(w.requests[q]);
    }
  }

  lemma InvokeReturnsKeepsWorkOk(cfg: CodecConfig, w: Work, h: nat, outcome: MethodOutcome)
    requires WorkOk(w) && CanReturn(w, h)
    ensures var w1 := InvokeReturns(cfg, w, h, outcome);
            WorkOk(w1) && (w1.activeRequests == w.activeRequests || w1.activeRequests == w.activeRequests - 1)
  {
    var r := w.handlers[h].phase.request;
    var w1 := InvokeReturns(cfg, w, h, outcome);
    assert HandlerHolds(w, h) && RequestSound(w.requests[r]);
    if Encoded(cfg, InvokeResponse(w.requests[r].request, outcome)).Failure? {
      ReleaseKeepsWorkOk(w, w1, h, r);
    } else {
      CountBusyUpdate(w.handlers, h, w1.handlers[h]);
      forall i | 0 <= i < |w1.handlers|
        ensures HandlerHolds(w1, i)
      {
        assert HandlerHolds(w, i);
      }
      forall q | 0 <= q < |w1.requests|
        ensures RequestHeld(w1, q) && RequestSound(w1.requests[q])
      {
        assert RequestHeld(w, q) && RequestSound(w.requests[q]);
      }
    }
  }

  lemma WriteEndsKeepsWorkOk(cfg: CodecConfig, draining: bool, clock: int, w: Work, h: nat, ok: bool)
    requires WorkOk(w) && CanEndWrite(w, h)
    ensures var w1 := WriteEnds(cfg, draining, clock, w, h, ok);
            var done := if w.handlers[h].phase.AwaitingRejection? then 0 else 1;
            && WorkOk(w1)
            && w1.activeRequests >= w.activeRequests - done
            && (draining ==> w1.activeRequests == w.activeRequests - done)
  {
    if w.handlers[h].phase.AwaitingRejection? {
      ReplaceIdleHandler(w, h, w.handlers[h].(phase := Ended));
      FailKeepsWorkOk(w, h);
      ProceedKeepsWorkOk(cfg, draining, clock, w.(handlers := w.handlers[h := w.handlers[h].(phase := Ended)]), h);
    } else {
      var r := w.handlers[h].phase.request;
      assert HandlerHolds(w, h) && RequestSound(w.requests[r]);
      var w1 := FinishRequest(w, r, if ok then Answered else WriteFailed);
      var w2 := w1.(handlers := w1.handlers[h := w1.handlers[h].(phase := Ended)]);
      ReleaseKeepsWorkOk(w, w2, h, r);
      if ok {
        ProceedKeepsWorkOk(cfg, draining, clock, w2, h);
      } else {
        ReplaceIdleHandler(w2, h, w2.handlers[h].(rest := []));
        OtherFieldsKeepWorkOk(w2.(handlers := w2.handlers[h := w2.handlers[h].(rest := [])]), FailHandler(w1, h));
      }
    }
  }

  lemma StepKeepsWorkOk(cfg: CodecConfig, s: Srv, e: Event)
    requires WorkOk(s.work)
    ensures WorkOk(Step(cfg, s, e).work)
    ensures IsDraining(s) ==> Step(cfg, s, e).work.activeRequests <= s.work.activeRequests
  {
    match e
    case DataReceived(socket, messages) => StartKeepsWorkOk(cfg, IsDraining(s), s.clock, s.work, socket, messages);
    case MethodSettles(h, outcome) =>
      if CanReturn(s.work, h) {
        InvokeReturnsKeepsWorkOk(cfg, s.work, h, outcome);
      }
    case WriteSettles(h, ok) =>
      if CanEndWrite(s.work, h) {
        WriteEndsKeepsWorkOk(cfg, IsDraining(s), s.clock, s.work, h, ok);
      }
    case _ => OtherFieldsKeepWorkOk(s.work, Step(cfg, s, e).work);
  }

  /** With nothing active, every accepted request has been answered, or writing or encoding its answer has failed. */
  lemma NothingActiveNothingOpen(w: Work)
    requires WorkOk(w)
    ensures w.activeRequests == 0 <==> forall r | 0 <= r < |w.requests| :: !Open(w.requests[r])
  {
    NoneBusy(w.handlers);
    if w.activeRequests == 0 {
      forall r | 0 <= r < |w.requests|
        ensures !Open(w.requests[r])
      {
        assert RequestHeld(w, r);
      }
    } else {
      var h :| 0 <= h < |w.handlers| && Busy(w.handlers[h]);
      assert HandlerHolds(w, h) && Open(w.requests[w.handlers[h].phase.request]);
    }
  }

  // ----- what every step keeps of the drain -----

  /** A graceful close that has not finished. */
  predicate Live(c: CloseCall) {
    c.graceful && c.phase != Finished
  }

  /** A waiting close has its resolver stored, and one that was woken by idleness still finds the server idle. */
  predicate CloseOk(d: Shutdown, active: int, c: CloseCall) {
    && (c.phase == AwaitingDrain ==> c.graceful)
    && (Live(c) ==> d.state == Draining && !d.hasServer)
    && (c.waiter.Some? ==> c.waiter.value < |d.waiters|)
    && (c.phase == AwaitingDrain && (c.waiter.None? || d.waiters[c.waiter.value] == ResolvedIdle) ==> active == 0)
  }

  ghost predicate DrainOk(d: Shutdown, active: int) {
    && active >= 0
    && (d.drainResolvers != [] ==> active > 0)
    && (forall c <- d.drainResolvers :: c.Resolver?)
    && (forall w | 0 <= w < |d.waiters| && d.waiters[w] == Waiting :: Resolver(w) in d.drainResolvers)
    && (forall c <- d.closes :: CloseOk(d, active, c))
    && (forall i, j | 0 <= i < |d.closes| && 0 <= j < |d.closes| && Live(d.closes[i]) && Live(d.closes[j]) :: i == j)
    && (d.state == Draining ==> !d.hasServer)
  }

  lemma {:induction false} CallResolversResult(waiters: seq<Waiter>, resolvers: seq<Closure>)
    ensures var after := CallResolvers(waiters, resolvers);
            && |after| == |waiters|
            && forall w | 0 <= w < |waiters| ::
                 after[w] == if waiters[w] == Waiting && (exists c <- resolvers :: c.waiter == w) then ResolvedIdle
                             else waiters[w]
    decreases |resolvers|
  {
    if resolvers != [] {
      var w := resolvers[0].waiter;
      var first := if w < |waiters| && waiters[w] == Waiting then waiters[w := ResolvedIdle] else waiters;
      CallResolversResult(first, resolvers[1..]);
      assert forall c :: c in resolvers <==> c == resolvers[0] || c in resolvers[1..];
      assert exists c <- resolvers :: c.waiter == w by {
        assert resolvers[0] in resolvers;
      }
    }
  }

  /** The stored function is never the one that `removeDrainResolver` is given, so nothing is ever removed. */
  lemma {:induction false} RemoveDrainResolverRemovesNothing(resolvers: seq<Closure>, w: nat)
    requires forall c <- resolvers :: c.Resolver?
    ensures RemoveDrainResolver(resolvers, PromiseResolve(w)) == resolvers
    decreases |resolvers|
  {
    if resolvers != [] {
      assert resolvers[0] in resolvers;
      assert forall c <- resolvers[1..] :: c in resolvers;
      RemoveDrainResolverRemovesNothing(resolvers[1..], w);
    }
  }

  /** A waiter that timed out stays in the list; being called later changes nothing for it. */
  lemma TimedOutWaiterStaysButIsInert(d: Shutdown, active: int, w: nat)
    requires DrainOk(d, active) && w < |d.waiters| && d.waiters[w] == Waiting
    ensures FireDrainTimer(d, w) == d.(waiters := d.waiters[w := TimedOut])
    ensures Resolver(w) in FireDrainTimer(d, w).drainResolvers
    ensures |ResolveDrainIfIdle(FireDrainTimer(d, w), 0).waiters| == |d.waiters|
    ensures ResolveDrainIfIdle(FireDrainTimer(d, w), 0).waiters[w] == TimedOut
  {
    RemoveDrainResolverRemovesNothing(d.drainResolvers, w);
    CallResolversResult(d.waiters[w := TimedOut], d.drainResolvers);
  }

  lemma ResolveKeepsDrainOk(d: Shutdown, before: int, active: int)
    requires DrainOk(d, before) && 0 <= active < before
    ensures DrainOk(ResolveDrainIfIdle(d, active), active)
  {
    CallResolversResult(d.waiters, d.drainResolvers);
    var d1 := ResolveDrainIfIdle(d, active);
    forall c <- d1.closes
      ensures CloseOk(d1, active, c)
    {
      assert CloseOk(d, before, c);
    }
    if active == 0 {
      forall w | 0 <= w < |d1.waiters|
        ensures d1.waiters[w] != Waiting
      {
        if d.waiters[w] == Waiting {
          assert Resolver(w) in d.drainResolvers && Resolver(w).waiter == w;
        }
      }
    }
  }

  lemma MoreWorkKeepsDrainOk(d: Shutdown, before: int, active: int)
    requires DrainOk(d, before) && before <= active && (d.state == Draining ==> active == before)
    ensures DrainOk(d, active)
  {
    forall c <- d.closes
      ensures CloseOk(d, active, c)
    {
      assert CloseOk(d, before, c);
    }
  }

  lemma BeginCloseKeepsDrainOk(d: Shutdown, graceful: bool, active: int)
    requires DrainOk(d, active) && d.hasServer
    ensures DrainOk(BeginClose(d, graceful, active), active)
  {
    var d1 := BeginClose(d, graceful, active);
    forall c <- d.closes
      ensures !Live(c)
    {
      assert CloseOk(d, active, c);
    }
    forall c <- d1.closes
      ensures CloseOk(d1, active, c)
    {
      if c in d.closes {
        assert CloseOk(d, active, c);
      }
    }
    forall w | 0 <= w < |d1.waiters| && d1.waiters[w] == Waiting
      ensures Resolver(w) in d1.drainResolvers
    {
      if w < |d.waiters| {
        assert Resolver(w) in d.drainResolvers;
      }
    }
    forall i | 0 <= i < |d.closes|
      ensures !Live(d1.closes[i])
    {
      assert d1.closes[i] == d.closes[i] && d.closes[i] in d.closes;
    }
  }

  lemma TimerKeepsDrainOk(d: Shutdown, active: int, w: nat)
    requires DrainOk(d, active) && w < |d.waiters| && d.waiters[w] == Waiting
    ensures DrainOk(FireDrainTimer(d, w), active)
  {
    RemoveDrainResolverRemovesNothing(d.drainResolvers, w);
    var d1 := FireDrainTimer(d, w);
    forall c <- d1.closes
      ensures CloseOk(d1, active, c)
    {
      assert CloseOk(d, active, c);
    }
  }

  lemma PhaseKeepsDrainOk(d: Shutdown, active: int, i: nat, phase: ClosePhase)
    requires DrainOk(d, active) && i < |d.closes|
    requires phase != AwaitingDrain && (phase == AwaitingServer ==> d.closes[i].phase == AwaitingDrain)
    ensures var finishing := phase == Finished && d.closes[i].graceful && d.closes[i].phase != Finished;
            DrainOk(d.(closes := d.closes[i := d.closes[i].(phase := phase)],
                       state := if finishing then Closed else d.state), active)
  {
    var finishing := phase == Finished && d.closes[i].graceful && d.closes[i].phase != Finished;
    var d1 := d.(closes := d.closes[i := d.closes[i].(phase := phase)], state := if finishing then Closed else d.state);
    forall k | 0 <= k < |d1.closes|
      ensures CloseOk(d1, active, d1.closes[k])
      ensures Live(d1.closes[k]) ==> Live(d.closes[k])
    {
      assert d.closes[k] in d.closes && d.closes[i] in d.closes;
      assert CloseOk(d, active, d.closes[k]) && CloseOk(d, active, d.closes[i]);
      assert Live(d.closes[i]) && Live(d.closes[k]) ==> i == k;
    }
  }

  /** What the application must not do: call `listen`, or have one complete, while a drain is under way. */
  predicate ListenAllowed(s: Srv, e: Event) {
    e.ListenStarts? || e.ListenDone? ==> !IsDraining(s)
  }

  predicate NoListenWhileDraining(cfg: CodecConfig, s: Srv, events: seq<Event>)
    decreases |events|
  {
    events == [] || (ListenAllowed(s, events[0]) && NoListenWhileDraining(cfg, Step(cfg, s, events[0]), events[1..]))
  }

  ghost predicate ServerOk(s: Srv) {
    WorkOk(s.work) && DrainOk(s.drain, s.work.activeRequests)
  }

  lemma ListenKeepsDrainOk(d: Shutdown, d1: Shutdown, active: int)
    requires DrainOk(d, active) && d.state != Draining && d1.state != Draining
    requires d1 == d.(hasServer := d1.hasServer, state := d1.state)
    ensures DrainOk(d1, active)
  {
    forall c <- d1.closes
      ensures CloseOk(d1, active, c)
    {
      assert CloseOk(d, active, c);
    }
  }

  lemma StepKeepsServerOk(cfg: CodecConfig, s: Srv, e: Event)
    requires ServerOk(s) && ListenAllowed(s, e)
    ensures ServerOk(Step(cfg, s, e))
  {
    var active := s.work.activeRequests;
    StepKeepsWorkOk(cfg, s, e);
    match e
    case ListenStarts => ListenKeepsDrainOk(s.drain, Step(cfg, s, e).drain, active);
    case ListenDone => ListenKeepsDrainOk(s.drain, Step(cfg, s, e).drain, active);
    case DataReceived(socket, messages) =>
      StartKeepsWorkOk(cfg, IsDraining(s), s.clock, s.work, socket, messages);
      MoreWorkKeepsDrainOk(s.drain, active, Step(cfg, s, e).work.activeRequests);
    case MethodSettles(h, outcome) =>
      if CanReturn(s.work, h) {
        InvokeReturnsKeepsWorkOk(cfg, s.work, h, outcome);
        if Step(cfg, s, e).work.activeRequests != active {
          ResolveKeepsDrainOk(s.drain, active, active - 1);
        }
      }
    case WriteSettles(h, ok) =>
      if CanEndWrite(s.work, h) {
        WriteEndsKeepsWorkOk(cfg, IsDraining(s), s.clock, s.work, h, ok);
        var active' := Step(cfg, s, e).work.activeRequests;
        if s.work.handlers[h].phase.AwaitingRejection? {
          MoreWorkKeepsDrainOk(s.drain, active, active');
        } else {
          BusyMeansActive(s.work, h);
          ResolveKeepsDrainOk(s.drain, active, active - 1);
          MoreWorkKeepsDrainOk(ResolveDrainIfIdle(s.drain, active - 1), active - 1, active');
        }
      }
    case CloseRequested(graceful) =>
      if s.drain.hasServer {
        BeginCloseKeepsDrainOk(s.drain, graceful, active);
      }
    case DrainTimerFires(w) =>
      if w < |s.drain.waiters| && s.drain.waiters[w] == Waiting {
        TimerKeepsDrainOk(s.drain, active, w);
      }
    case CloseResumes(i) =>
      if CanCloseConnections(s.drain, i) {
        PhaseKeepsDrainOk(s.drain, active, i, AwaitingServer);
      }
    case ServerClosed(i) =>
      if i < |s.drain.closes| && s.drain.closes[i].phase == AwaitingServer {
        PhaseKeepsDrainOk(s.drain, active, i, Finished);
      }
    case _ =>
  }

  lemma BusyMeansActive(w: Work, h: nat)
    requires WorkOk(w) && h < |w.handlers| && Busy(w.handlers[h])
    ensures w.activeRequests > 0
  {
    NoneBusy(w.handlers);
  }

  lemma {:induction false} EveryRunKeepsServerOk(cfg: CodecConfig, s: Srv, events: seq<Event>)
    requires ServerOk(s) && NoListenWhileDraining(cfg, s, events)
    ensures ServerOk(Run(cfg, s, events))
    decreases |events|
  {
    if events != [] {
      StepKeepsServerOk(cfg, s, events[0]);
      EveryRunKeepsServerOk(cfg, Step(cfg, s, events[0]), events[1..]);
    }
  }

  lemma InitialServerOk(clock: int)
    ensures ServerOk(InitialServer(clock))
  {
  }

  // ----- closing -----

  lemma RunOne(cfg: CodecConfig, s: Srv, e: Event, more: seq<Event>)
    ensures Run(cfg, s, [e] + more) == Run(cfg, Step(cfg, s, e), more)
  {
    assert ([e] + more)[1..] == more;
  }

  /** A close that is not graceful destroys every connection at once, whatever is under way. */
  lemma AbruptClose(cfg: CodecConfig, s: Srv)
    requires s.drain.hasServer
    ensures var d := Step(cfg, s, CloseRequested(false));
            && d.drain.state == Closed && !d.drain.hasServer
            && d.sockets == {} && d.work == s.work.(destroyed := s.work.destroyed + s.sockets)
  {
  }

  /** A graceful close destroys nothing, refuses what comes from now on, and waits exactly while requests are active. */
  lemma GracefulCloseStarts(cfg: CodecConfig, s: Srv)
    requires s.drain.hasServer
    ensures var d := Step(cfg, s, CloseRequested(true));
            && IsDraining(d) && !d.drain.hasServer && d.work == s.work && d.sockets == s.sockets
            && |d.drain.closes| == |s.drain.closes| + 1
            && (CanCloseConnections(d.drain, |s.drain.closes|) <==> s.work.activeRequests == 0)
  {
  }

  /** Once a graceful close can go on, it destroys the connections that are left, and ends with the server closed. */
  lemma GracefulCloseEnds(cfg: CodecConfig, s: Srv, i: nat)
    requires CanCloseConnections(s.drain, i) && s.drain.closes[i].graceful
    ensures var d := Run(cfg, s, [CloseResumes(i)] + ([ServerClosed(i)] + []));
            && d.drain.state == Closed && i < |d.drain.closes| && d.drain.closes[i].phase == Finished
            && d.sockets == {} && s.sockets <= d.work.destroyed
  {
    var d := Step(cfg, s, CloseResumes(i));
    RunOne(cfg, s, CloseResumes(i), [ServerClosed(i)] + []);
    RunOne(cfg, d, ServerClosed(i), []);
    assert Run(cfg, Step(cfg, d, ServerClosed(i)), []) == Step(cfg, d, ServerClosed(i));
  }

  /** The request that ends last lets every waiting close go on. */
  lemma LastRequestReleasesClose(d: Shutdown, active: int, i: nat)
    requires DrainOk(d, active) && active > 0 && i < |d.closes| && d.closes[i].phase == AwaitingDrain
    ensures CanCloseConnections(ResolveDrainIfIdle(d, 0), i)
  {
    assert d.closes[i] in d.closes && CloseOk(d, active, d.closes[i]);
    CallResolversResult(d.waiters, d.drainResolvers);
    if d.closes[i].waiter.Some? {
      var w := d.closes[i].waiter.value;
      if d.waiters[w] == Waiting {
        assert Resolver(w) in d.drainResolvers && Resolver(w).waiter == w;
      }
    }
  }
}
