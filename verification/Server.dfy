/**
 * The server (packages/core/src/server/rpc-server.ts and method-invoker.ts) as run-to-completion steps.
 *
 * Data handlers are async functions: each activation runs until an await, and any number of them, over any number
 * of sockets, may be suspended at once.
 */
module Server {
  import opened Common
  import opened Messages
  import opened Errors
  import opened Codec

  // ----- invoking a method -----

  /** What calling the registered method comes to; unknown services and methods raise as well. */
  datatype MethodOutcome = Returned(result: Option<Value>) | Raised(error: Error)

  function ToRpcError(error: Error): ErrorInfo {
    match error
    case RpcError(code, message) => ErrorInfo(code, message)
    case NodeError(_, message) => ErrorInfo("INTERNAL_ERROR", message)
    case PlainError(message) => ErrorInfo("INTERNAL_ERROR", message)
    case NotAnError(_, text) => ErrorInfo("INTERNAL_ERROR", text)
  }

  /** `MethodInvoker.invoke`: the response to a request, given how the method behaved. */
  function InvokeResponse(request: RpcMessage, outcome: MethodOutcome): (response: RpcMessage)
    requires request.Request?
    ensures response.Response? && response.id == request.id && response.metadata == request.metadata
    ensures response.ok <==> outcome.Returned?
    ensures outcome.Returned? ==> response.result == outcome.result
  {
    match outcome
    case Returned(result) => Response(request.id, true, result, None, request.metadata)
    case Raised(error) => Response(request.id, false, None, Some(ToRpcError(error)), request.metadata)
  }

  function DrainingResponse(request: RpcMessage): RpcMessage
    requires request.Request?
  {
    Response(request.id, false, None, Some(ErrorInfo("SERVER_DRAINING", "RPC server is draining")), request.metadata)
  }

  // ----- handlers and the requests they have accepted -----

  datatype RequestStatus = Invoking | Writing | Answered | WriteFailed | EncodeFailed

  /** A request that was counted in `activeRequests`, and the handler that counted it. */
  datatype AcceptedRequest = AcceptedRequest(
    handler: nat,
    request: RpcMessage,
    status: RequestStatus,
    outcome: Option<MethodOutcome>)

  datatype HandlerPhase = AwaitingInvoke(request: nat) | AwaitingWrite(request: nat) | AwaitingRejection | Ended

  /** One activation of the data handler: its socket and the messages it has not looked at yet. */
  datatype Handler = Handler(socket: nat, rest: seq<RpcMessage>, phase: HandlerPhase)

  datatype SocketWrite = SocketWrite(socket: nat, message: RpcMessage, packet: Bytes)

  datatype Work = Work(
    activeRequests: int,
    requests: seq<AcceptedRequest>,
    handlers: seq<Handler>,
    writes: seq<SocketWrite>,
    destroyed: set<nat>)

  function EndHandler(w: Work, h: nat): Work
    requires h < |w.handlers|
  {
    w.(handlers := w.handlers[h := w.handlers[h].(rest := [], phase := Ended)])
  }

  /** The outer `catch`: the socket is destroyed and the handler ends. */
  function FailHandler(w: Work, h: nat): Work
    requires h < |w.handlers|
  {
    EndHandler(w, h).(destroyed := w.destroyed + {w.handlers[h].socket})
  }

  function WriteMessage(w: Work, h: nat, message: RpcMessage, packet: Bytes): Work
    requires h < |w.handlers|
  {
    w.(writes := w.writes + [SocketWrite(w.handlers[h].socket, message, packet)])
  }

  /** The message loop from its next message on, up to the next await. */
  function Proceed(cfg: CodecConfig, draining: bool, clock: int, w: Work, h: nat): Work
    requires h < |w.handlers|
    decreases |w.handlers[h].rest|
  {
    if w.handlers[h].rest == [] then EndHandler(w, h) else
    var message := w.handlers[h].rest[0];
    var w1 := w.(handlers := w.handlers[h := w.handlers[h].(rest := w.handlers[h].rest[1..])]);
    match message
    case Request(_, _, _, _, _) =>
      if draining then Refuse(cfg, w1, h, message) else Accept(w1, h, message)
    case Ping(id, _) =>
      var pong := Pong(id, clock);
      (match Encoded(cfg, pong)
       case Failure(_) => FailHandler(w1, h)
       case Success(packet) => Proceed(cfg, draining, clock, WriteMessage(w1, h, pong, packet), h))
    case _ => Proceed(cfg, draining, clock, w1, h)
  }

  function Refuse(cfg: CodecConfig, w: Work, h: nat, message: RpcMessage): Work
    requires h < |w.handlers| && message.Request?
  {
    match Encoded(cfg, DrainingResponse(message))
    case Failure(_) => FailHandler(w, h)
    case Success(packet) =>
      var w1 := WriteMessage(w, h, DrainingResponse(message), packet);
      w1.(handlers := w.handlers[h := w.handlers[h].(phase := AwaitingRejection)])
  }

  function Accept(w: Work, h: nat, message: RpcMessage): Work
    requires h < |w.handlers|
  {
    w.(activeRequests := w.activeRequests + 1,
       requests := w.requests + [AcceptedRequest(h, message, Invoking, None)],
       handlers := w.handlers[h := w.handlers[h].(phase := AwaitingInvoke(|w.requests|))])
  }

  function StartHandler(cfg: CodecConfig, draining: bool, clock: int, w: Work, socket: nat, messages: seq<RpcMessage>): Work {
    Proceed(cfg, draining, clock, w.(handlers := w.handlers + [Handler(socket, messages, Ended)]), |w.handlers|)
  }

  predicate CanReturn(w: Work, h: nat) {
    && h < |w.handlers| && w.handlers[h].phase.AwaitingInvoke?
    && w.handlers[h].phase.request < |w.requests| && w.requests[w.handlers[h].phase.request].request.Request?
  }

  /** The `finally` of one request, as far as the counter goes. */
  function FinishRequest(w: Work, r: nat, status: RequestStatus): Work
    requires r < |w.requests|
  {
    w.(activeRequests := w.activeRequests - 1, requests := w.requests[r := w.requests[r].(status := status)])
  }

  /** After `await invoke`: the response is encoded and written, or encoding throws. */
  function InvokeReturns(cfg: CodecConfig, w: Work, h: nat, outcome: MethodOutcome): Work
    requires CanReturn(w, h)
  {
    var r := w.handlers[h].phase.request;
    var w1 := w.(requests := w.requests[r := w.requests[r].(outcome := Some(outcome))]);
    var response := InvokeResponse(w.requests[r].request, outcome);
    match Encoded(cfg, response)
    case Failure(_) => FailHandler(FinishRequest(w1, r, EncodeFailed), h)
    case Success(packet) =>
      WriteMessage(w1, h, response, packet).(
        requests := w1.requests[r := w1.requests[r].(status := Writing)],
        handlers := w.handlers[h := w.handlers[h].(phase := AwaitingWrite(r))])
  }

  predicate CanEndWrite(w: Work, h: nat) {
    && h < |w.handlers|
    && (w.handlers[h].phase.AwaitingRejection?
        || (w.handlers[h].phase.AwaitingWrite? && w.handlers[h].phase.request < |w.requests|))
  }

  /** After `await writeSocket`, in either of its two places. */
  function WriteEnds(cfg: CodecConfig, draining: bool, clock: int, w: Work, h: nat, ok: bool): Work
    requires CanEndWrite(w, h)
  {
    var w1 := if w.handlers[h].phase.AwaitingRejection? then w
              else FinishRequest(w, w.handlers[h].phase.request, if ok then Answered else WriteFailed);
    if ok then Proceed(cfg, draining, clock, w1.(handlers := w1.handlers[h := w1.handlers[h].(phase := Ended)]), h)
    else FailHandler(w1, h)
  }

  // ----- draining -----

  datatype ServerState = Idle | Listening | Draining | Closed

  /** The two function objects of one `waitForActiveRequests`: the one stored and the promise's own. */
  datatype Closure = Resolver(waiter: nat) | PromiseResolve(waiter: nat)

  datatype Waiter = Waiting | ResolvedIdle | TimedOut

  datatype ClosePhase = AwaitingDrain | AwaitingServer | Finished
  datatype CloseCall = CloseCall(graceful: bool, waiter: Option<nat>, phase: ClosePhase)

  datatype Shutdown = Shutdown(
    state: ServerState,
    hasServer: bool,
    drainResolvers: seq<Closure>,
    waiters: seq<Waiter>,
    closes: seq<CloseCall>)

  /** Calling a stored resolver settles its promise unless the timer has settled it before. */
  function CallResolvers(waiters: seq<Waiter>, resolvers: seq<Closure>): seq<Waiter>
    decreases |resolvers|
  {
    if resolvers == [] then waiters else
    var w := resolvers[0].waiter;
    CallResolvers(if w < |waiters| && waiters[w] == Waiting then waiters[w := ResolvedIdle] else waiters, resolvers[1..])
  }

  function ResolveDrainIfIdle(d: Shutdown, activeRequests: int): Shutdown {
    if activeRequests != 0 then d else
    d.(drainResolvers := [], waiters := CallResolvers(d.waiters, d.drainResolvers))
  }

  function RemoveDrainResolver(resolvers: seq<Closure>, resolver: Closure): seq<Closure> {
    if resolvers == [] then [] else
    (if resolvers[0] != resolver then [resolvers[0]] else []) + RemoveDrainResolver(resolvers[1..], resolver)
  }

  /** `close` up to its await, once there is a server to close. */
  function BeginClose(d: Shutdown, graceful: bool, activeRequests: int): Shutdown {
    if !graceful then
      d.(hasServer := false, state := Closed, closes := d.closes + [CloseCall(false, None, AwaitingServer)])
    else if activeRequests == 0 then
      d.(hasServer := false, state := Draining, closes := d.closes + [CloseCall(true, None, AwaitingDrain)])
    else
      d.(hasServer := false, state := Draining,
         waiters := d.waiters + [Waiting],
         drainResolvers := d.drainResolvers + [Resolver(|d.waiters|)],
         closes := d.closes + [CloseCall(true, Some(|d.waiters|), AwaitingDrain)])
  }

  function FireDrainTimer(d: Shutdown, w: nat): Shutdown
    requires w < |d.waiters|
  {
    d.(drainResolvers := RemoveDrainResolver(d.drainResolvers, PromiseResolve(w)), waiters := d.waiters[w := TimedOut])
  }

  predicate CanCloseConnections(d: Shutdown, i: nat) {
    && i < |d.closes| && d.closes[i].phase == AwaitingDrain
    && (d.closes[i].waiter.Some? ==>
          d.closes[i].waiter.value < |d.waiters| && d.waiters[d.closes[i].waiter.value] != Waiting)
  }

  // ----- events -----

  /** `sockets` is the set of sockets that the server has not let go of. */
  datatype Srv = Srv(work: Work, drain: Shutdown, sockets: set<nat>, clock: int)

  function InitialServer(clock: int): Srv {
    Srv(Work(0, [], [], [], {}), Shutdown(Idle, false, [], [], []), {}, clock)
  }

  datatype Event =
    | ListenStarts
    | ListenDone
    | Accepted(socket: nat)
    | SocketGone(socket: nat)
    | DataReceived(socket: nat, messages: seq<RpcMessage>)
    | DataInvalid(socket: nat)
    | MethodSettles(handler: nat, outcome: MethodOutcome)
    | WriteSettles(handler: nat, ok: bool)
    | CloseRequested(graceful: bool)
    | DrainTimerFires(waiter: nat)
    | CloseResumes(call: nat)
    | ServerClosed(call: nat)
    | ClockAdvances(to: int)

  predicate IsDraining(s: Srv) {
    s.drain.state == Draining
  }

  function CloseConnections(s: Srv): Srv {
    s.(work := s.work.(destroyed := s.work.destroyed + s.sockets), sockets := {})
  }

  function Step(cfg: CodecConfig, s: Srv, e: Event): Srv {
    match e
    case ListenStarts => s.(drain := s.drain.(hasServer := true))
    case ListenDone => s.(drain := s.drain.(state := Listening))
    case Accepted(socket) => s.(sockets := s.sockets + {socket})
    case SocketGone(socket) => s.(sockets := s.sockets - {socket})
    case DataReceived(socket, messages) =>
      s.(work := StartHandler(cfg, IsDraining(s), s.clock, s.work, socket, messages))
    case DataInvalid(socket) => s.(work := s.work.(destroyed := s.work.destroyed + {socket}))
    case MethodSettles(h, outcome) =>
      if !CanReturn(s.work, h) then s else
      var work := InvokeReturns(cfg, s.work, h, outcome);
      if work.activeRequests == s.work.activeRequests then s.(work := work)
      else s.(work := work, drain := ResolveDrainIfIdle(s.drain, work.activeRequests))
    case WriteSettles(h, ok) =>
      if !CanEndWrite(s.work, h) then s else
      s.(work := WriteEnds(cfg, IsDraining(s), s.clock, s.work, h, ok),
         drain := if s.work.handlers[h].phase.AwaitingRejection? then s.drain
                  else ResolveDrainIfIdle(s.drain, s.work.activeRequests - 1))
    case CloseRequested(graceful) =>
      if !s.drain.hasServer then s else
      var closing := s.(drain := BeginClose(s.drain, graceful, s.work.activeRequests));
      if graceful then closing else CloseConnections(closing)
    case DrainTimerFires(w) =>
      if w < |s.drain.waiters| && s.drain.waiters[w] == Waiting then s.(drain := FireDrainTimer(s.drain, w)) else s
    case CloseResumes(i) =>
      if !CanCloseConnections(s.drain, i) then s else
      CloseConnections(s).(drain := s.drain.(closes := s.drain.closes[i := s.drain.closes[i].(phase := AwaitingServer)]))
    case ServerClosed(i) =>
      if !(i < |s.drain.closes| && s.drain.closes[i].phase == AwaitingServer) then s else
      s.(drain := s.drain.(state := if s.drain.closes[i].graceful then Closed else s.drain.state,
                           closes := s.drain.closes[i := s.drain.closes[i].(phase := Finished)]))
    case ClockAdvances(t) => if t >= s.clock then s.(clock := t) else s
  }

  function Run(cfg: CodecConfig, s: Srv, events: seq<Event>): Srv
    decreases |events|
  {
    if events == [] then s else Run(cfg, Step(cfg, s, events[0]), events[1..])
  }
}
