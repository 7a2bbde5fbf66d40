/**
 * One client connection (packages/core/src/client/connection.ts) as run-to-completion steps.
 *
 * `Conn` is the connection's fields together with what the JavaScript runtime holds for it: promises, timers,
 * suspended calls and sockets. Each `Step` is the code between two awaits, or one event callback. The class
 * `RpcConnection` of the module `ConnectionObject` performs the same steps by assignment; its contracts tie it to these
 * functions.
 */
module Connection {
  import opened Common
  import opened Messages
  import opened Errors

  datatype ConnectionState = Idle | Connecting | Connected | Reconnecting | Closed

  datatype ConnectionOptions = ConnectionOptions(
    timeoutMs: nat,
    heartbeatIntervalMs: Option<nat>,
    heartbeatTimeoutMs: Option<nat>,
    reconnect: bool,
    reconnectInitialDelayMs: Option<nat>,
    reconnectMaxDelayMs: Option<nat>)

  // ----- what the runtime holds -----

  /** One call of a promise's `resolve` or `reject`. */
  datatype Outcome = Resolved(result: Option<Value>) | Rejected(error: Error)
  datatype Settlement = Settlement(outcome: Outcome, at: int)

  /** The promise and the timer that one accepted `send` creates. */
  datatype SendRecord = SendRecord(id: string, sentAt: int, timerArmed: bool, settlements: seq<Settlement>)

  /** Where a `doConnect` that has not returned is suspended. Attempt number n creates socket number n. */
  datatype AttemptPhase = AwaitingSocket | SocketReady | SocketFailed

  /** A call of `connect`, by the application or by the reconnect timer's callback. */
  datatype ConnectCall = ConnectCall(fromTimer: bool, owner: bool, attempt: Option<nat>, status: CallStatus)
  datatype CallStatus = Awaiting | Settled(ok: bool) | Finished(ok: bool)

  datatype SocketWrite = SocketWrite(socket: nat, payload: Bytes)

  /** `pending`, and behind it every promise that `send` has made. */
  datatype Book = Book(pending: map<string, nat>, sends: seq<SendRecord>)

  /** The state fields, the sockets and the suspended calls of `connect` and `doConnect`. */
  datatype Link = Link(
    state: ConnectionState,
    manuallyClosed: bool,
    connectionPromise: Option<nat>,
    socket: Option<nat>,
    sockets: nat,
    destroyed: set<nat>,
    ended: set<nat>,
    attempts: map<nat, AttemptPhase>,
    results: map<nat, bool>,
    calls: seq<ConnectCall>)

  /** The two timer fields, their running timers, and the reconnect delays handed out since the last reset. */
  datatype Timers = Timers(
    reconnectTimer: Option<nat>,
    reconnectAttempts: nat,
    armed: set<nat>,
    delays: seq<int>,
    heartbeatTimer: Option<nat>,
    intervals: set<nat>,
    lastPongAt: int,
    handles: nat)

  datatype Conn = Conn(link: Link, book: Book, timers: Timers, writes: seq<SocketWrite>, now: int)

  function Initial(now: int): Conn {
    Conn(Link(Idle, false, None, None, 0, {}, {}, map[], map[], []),
         Book(map[], []),
         Timers(None, 0, {}, [], None, {}, 0, 0),
         [], now)
  }

  // ----- timers -----

  function ReconnectDelay(o: ConnectionOptions, attempts: nat): int {
    var initialDelay := if o.reconnectInitialDelayMs.Some? then o.reconnectInitialDelayMs.value else 100;
    var maxDelay := if o.reconnectMaxDelayMs.Some? then o.reconnectMaxDelayMs.value else 2000;
    Min(initialDelay * Pow2(attempts), maxDelay)
  }

  function ScheduleReconnect(o: ConnectionOptions, t: Timers): Timers {
    if t.reconnectTimer.Some? || !o.reconnect then t else
    t.(reconnectAttempts := t.reconnectAttempts + 1,
       reconnectTimer := Some(t.handles),
       handles := t.handles + 1,
       armed := t.armed + {t.handles},
       delays := t.delays + [ReconnectDelay(o, t.reconnectAttempts)])
  }

  function ResetAttempts(t: Timers): Timers {
    t.(reconnectAttempts := 0, delays := [])
  }

  function CancelReconnect(t: Timers): Timers {
    if t.reconnectTimer.None? then t else
    t.(armed := t.armed - {t.reconnectTimer.value}, reconnectTimer := None)
  }

  function StopHeartbeat(t: Timers): Timers {
    if t.heartbeatTimer.None? then t else
    t.(intervals := t.intervals - {t.heartbeatTimer.value}, heartbeatTimer := None)
  }

  predicate HeartbeatEnabled(o: ConnectionOptions) {
    o.heartbeatIntervalMs.Some? && o.heartbeatIntervalMs.value != 0
  }

  function StartHeartbeat(o: ConnectionOptions, t: Timers, now: int): Timers {
    if !HeartbeatEnabled(o) then t else
    t.(lastPongAt := now,
       heartbeatTimer := Some(t.handles),
       handles := t.handles + 1,
       intervals := t.intervals + {t.handles})
  }

  function HeartbeatTimeout(o: ConnectionOptions): int {
    if o.heartbeatTimeoutMs.Some? then o.heartbeatTimeoutMs.value
    else if o.heartbeatIntervalMs.Some? then o.heartbeatIntervalMs.value * 2
    else 0
  }

  // ----- settling sends -----

  /** Stops the timer and calls `resolve` or `reject` of one promise. */
  function Settle(r: SendRecord, outcome: Outcome, now: int): SendRecord {
    r.(timerArmed := false, settlements := r.settlements + [Settlement(outcome, now)])
  }

  predicate IsPending(b: Book, p: nat) {
    p < |b.sends| && b.sends[p].id in b.pending && b.pending[b.sends[p].id] == p
  }

  /** Every entry of `pending` belongs to the send that made it. */
  ghost predicate EntriesOk(b: Book) {
    forall id <- b.pending :: b.pending[id] < |b.sends| && b.sends[b.pending[id]].id == id
  }

  function AddSend(b: Book, id: string, now: int): Book {
    Book(b.pending[id := |b.sends|], b.sends + [SendRecord(id, now, true, [])])
  }

  function RejectAll(b: Book, error: Error, now: int): Book {
    Book(map[],
         seq(|b.sends|, p requires 0 <= p < |b.sends| =>
           if IsPending(b, p) then Settle(b.sends[p], Rejected(error), now) else b.sends[p]))
  }

  /** The timer's callback deletes whatever entry has the id, and rejects its own promise. */
  function TimeOut(b: Book, p: nat, now: int): Book
    requires p < |b.sends|
  {
    Book(b.pending - {b.sends[p].id},
         b.sends[p := Settle(b.sends[p], Rejected(RpcError("RPC_TIMEOUT", "RPC request timed out")), now)])
  }

  function ResponseOutcome(m: RpcMessage): Outcome
    requires m.Response?
  {
    if m.ok then Resolved(m.result)
    else if m.error.Some? then Rejected(RpcError(m.error.value.code, m.error.value.message))
    else Rejected(RpcError("RPC_ERROR", "RPC call failed"))
  }

  function Answer(b: Book, m: RpcMessage, now: int): Book {
    if m.Response? && m.id in b.pending && b.pending[m.id] < |b.sends| then
      var p := b.pending[m.id];
      Book(b.pending - {m.id}, b.sends[p := Settle(b.sends[p], ResponseOutcome(m), now)])
    else b
  }

  function AnswerAll(b: Book, messages: seq<RpcMessage>, now: int): Book
    decreases |messages|
  {
    if messages == [] then b else Answer(AnswerAll(b, messages[..|messages| - 1], now), messages[|messages| - 1], now)
  }

  /** The messages of one data event, in order. */
  function DeliverAll(c: Conn, messages: seq<RpcMessage>): Conn {
    c.(book := AnswerAll(c.book, messages, c.now),
       timers := if exists m <- messages :: m.Pong? then c.timers.(lastPongAt := c.now) else c.timers)
  }

  // ----- connecting -----

  /** `doConnect` up to its await: a new socket with its listeners. */
  function StartAttempt(l: Link): Link {
    l.(manuallyClosed := false,
       state := Connecting,
       socket := Some(l.sockets),
       attempts := l.attempts[l.sockets := AwaitingSocket],
       sockets := l.sockets + 1)
  }

  predicate IsOpen(l: Link) {
    l.state == Connected && l.socket.Some? && l.socket.value !in l.destroyed
  }

  /** `connect` up to its await. */
  function Connect(l: Link, fromTimer: bool): Link {
    if IsOpen(l) then
      l.(calls := l.calls + [ConnectCall(fromTimer, false, None, Settled(true))])
    else if l.connectionPromise.Some? then
      l.(calls := l.calls + [ConnectCall(fromTimer, false, l.connectionPromise, Awaiting)])
    else
      StartAttempt(l).(
        connectionPromise := Some(l.sockets),
        calls := l.calls + [ConnectCall(fromTimer, true, Some(l.sockets), Awaiting)])
  }

  /** A `connect` or `error` event settles what `doConnect` awaits, once. */
  function AwaitEnds(l: Link, a: nat, phase: AttemptPhase): Link {
    if a in l.attempts && l.attempts[a] == AwaitingSocket then l.(attempts := l.attempts[a := phase]) else l
  }

  predicate CanResume(l: Link, a: nat) {
    a in l.attempts && l.attempts[a] != AwaitingSocket
  }

  /** `doConnect` after its await, as far as the link goes. */
  function AttemptReturns(l: Link, a: nat): Link
    requires CanResume(l, a)
  {
    var ok := l.attempts[a] == SocketReady;
    var returned := l.(attempts := l.attempts - {a}, results := l.results[a := ok]);
    if ok then returned.(state := Connected) else returned
  }

  predicate CanSettle(l: Link, i: nat) {
    && i < |l.calls| && l.calls[i].status == Awaiting
    && l.calls[i].attempt.Some? && l.calls[i].attempt.value in l.results
  }

  /** `connect` after its await; the owner of the attempt clears the shared promise. */
  function SettleCall(l: Link, i: nat): Link
    requires CanSettle(l, i)
  {
    var call := l.calls[i];
    var d := l.(calls := l.calls[i := call.(status := Settled(l.results[call.attempt.value]))]);
    if call.owner then d.(connectionPromise := None) else d
  }

  predicate CanResumeCallback(l: Link, i: nat) {
    i < |l.calls| && l.calls[i].fromTimer && l.calls[i].status.Settled?
  }

  /** The reconnect timer's callback after its await. */
  function FinishCallback(l: Link, i: nat): Link
    requires CanResumeCallback(l, i)
  {
    var ok := l.calls[i].status.ok;
    var d := l.(calls := l.calls[i := l.calls[i].(status := Finished(ok))]);
    if ok then d else d.(state := Reconnecting)
  }

  // ----- events -----

  datatype Event =
    | ConnectRequested
    | SendRequested(id: string, payload: Bytes)
    | CloseRequested
    | SocketConnected(socket: nat)
    | SocketErred(socket: nat, error: Error)
    | SocketClosed(socket: nat)
    | SocketDestroyed(socket: nat)
    | DataReceived(messages: seq<RpcMessage>)
    | AttemptResumes(attempt: nat)
    | CallSettles(call: nat)
    | CallbackResumes(call: nat)
    | RequestTimerFires(send: nat)
    | ReconnectTimerFires(timer: nat)
    | HeartbeatFires(timer: nat, ping: Option<Bytes>)
    | TimeAdvances(to: int)

  function HandleUnexpectedDisconnect(o: ConnectionOptions, c: Conn, error: Error): Conn {
    var d := c.(timers := StopHeartbeat(c.timers), book := RejectAll(c.book, error, c.now));
    if d.link.manuallyClosed then d
    else d.(link := d.link.(state := Reconnecting), timers := ScheduleReconnect(o, d.timers))
  }

  predicate SendAccepted(c: Conn) {
    c.link.socket.Some? && c.link.socket.value !in c.link.destroyed && c.link.state == Connected
  }

  function Send(c: Conn, id: string, payload: Bytes): Conn {
    if !SendAccepted(c) then c else
    c.(book := AddSend(c.book, id, c.now), writes := c.writes + [SocketWrite(c.link.socket.value, payload)])
  }

  function CloseLink(l: Link): Link {
    l.(manuallyClosed := true, state := Closed, ended := if l.socket.None? then l.ended else l.ended + {l.socket.value})
  }

  function Close(c: Conn): Conn {
    c.(link := CloseLink(c.link),
       timers := StopHeartbeat(CancelReconnect(c.timers)),
       book := RejectAll(c.book, RpcError("CONNECTION_CLOSED", "Connection closed"), c.now))
  }

  function ResumeAttempt(o: ConnectionOptions, c: Conn, a: nat): Conn
    requires CanResume(c.link, a)
  {
    c.(link := AttemptReturns(c.link, a),
       timers := if c.link.attempts[a] == SocketReady then StartHeartbeat(o, ResetAttempts(c.timers), c.now) else c.timers)
  }

  function ResumeCallback(o: ConnectionOptions, c: Conn, i: nat): Conn
    requires CanResumeCallback(c.link, i)
  {
    c.(link := FinishCallback(c.link, i),
       timers := if c.link.calls[i].status.ok then ResetAttempts(c.timers) else ScheduleReconnect(o, c.timers))
  }

  predicate RequestTimerDue(o: ConnectionOptions, c: Conn, p: nat) {
    p < |c.book.sends| && c.book.sends[p].timerArmed && c.now >= c.book.sends[p].sentAt + o.timeoutMs
  }

  function FireReconnectTimer(c: Conn, timer: nat): Conn {
    var d := c.(timers := c.timers.(reconnectTimer := None, armed := c.timers.armed - {timer}));
    if d.link.manuallyClosed then d else d.(link := Connect(d.link, true))
  }

  /** `ping` is the encoded ping message; encoding it can throw, which leaves the connection as it is. */
  function FireHeartbeat(o: ConnectionOptions, c: Conn, ping: Option<Bytes>): Conn {
    if c.link.socket.None? || c.link.socket.value in c.link.destroyed then c.(timers := StopHeartbeat(c.timers))
    else if c.now - c.timers.lastPongAt > HeartbeatTimeout(o) then
      var d := HandleUnexpectedDisconnect(o, c, RpcError("HEARTBEAT_TIMEOUT", "Heartbeat timeout"));
      d.(link := d.link.(destroyed := d.link.destroyed + {c.link.socket.value}))
    else if ping.Some? then c.(writes := c.writes + [SocketWrite(c.link.socket.value, ping.value)])
    else c
  }

  /** One event. An event that the runtime cannot raise in this state changes nothing. */
  function Step(o: ConnectionOptions, c: Conn, e: Event): Conn {
    match e
    case ConnectRequested => c.(link := Connect(c.link, false))
    case SendRequested(id, payload) => Send(c, id, payload)
    case CloseRequested => Close(c)
    case SocketConnected(s) => c.(link := AwaitEnds(c.link, s, SocketReady))
    case SocketErred(s, error) =>
      if s >= c.link.sockets then c else
      var d := HandleUnexpectedDisconnect(o, c, error);
      d.(link := AwaitEnds(d.link, s, SocketFailed))
    case SocketClosed(s) =>
      if s >= c.link.sockets then c
      else HandleUnexpectedDisconnect(o, c, RpcError("CONNECTION_CLOSED", "Connection closed"))
    case SocketDestroyed(s) =>
      if s >= c.link.sockets then c else c.(link := c.link.(destroyed := c.link.destroyed + {s}))
    case DataReceived(messages) => DeliverAll(c, messages)
    case AttemptResumes(a) => if CanResume(c.link, a) then ResumeAttempt(o, c, a) else c
    case CallSettles(i) => if CanSettle(c.link, i) then c.(link := SettleCall(c.link, i)) else c
    case CallbackResumes(i) => if CanResumeCallback(c.link, i) then ResumeCallback(o, c, i) else c
    case RequestTimerFires(p) => if RequestTimerDue(o, c, p) then c.(book := TimeOut(c.book, p, c.now)) else c
    case ReconnectTimerFires(t) => if t in c.timers.armed then FireReconnectTimer(c, t) else c
    case HeartbeatFires(t, ping) => if t in c.timers.intervals then FireHeartbeat(o, c, ping) else c
    case TimeAdvances(t) => if t >= c.now then c.(now := t) else c
  }

  function Run(o: ConnectionOptions, c: Conn, events: seq<Event>): Conn
    decreases |events|
  {
    if events == [] then c else Run(o, Step(o, c, events[0]), events[1..])
  }
}
