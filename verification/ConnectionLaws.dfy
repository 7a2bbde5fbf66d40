/**
 * What each event of a connection comes to, in terms of what the application and the network see: with what a send is
 * settled, when a reconnect is armed and that it can succeed, when a heartbeat gives the connection up.
 */
module ConnectionLaws {
  import opened Common
  import opened Messages
  import opened Errors
  import opened Connection
  import opened ConnectionProofs
  import opened ConnectDiscipline
  import opened Heartbeat

  // ----- with what a send is settled -----

  /** The first response to this id among the messages. */
  function FirstAnswer(messages: seq<RpcMessage>, id: string): (m: Option<RpcMessage>)
    ensures m.Some? ==> m.value.Response? && m.value.id == id
  {
    if messages == [] then None
    else if messages[0].Response? && messages[0].id == id then Some(messages[0])
    else FirstAnswer(messages[1..], id)
  }

  lemma {:induction false} FirstAnswerSnoc(messages: seq<RpcMessage>, m: RpcMessage, id: string)
    ensures FirstAnswer(messages + [m], id)
         == if FirstAnswer(messages, id).Some? then FirstAnswer(messages, id)
            else if m.Response? && m.id == id then Some(m) else None
    decreases |messages|
  {
    if messages == [] {
      assert [] + [m] == [m] && [m][1..] == [];
    } else {
      assert (messages + [m])[1..] == messages[1..] + [m];
      FirstAnswerSnoc(messages[1..], m, id);
    }
  }

  /** A success resolves with its result; a failure rejects with its own code and message, or with the defaults. */
  predicate Carries(outcome: Outcome, m: RpcMessage) {
    && m.Response?
    && (m.ok ==> outcome == Resolved(m.result))
    && (!m.ok && m.error.Some? ==> outcome == Rejected(RpcError(m.error.value.code, m.error.value.message)))
    && (!m.ok && m.error.None? ==> outcome == Rejected(RpcError("RPC_ERROR", "RPC call failed")))
  }

  /** The record has been settled once more, at `now`, and its timer is off. */
  predicate SettledNow(r: SendRecord, r': SendRecord, now: int) {
    && |r'.settlements| == |r.settlements| + 1
    && r'.settlements[|r.settlements|].at == now
    && r' == r.(timerArmed := false, settlements := r.settlements + [r'.settlements[|r.settlements|]])
  }

  function LastOutcome(r: SendRecord): Outcome
    requires r.settlements != []
  {
    r.settlements[|r.settlements| - 1].outcome
  }

  predicate DeliveredTo(b: Book, d: Book, p: nat, messages: seq<RpcMessage>, now: int)
    requires p < |b.sends| == |d.sends|
  {
    var answer := FirstAnswer(messages, b.sends[p].id);
    if IsPending(b, p) && answer.Some? then
      SettledNow(b.sends[p], d.sends[p], now) && Carries(LastOutcome(d.sends[p]), answer.value)
    else d.sends[p] == b.sends[p]
  }

  ghost predicate Delivered(b: Book, d: Book, messages: seq<RpcMessage>, now: int) {
    && |d.sends| == |b.sends|
    && (forall id :: id in d.pending <==> id in b.pending && FirstAnswer(messages, id).None?)
    && (forall id <- d.pending :: d.pending[id] == b.pending[id])
    && (forall p | 0 <= p < |b.sends| :: DeliveredTo(b, d, p, messages, now))
  }

  lemma AnswerDelivers(b: Book, before: seq<RpcMessage>, b1: Book, m: RpcMessage, now: int)
    requires EntriesOk(b) && Delivered(b, b1, before, now)
    ensures Delivered(b, Answer(b1, m, now), before + [m], now)
  {
    var d := Answer(b1, m, now);
    forall id
      ensures id in d.pending <==> id in b.pending && FirstAnswer(before + [m], id).None?
    {
      FirstAnswerSnoc(before, m, id);
    }
    forall p | 0 <= p < |b.sends|
      ensures DeliveredTo(b, d, p, before + [m], now)
    {
      assert DeliveredTo(b, b1, p, before, now);
      FirstAnswerSnoc(before, m, b.sends[p].id);
    }
  }

  lemma {:induction false} AnswerAllDelivers(b: Book, messages: seq<RpcMessage>, now: int)
    requires EntriesOk(b)
    ensures Delivered(b, AnswerAll(b, messages, now), messages, now)
    decreases |messages|
  {
    if messages != [] {
      var before, last := messages[..|messages| - 1], messages[|messages| - 1];
      AnswerAllDelivers(b, before, now);
      AnswerDelivers(b, before, AnswerAll(b, before, now), last, now);
      assert before + [last] == messages;
    }
  }

  /**
   * Delivery: of the messages that come in, the first response to a pending id settles its send, once and now, with what it
   * carries, and takes the entry away; every other entry and every other send stays as it is.
   */
  lemma DeliverySettles(o: ConnectionOptions, c: Conn, messages: seq<RpcMessage>)
    requires EntriesOk(c.book)
    ensures var d := Step(o, c, DataReceived(messages));
            Delivered(c.book, d.book, messages, c.now) && d.link == c.link && d.writes == c.writes
  {
    AnswerAllDelivers(c.book, messages, c.now);
  }

  /** Whatever ids are used, every entry belongs to the send that made it, so that the law holds at any point of any run. */
  lemma StepKeepsEntries(o: ConnectionOptions, c: Conn, e: Event)
    requires EntriesOk(c.book)
    ensures EntriesOk(Step(o, c, e).book)
  {
    StepBook(o, c, e);
    if e.DataReceived? {
      AnswerAllDelivers(c.book, e.messages, c.now);
      forall id <- Step(o, c, e).book.pending
        ensures Step(o, c, e).book.sends[c.book.pending[id]].id == id
      {
        assert DeliveredTo(c.book, Step(o, c, e).book, c.book.pending[id], e.messages, c.now);
      }
    }
  }

  lemma {:induction false} EveryRunKeepsEntries(o: ConnectionOptions, c: Conn, events: seq<Event>)
    requires EntriesOk(c.book)
    ensures EntriesOk(Run(o, c, events).book)
    decreases |events|
  {
    if events != [] {
      StepKeepsEntries(o, c, events[0]);
      EveryRunKeepsEntries(o, Step(o, c, events[0]), events[1..]);
    }
  }

  /** Everything pending is rejected with this error now, and nothing else is touched. */
  predicate AllRejected(b: Book, d: Book, error: Error, now: int) {
    && d.pending == map[] && |d.sends| == |b.sends|
    && forall p | 0 <= p < |b.sends| ::
         d.sends[p] == if IsPending(b, p)
                       then b.sends[p].(timerArmed := false,
                                        settlements := b.sends[p].settlements + [Settlement(Rejected(error), now)])
                       else b.sends[p]
  }

  predicate SocketIsOpen(l: Link) {
    l.socket.Some? && l.socket.value !in l.destroyed
  }

  /** The pong of a heartbeat that ticks now is overdue: by the timeout, or else two intervals. */
  predicate PongOverdue(o: ConnectionOptions, c: Conn) {
    c.now - c.timers.lastPongAt >
    if o.heartbeatTimeoutMs.Some? then o.heartbeatTimeoutMs.value
    else if o.heartbeatIntervalMs.Some? then 2 * o.heartbeatIntervalMs.value else 0
  }

  predicate HeartbeatGivesUp(o: ConnectionOptions, c: Conn, e: Event) {
    e.HeartbeatFires? && e.timer in c.timers.intervals && SocketIsOpen(c.link) && PongOverdue(o, c)
  }

  /** The error with which a lost connection rejects what is pending. */
  function LossOf(o: ConnectionOptions, c: Conn, e: Event): Option<Error> {
    if e.SocketClosed? && e.socket < c.link.sockets then Some(RpcError("CONNECTION_CLOSED", "Connection closed"))
    else if e.SocketErred? && e.socket < c.link.sockets then Some(e.error)
    else if HeartbeatGivesUp(o, c, e) then Some(RpcError("HEARTBEAT_TIMEOUT", "Heartbeat timeout"))
    else None
  }

  /** Losing the connection, or closing it, rejects every pending send at once. */
  lemma LossRejectsPending(o: ConnectionOptions, c: Conn, e: Event)
    ensures LossOf(o, c, e).Some? ==> AllRejected(c.book, Step(o, c, e).book, LossOf(o, c, e).value, c.now)
    ensures e.CloseRequested? ==>
              AllRejected(c.book, Step(o, c, e).book, RpcError("CONNECTION_CLOSED", "Connection closed"), c.now)
    ensures HeartbeatGivesUp(o, c, e) ==> c.link.socket.value in Step(o, c, e).link.destroyed
  {
  }

  /** `close` marks the connection closed by hand and ends its socket; an attempt in flight goes on. */
  lemma CloseEndsSocket(o: ConnectionOptions, c: Conn)
    ensures var l, d := c.link, Step(o, c, CloseRequested).link;
            && d.state == Closed && d.manuallyClosed
            && d.ended == l.ended + (if l.socket.Some? then {l.socket.value} else {})
            && d.sockets == l.sockets && d.destroyed == l.destroyed && d.attempts == l.attempts
  {
  }

  /** A request timer that is due rejects its own send, and takes the entry under its id away. */
  lemma TimeoutRejects(o: ConnectionOptions, c: Conn, p: nat)
    requires p < |c.book.sends| && c.book.sends[p].timerArmed && c.now >= c.book.sends[p].sentAt + o.timeoutMs
    ensures var b, d := c.book, Step(o, c, RequestTimerFires(p)).book;
            && d.pending == b.pending - {b.sends[p].id}
            && |d.sends| == |b.sends| && SettledNow(b.sends[p], d.sends[p], c.now)
            && LastOutcome(d.sends[p]) == Rejected(RpcError("RPC_TIMEOUT", "RPC request timed out"))
            && forall q | 0 <= q < |b.sends| && q != p :: d.sends[q] == b.sends[q]
  {
  }

  /** A send goes out exactly on an open connection: one write, one entry and one running timer; otherwise nothing. */
  lemma SendGoesOutExactlyWhen(o: ConnectionOptions, c: Conn, id: string, payload: Bytes)
    ensures var d := Step(o, c, SendRequested(id, payload));
            if c.link.state == Connected && SocketIsOpen(c.link) then
              && d.writes == c.writes + [SocketWrite(c.link.socket.value, payload)]
              && d.book.sends == c.book.sends + [SendRecord(id, c.now, true, [])]
              && d.book.pending == c.book.pending[id := |c.book.sends|]
            else d == c
  {
  }

  // ----- reconnecting -----

  /** The reconnect timer's callback whose `connect` has failed goes on. */
  predicate ReconnectFails(c: Conn, e: Event) {
    e.CallbackResumes? && e.call < |c.link.calls| && c.link.calls[e.call].fromTimer
    && c.link.calls[e.call].status == Settled(false)
  }

  predicate LosesConnection(o: ConnectionOptions, c: Conn, e: Event) {
    (LossOf(o, c, e).Some? && !c.link.manuallyClosed) || ReconnectFails(c, e)
  }

  /** The delay of the next reconnect: it doubles with each one handed out since the last reset. */
  function NextDelay(o: ConnectionOptions, t: Timers): int {
    Min((if o.reconnectInitialDelayMs.Some? then o.reconnectInitialDelayMs.value else 100) * Pow2(|t.delays|),
        if o.reconnectMaxDelayMs.Some? then o.reconnectMaxDelayMs.value else 2000)
  }

  /** Nothing changes with `reconnect` off or a timer armed; otherwise one is armed, with the next delay. */
  predicate ArmedOnce(o: ConnectionOptions, t: Timers, d: Timers) {
    && (!o.reconnect || t.armed != {} ==> d.armed == t.armed && d.delays == t.delays)
    && (o.reconnect ==> |d.armed| == 1)
    && (o.reconnect && t.armed == {} ==> d.delays == t.delays + [NextDelay(o, t)])
  }

  lemma ScheduleArmsOnce(o: ConnectionOptions, t: Timers)
    requires OneTimer(o, t)
    ensures ArmedOnce(o, t, ScheduleReconnect(o, t)) && ArmedOnce(o, t, ScheduleReconnect(o, StopHeartbeat(t)))
  {
    if t.reconnectTimer.Some? {
      assert |{t.reconnectTimer.value}| == 1;
    } else if o.reconnect {
      assert ScheduleReconnect(o, t).armed == {t.handles} && ScheduleReconnect(o, StopHeartbeat(t)).armed == {t.handles};
    }
  }

  lemma LossSchedules(o: ConnectionOptions, c: Conn, e: Event)
    ensures var d := Step(o, c, e);
            && (LossOf(o, c, e).Some? && !c.link.manuallyClosed ==>
                  d.link.state == Reconnecting && d.timers == ScheduleReconnect(o, StopHeartbeat(c.timers)))
            && (LossOf(o, c, e).Some? && c.link.manuallyClosed ==>
                  d.link.state == c.link.state && d.timers == StopHeartbeat(c.timers))
            && (ReconnectFails(c, e) ==> d.link.state == Reconnecting && d.timers == ScheduleReconnect(o, c.timers))
  {
  }

  /**
   * A lost connection comes back: with `reconnect` on, a lost connection that was not closed by hand, or a reconnect that
   * failed, leaves exactly one timer armed, a new one with the next delay unless one was armed before. With `reconnect`
   * off no timer is added. A connection closed by hand gets none either.
   */
  lemma LossArmsReconnect(o: ConnectionOptions, c: Conn, e: Event)
    requires OneTimer(o, c.timers)
    ensures LosesConnection(o, c, e) ==>
              Step(o, c, e).link.state == Reconnecting && ArmedOnce(o, c.timers, Step(o, c, e).timers)
    ensures LossOf(o, c, e).Some? && c.link.manuallyClosed ==>
              Step(o, c, e).timers.armed == c.timers.armed && Step(o, c, e).link.state == c.link.state
  {
    LossSchedules(o, c, e);
    ScheduleArmsOnce(o, c.timers);
  }

  /** A connection that is established starts counting delays anew, and so does a reconnect that succeeded. */
  lemma SuccessResetsDelays(o: ConnectionOptions, c: Conn, e: Event)
    requires || (e.AttemptResumes? && e.attempt in c.link.attempts && c.link.attempts[e.attempt] == SocketReady)
             || (e.CallbackResumes? && e.call < |c.link.calls| && c.link.calls[e.call].fromTimer
                 && c.link.calls[e.call].status == Settled(true))
    ensures Step(o, c, e).timers.delays == [] && Step(o, c, e).timers.reconnectAttempts == 0
    ensures e.AttemptResumes? ==> Step(o, c, e).link.state == Connected
  {
  }

  /** When the armed timer fires with no attempt in flight, a socket that then connects brings the connection back. */
  lemma ReconnectCanSucceed(o: ConnectionOptions, c: Conn, timer: nat)
    requires timer in c.timers.armed && !c.link.manuallyClosed && c.link.state != Connected
    requires c.link.connectionPromise.None? && c.link.sockets !in c.link.destroyed
    ensures var s := c.link.sockets;
            var l := Run(o, c, [ReconnectTimerFires(timer), SocketConnected(s), AttemptResumes(s)]).link;
            l.state == Connected && l.socket == Some(s) && SocketIsOpen(l) && l.results[s := true] == l.results
  {
    var s := c.link.sockets;
    var e1, e2, e3 := ReconnectTimerFires(timer), SocketConnected(s), AttemptResumes(s);
    RunThree(o, c, e1, e2, e3);
    var c1 := Step(o, c, e1);
    assert c1.link.attempts[s] == AwaitingSocket;
    var c2 := Step(o, c1, e2);
    assert c2.link.attempts[s] == SocketReady;
  }

  /** `connect` opens a socket exactly when there is neither an open connection nor an attempt to join. */
  lemma ConnectOpensExactlyWhen(o: ConnectionOptions, c: Conn)
    ensures var l, d := c.link, Step(o, c, ConnectRequested).link;
            if l.connectionPromise.None? && !(l.state == Connected && SocketIsOpen(l)) then
              d.sockets == l.sockets + 1 && d.socket == Some(l.sockets) && d.state == Connecting && !d.manuallyClosed
            else d == l.(calls := d.calls)
    ensures |Step(o, c, ConnectRequested).link.calls| == |c.link.calls| + 1
  {
  }

  // ----- the heartbeat -----

  /**
   * A tick stops the heartbeat without an open socket; gives the connection up when the pong is overdue; and otherwise
   * sends a ping.
   */
  lemma HeartbeatTicks(o: ConnectionOptions, c: Conn, timer: nat, ping: Option<Bytes>)
    requires timer in c.timers.intervals && OneInterval(c.timers)
    ensures var d := Step(o, c, HeartbeatFires(timer, ping));
            && (!SocketIsOpen(c.link) ==> d.timers.intervals == {} && d.link == c.link && d.book == c.book)
            && (SocketIsOpen(c.link) && PongOverdue(o, c) ==> d.timers.intervals == {} && !SocketIsOpen(d.link))
            && (SocketIsOpen(c.link) && !PongOverdue(o, c) && ping.Some? ==>
                  d == c.(writes := c.writes + [SocketWrite(c.link.socket.value, ping.value)]))
  {
  }

  /** `close`, a lost connection and an error leave no heartbeat running. */
  lemma LossStopsHeartbeat(o: ConnectionOptions, c: Conn, e: Event)
    requires OneInterval(c.timers) && (e.CloseRequested? || LossOf(o, c, e).Some?)
    ensures Step(o, c, e).timers.intervals == {}
    ensures e.CloseRequested? && OneTimer(o, c.timers) ==> Step(o, c, e).timers.armed == {}
  {
  }

  /** Establishing a connection starts a heartbeat exactly when an interval is configured, with a fresh pong time. */
  lemma EstablishedStartsHeartbeat(o: ConnectionOptions, c: Conn, a: nat)
    requires a in c.link.attempts && c.link.attempts[a] == SocketReady && c.timers.heartbeatTimer.None?
    requires OneInterval(c.timers)
    ensures var d := Step(o, c, AttemptResumes(a)).timers;
            if o.heartbeatIntervalMs.Some? && o.heartbeatIntervalMs.value > 0 then |d.intervals| == 1 && d.lastPongAt == c.now
            else d.intervals == {}
  {
    if o.heartbeatIntervalMs.Some? && o.heartbeatIntervalMs.value > 0 {
      assert Step(o, c, AttemptResumes(a)).timers.intervals == {c.timers.handles};
    }
  }

  predicate HeardSince(c: Conn, since: int) {
    since <= c.timers.lastPongAt <= c.now
  }

  lemma StepKeepsHeard(o: ConnectionOptions, c: Conn, e: Event, since: int)
    requires HeardSince(c, since)
    ensures HeardSince(Step(o, c, e), since)
  {
    StepTimers(o, c, e);
  }

  lemma {:induction false} HeardInRun(o: ConnectionOptions, c: Conn, events: seq<Event>, since: int)
    requires HeardSince(c, since)
    ensures HeardSince(Run(o, c, events), since)
    decreases |events|
  {
    if events != [] {
      StepKeepsHeard(o, c, events[0], since);
      HeardInRun(o, Step(o, c, events[0]), events[1..], since);
    }
  }

  /** The connection is established now with a heartbeat, or a pong comes in now. */
  predicate HeardNow(o: ConnectionOptions, c: Conn, e: Event) {
    || (e.DataReceived? && exists m <- e.messages :: m.Pong?)
    || (e.AttemptResumes? && e.attempt in c.link.attempts && c.link.attempts[e.attempt] == SocketReady
        && o.heartbeatIntervalMs.Some? && o.heartbeatIntervalMs.value > 0)
  }

  /**
   * A heartbeat gives up on nobody who was heard of within the timeout: after the connection was established, or a pong
   * came in, no tick in any run gives it up before more than the timeout has passed.
   */
  lemma NoGivingUpWithinTimeout(o: ConnectionOptions, c: Conn, heard: Event, events: seq<Event>, tick: Event)
    requires HeardNow(o, c, heard)
    requires var d := Run(o, Step(o, c, heard), events);
             d.now - c.now <= if o.heartbeatTimeoutMs.Some? then o.heartbeatTimeoutMs.value
                              else if o.heartbeatIntervalMs.Some? then 2 * o.heartbeatIntervalMs.value else 0
    ensures !HeartbeatGivesUp(o, Run(o, Step(o, c, heard), events), tick)
  {
    HeardInRun(o, Step(o, c, heard), events, c.now);
  }
}
