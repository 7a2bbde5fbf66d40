/**
 * The connection as the object that packages/core/src/client/connection.ts makes it: fields assigned in place, and
 * one method for each piece of code that runs to completion. The contract of an event is its step of module
 * Connection; where only a part of the object may change, it speaks of that part.
 */
module ConnectionObject {
  import opened Common
  import opened Messages
  import opened Errors
  import opened Codec
  import opened Connection

  lemma OneMoreMessage(messages: seq<RpcMessage>, i: nat, b: Book, now: int)
    requires i < |messages|
    ensures AnswerAll(b, messages[..i + 1], now) == Answer(AnswerAll(b, messages[..i], now), messages[i], now)
    ensures (exists m <- messages[..i + 1] :: m.Pong?) <==> (exists m <- messages[..i] :: m.Pong?) || messages[i].Pong?
  {
    var before, after := messages[..i], messages[..i + 1];
    assert after[..|after| - 1] == before && after[|after| - 1] == messages[i];
    assert after == before + [messages[i]];
    if m :| m in before && m.Pong? {
      assert m in after;
    }
    if messages[i].Pong? {
      assert messages[i] in after;
    }
  }

  const HEARTBEAT_ERROR: Error := RpcError("HEARTBEAT_TIMEOUT", "Heartbeat timeout")

  class RpcConnection {
    const options: ConnectionOptions
    const codec: RpcCodec

    var connectionPromise: Option<nat>
    var pending: map<string, nat>
    var socket: Option<nat>
    var heartbeatTimer: Option<nat>
    var lastPongAt: int
    var state: ConnectionState
    var manuallyClosed: bool
    var reconnectTimer: Option<nat>
    var reconnectAttempts: nat

    // The runtime's side: promises, sockets, suspended calls, timers and the clock.
    var sends: seq<SendRecord>
    var sockets: nat
    var destroyed: set<nat>
    var ended: set<nat>
    var writes: seq<SocketWrite>
    var attempts: map<nat, AttemptPhase>
    var results: map<nat, bool>
    var calls: seq<ConnectCall>
    var handles: nat
    var armed: set<nat>
    var delays: seq<int>
    var intervals: set<nat>
    var now: int

    ghost function LinkView(): Link
      reads this`state, this`manuallyClosed, this`connectionPromise, this`socket, this`sockets, this`destroyed,
            this`ended, this`attempts, this`results, this`calls
    {
      Link(state, manuallyClosed, connectionPromise, socket, sockets, destroyed, ended, attempts, results, calls)
    }

    ghost function BookView(): Book
      reads this`pending, this`sends
    {
      Book(pending, sends)
    }

    ghost function TimersView(): Timers
      reads this`reconnectTimer, this`reconnectAttempts, this`armed, this`delays, this`heartbeatTimer,
            this`intervals, this`lastPongAt, this`handles
    {
      Timers(reconnectTimer, reconnectAttempts, armed, delays, heartbeatTimer, intervals, lastPongAt, handles)
    }

    ghost function View(): Conn
      reads this
    {
      Conn(LinkView(), BookView(), TimersView(), writes, now)
    }

    ghost predicate Valid()
      reads this, codec, codec.queue
    {
      codec.Valid() && EntriesOk(BookView())
    }

    constructor (options: ConnectionOptions, serializer: Serializer, compression: Option<Compression>,
                 maxBodyLength: nat, maxDecompressedBodyLength: nat, now: int)
      ensures Valid() && fresh(codec) && fresh(codec.queue)
      ensures this.options == options && View() == Initial(now) && codec.queue.Contents() == []
    {
      this.options := options;
      codec := new RpcCodec(serializer, compression, maxBodyLength, maxDecompressedBodyLength);
      connectionPromise, pending, socket, heartbeatTimer := None, map[], None, None;
      lastPongAt, state, manuallyClosed, reconnectTimer, reconnectAttempts := 0, Idle, false, None, 0;
      sends, sockets, destroyed, ended, writes := [], 0, {}, {}, [];
      attempts, results, calls := map[], map[], [];
      handles, armed, delays, intervals := 0, {}, [], {};
      this.now := now;
    }

    // ----- timers -----

    method ScheduleReconnect()
      modifies this`reconnectTimer, this`reconnectAttempts, this`handles, this`armed, this`delays
      ensures TimersView() == Connection.ScheduleReconnect(options, old(TimersView()))
      ensures options.reconnect ==> reconnectTimer.Some?
      ensures options.reconnect && old(reconnectTimer).None? ==>
                reconnectTimer.value in armed && |delays| == |old(delays)| + 1
      ensures !options.reconnect || old(reconnectTimer).Some? ==> armed == old(armed) && delays == old(delays)
    {
      if reconnectTimer.Some? {
        return;
      }
      if !options.reconnect {
        return;
      }
      var initialDelay := if options.reconnectInitialDelayMs.Some? then options.reconnectInitialDelayMs.value else 100;
      var maxDelay := if options.reconnectMaxDelayMs.Some? then options.reconnectMaxDelayMs.value else 2000;
      var delay := Min(initialDelay * Pow2(reconnectAttempts), maxDelay);
      reconnectAttempts := reconnectAttempts + 1;
      reconnectTimer := Some(handles);
      armed, delays := armed + {handles}, delays + [delay];
      handles := handles + 1;
    }

    method StartHeartbeat()
      modifies this`lastPongAt, this`heartbeatTimer, this`intervals, this`handles
      ensures TimersView() == Connection.StartHeartbeat(options, old(TimersView()), now)
    {
      if options.heartbeatIntervalMs.None? || options.heartbeatIntervalMs.value == 0 {
        return;
      }
      lastPongAt := now;
      heartbeatTimer := Some(handles);
      intervals := intervals + {handles};
      handles := handles + 1;
    }

    method StopHeartbeat()
      modifies this`heartbeatTimer, this`intervals
      ensures TimersView() == Connection.StopHeartbeat(old(TimersView()))
    {
      if heartbeatTimer.None? {
        return;
      }
      intervals := intervals - {heartbeatTimer.value};
      heartbeatTimer := None;
    }

    // ----- settling sends -----

    /** `clearTimeout(timer)` and then `resolve` or `reject` of one promise. */
    method SettleSend(p: nat, outcome: Outcome)
      requires p < |sends|
      modifies this`sends
      ensures sends == old(sends)[p := Settle(old(sends)[p], outcome, now)]
    {
      sends := sends[p := sends[p].(timerArmed := false, settlements := sends[p].settlements + [Settlement(outcome, now)])];
    }

    method RejectAll(error: Error)
      requires EntriesOk(BookView())
      modifies this`pending, this`sends
      ensures EntriesOk(BookView())
      ensures BookView() == Connection.RejectAll(old(BookView()), error, now)
    {
      ghost var before := BookView();
      var remaining := pending.Keys;
      while remaining != {}
        invariant EntriesOk(BookView())
        invariant pending.Keys == remaining <= before.pending.Keys
        invariant forall id <- pending :: pending[id] == before.pending[id]
        invariant |sends| == |before.sends|
        invariant forall p | 0 <= p < |sends| ::
                    sends[p] == if IsPending(before, p) && before.sends[p].id !in pending
                                then Settle(before.sends[p], Rejected(error), now) else before.sends[p]
        decreases remaining
      {
        var id :| id in remaining;
        var p := pending[id];
        assert before.sends[p].id == id && IsPending(before, p);
        SettleSend(p, Rejected(error));
        pending := pending - {id};
        remaining := remaining - {id};
      }
      assert pending == map[];
    }

    method Send(id: string, payload: Bytes) returns (r: Result<nat, Error>)
      requires EntriesOk(BookView())
      modifies this`pending, this`sends, this`writes
      ensures EntriesOk(BookView())
      ensures View() == Connection.Send(old(View()), id, payload)
      ensures r.Success? <==> SendAccepted(old(View()))
      ensures r.Success? ==> r.value == |old(sends)|
      ensures r.Failure? ==> DefaultShouldRetry(r.error)
    {
      if socket.None? || socket.value in destroyed {
        return Failure(RpcError("CONNECTION_NOT_OPEN", "Connection is not open"));
      }
      if state != Connected {
        return Failure(RpcError("CONNECTION_NOT_CONNECTED", "Connection is not connected"));
      }
      r := Success(|sends|);
      pending := pending[id := |sends|];
      sends := sends + [SendRecord(id, now, true, [])];
      writes := writes + [SocketWrite(socket.value, payload)];
    }

    method RequestTimerFires(p: nat)
      requires EntriesOk(BookView()) && RequestTimerDue(options, View(), p)
      modifies this`pending, this`sends
      ensures EntriesOk(BookView())
      ensures BookView() == TimeOut(old(BookView()), p, now)
    {
      pending := pending - {sends[p].id};
      SettleSend(p, Rejected(RpcError("RPC_TIMEOUT", "RPC request timed out")));
    }

    /** A chunk arrives. When the codec throws, the messages of this chunk are lost and nothing else changes. */
    method HandleData(chunk: Bytes) returns (r: Result<seq<RpcMessage>, CodecError>)
      requires Valid()
      modifies this`pending, this`sends, this`lastPongAt, codec.queue
      ensures Valid()
      ensures codec.queue.Contents() == Drain(codec.Config(), old(codec.queue.Contents()) + chunk).rest
      ensures match Drain(codec.Config(), old(codec.queue.Contents()) + chunk)
              case Returned(messages, _) => r == Success(messages)
              case Threw(e, _) => r == Failure(e)
      ensures r.Success? ==>
                && BookView() == AnswerAll(old(BookView()), r.value, now)
                && lastPongAt == if exists m <- r.value :: m.Pong? then now else old(lastPongAt)
      ensures r.Failure? ==> BookView() == old(BookView()) && lastPongAt == old(lastPongAt)
    {
      r := codec.Push(chunk);
      if r.Success? {
        HandleMessages(r.value);
      }
    }

    /** The rest of the callback: the loop over the decoded messages. */
    method HandleMessages(messages: seq<RpcMessage>)
      requires EntriesOk(BookView())
      modifies this`pending, this`sends, this`lastPongAt
      ensures EntriesOk(BookView())
      ensures BookView() == AnswerAll(old(BookView()), messages, now)
      ensures lastPongAt == if exists m <- messages :: m.Pong? then now else old(lastPongAt)
    {
      for i := 0 to |messages|
        invariant EntriesOk(BookView())
        invariant BookView() == AnswerAll(old(BookView()), messages[..i], now)
        invariant lastPongAt == if exists m <- messages[..i] :: m.Pong? then now else old(lastPongAt)
      {
        OneMoreMessage(messages, i, old(BookView()), now);
        var message := messages[i];
        if message.Response? {
          AnswerPending(message);
        }
        if message.Pong? {
          lastPongAt := now;
        }
      }
      assert messages[..|messages|] == messages;
    }

    method AnswerPending(message: RpcMessage)
      requires EntriesOk(BookView()) && message.Response?
      modifies this`pending, this`sends
      ensures EntriesOk(BookView())
      ensures BookView() == Answer(old(BookView()), message, now)
      ensures message.id in old(pending) ==>
                var p := old(pending)[message.id];
                && pending == old(pending) - {message.id}
                && |sends[p].settlements| == |old(sends)[p].settlements| + 1
                && var last := sends[p].settlements[|old(sends)[p].settlements|];
                   last.at == now && if message.ok then last.outcome == Resolved(message.result) else last.outcome.Rejected?
    {
      if message.id !in pending {
        return;
      }
      var p := pending[message.id];
      pending := pending - {message.id};
      if message.ok {
        SettleSend(p, Resolved(message.result));
      } else {
        var info := if message.error.Some? then message.error.value else ErrorInfo("RPC_ERROR", "RPC call failed");
        SettleSend(p, Rejected(RpcError(info.code, info.message)));
      }
    }

    // ----- connecting -----

    /** `doConnect` up to its await. */
    method DoConnect() returns (attempt: nat)
      modifies this`manuallyClosed, this`state, this`socket, this`sockets, this`attempts
      ensures attempt == old(sockets)
      ensures LinkView() == StartAttempt(old(LinkView()))
    {
      manuallyClosed := false;
      state := Connecting;
      attempt := sockets;
      socket := Some(attempt);
      sockets := sockets + 1;
      attempts := attempts[attempt := AwaitingSocket];
    }

    /** `connect` up to its await. */
    method Connect(fromTimer: bool)
      modifies this`manuallyClosed, this`state, this`socket, this`sockets, this`attempts, this`connectionPromise, this`calls
      ensures LinkView() == Connection.Connect(old(LinkView()), fromTimer)
    {
      if state == Connected && socket.Some? && socket.value !in destroyed {
        calls := calls + [ConnectCall(fromTimer, false, None, Settled(true))];
        return;
      }
      if connectionPromise.Some? {
        calls := calls + [ConnectCall(fromTimer, false, connectionPromise, Awaiting)];
        return;
      }
      var attempt := DoConnect();
      connectionPromise := Some(attempt);
      calls := calls + [ConnectCall(fromTimer, true, Some(attempt), Awaiting)];
    }

    method ConnectRequested()
      modifies this`manuallyClosed, this`state, this`socket, this`sockets, this`attempts, this`connectionPromise, this`calls
      ensures LinkView() == Connection.Connect(old(LinkView()), false)
    {
      Connect(false);
    }

    /** The `connect` event, and the part of the `error` event that `doConnect` waits for. */
    method AwaitEnds(s: nat, phase: AttemptPhase)
      modifies this`attempts
      ensures LinkView() == Connection.AwaitEnds(old(LinkView()), s, phase)
    {
      if s in attempts && attempts[s] == AwaitingSocket {
        attempts := attempts[s := phase];
      }
    }

    /** `doConnect` after its await. */
    method AttemptResumes(a: nat)
      requires CanResume(LinkView(), a)
      modifies this
      ensures View() == Step(options, old(View()), Event.AttemptResumes(a))
    {
      var ready := attempts[a] == SocketReady;
      AttemptReturns(a);
      TimersAfterAttempt(ready);
    }

    method TimersAfterAttempt(ready: bool)
      modifies this
      ensures View() == if !ready then old(View())
                        else old(View()).(timers := Connection.StartHeartbeat(
                                                       options, Connection.ResetAttempts(old(TimersView())), now))
    {
      if ready {
        ResetAndStartHeartbeat();
      }
    }

    method ResetAndStartHeartbeat()
      modifies this`reconnectAttempts, this`delays, this`lastPongAt, this`heartbeatTimer, this`intervals, this`handles
      ensures TimersView() == Connection.StartHeartbeat(options, Connection.ResetAttempts(old(TimersView())), now)
    {
      ResetAttempts();
      StartHeartbeat();
    }

    method AttemptReturns(a: nat)
      requires CanResume(LinkView(), a)
      modifies this
      ensures View() == old(View()).(link := Connection.AttemptReturns(old(LinkView()), a))
    {
      if attempts[a] == SocketReady {
        state := Connected;
      }
      results := results[a := attempts[a] == SocketReady];
      attempts := attempts - {a};
    }

    method ResetAttempts()
      modifies this`reconnectAttempts, this`delays
      ensures TimersView() == Connection.ResetAttempts(old(TimersView()))
    {
      reconnectAttempts, delays := 0, [];
    }

    /** `connect` after its await. */
    method CallSettles(i: nat)
      requires CanSettle(LinkView(), i)
      modifies this`calls, this`connectionPromise
      ensures LinkView() == SettleCall(old(LinkView()), i)
    {
      if calls[i].owner {
        connectionPromise := None;
      }
      calls := calls[i := calls[i].(status := Settled(results[calls[i].attempt.value]))];
    }

    // ----- reconnecting -----

    method HandleUnexpectedDisconnect(error: Error)
      requires EntriesOk(BookView())
      modifies this`heartbeatTimer, this`intervals, this`pending, this`sends, this`state,
               this`reconnectTimer, this`reconnectAttempts, this`handles, this`armed, this`delays
      ensures EntriesOk(BookView()) && BookView() == Connection.RejectAll(old(BookView()), error, now)
      ensures LinkView() == if manuallyClosed then old(LinkView()) else old(LinkView()).(state := Reconnecting)
      ensures TimersView() == var t := Connection.StopHeartbeat(old(TimersView()));
                              if manuallyClosed then t else Connection.ScheduleReconnect(options, t)
    {
      StopHeartbeat();
      RejectAll(error);
      ReconnectUnlessClosed();
    }

    method ReconnectUnlessClosed()
      modifies this`state, this`reconnectTimer, this`reconnectAttempts, this`handles, this`armed, this`delays
      ensures LinkView() == if manuallyClosed then old(LinkView()) else old(LinkView()).(state := Reconnecting)
      ensures TimersView() == if manuallyClosed then old(TimersView())
                              else Connection.ScheduleReconnect(options, old(TimersView()))
    {
      if manuallyClosed {
        return;
      }
      state := Reconnecting;
      ScheduleReconnect();
    }

    method SocketErred(s: nat, error: Error)
      requires EntriesOk(BookView()) && s < sockets
      modifies this
      ensures EntriesOk(BookView()) && View() == old(var d := Connection.HandleUnexpectedDisconnect(options, View(), error);
                                   d.(link := Connection.AwaitEnds(d.link, s, SocketFailed)))
    {
      Disconnect(error);
      AwaitEnds(s, SocketFailed);
    }

    method SocketClosed(s: nat)
      requires EntriesOk(BookView()) && s < sockets
      modifies this
      ensures EntriesOk(BookView()) && View() == Connection.HandleUnexpectedDisconnect(options, old(View()),
                                                                         RpcError("CONNECTION_CLOSED", "Connection closed"))
    {
      HandleUnexpectedDisconnect(RpcError("CONNECTION_CLOSED", "Connection closed"));
    }

    /** The reconnect timer's callback up to its await. */
    method ReconnectTimerFires(timer: nat)
      requires timer in armed
      modifies this
      ensures View() == Step(options, old(View()), Event.ReconnectTimerFires(timer))
    {
      ForgetReconnectTimer(timer);
      ConnectUnlessClosed();
    }

    method ConnectUnlessClosed()
      modifies this
      ensures View() == if old(manuallyClosed) then old(View())
                        else old(View()).(link := Connection.Connect(old(LinkView()), true))
    {
      if manuallyClosed {
        return;
      }
      Connect(true);
    }

    method ForgetReconnectTimer(timer: nat)
      modifies this
      ensures View() == old(View()).(timers := old(TimersView()).(reconnectTimer := None, armed := old(armed) - {timer}))
    {
      armed := armed - {timer};
      reconnectTimer := None;
    }

    /** The reconnect timer's callback after its await. */
    method CallbackResumes(i: nat)
      requires CanResumeCallback(LinkView(), i)
      modifies this
      ensures View() == Step(options, old(View()), Event.CallbackResumes(i))
    {
      var ok := calls[i].status.ok;
      FinishCallback(i);
      TimersAfterCallback(ok);
    }

    method TimersAfterCallback(ok: bool)
      modifies this
      ensures View() == old(View()).(timers := if ok then Connection.ResetAttempts(old(TimersView()))
                                               else Connection.ScheduleReconnect(options, old(TimersView())))
    {
      if ok {
        ResetAttempts();
      } else {
        ScheduleReconnect();
      }
    }

    method FinishCallback(i: nat)
      requires CanResumeCallback(LinkView(), i)
      modifies this
      ensures View() == old(View()).(link := Connection.FinishCallback(old(LinkView()), i))
    {
      var ok := calls[i].status.ok;
      calls := calls[i := calls[i].(status := Finished(ok))];
      if !ok {
        state := Reconnecting;
      }
    }

    // ----- heartbeat and close -----

    method HeartbeatFires(timer: nat, pingId: string)
      requires EntriesOk(BookView()) && timer in intervals
      modifies this
      ensures EntriesOk(BookView())
      ensures View() == Step(options, old(View()), Event.HeartbeatFires(timer, old(PingBytes(pingId))))
    {
      if socket.None? || socket.value in destroyed {
        HeartbeatWithoutSocket();
        return;
      }
      if now - lastPongAt > HeartbeatTimeout(options) {
        HeartbeatExpired();
        return;
      }
      WritePing(pingId);
    }

    method HeartbeatWithoutSocket()
      modifies this
      ensures View() == old(View()).(timers := Connection.StopHeartbeat(old(TimersView())))
    {
      StopHeartbeat();
    }

    /** The encoded ping of this moment, unless encoding it throws. */
    ghost function PingBytes(pingId: string): Option<Bytes>
      reads this, codec
    {
      match Encoded(codec.Config(), Ping(pingId, now))
      case Success(ping) => Some(ping)
      case Failure(_) => None
    }

    method WritePing(pingId: string)
      requires socket.Some?
      modifies this`writes
      ensures writes == if old(PingBytes(pingId)).Some?
                        then old(writes) + [SocketWrite(socket.value, old(PingBytes(pingId)).value)] else old(writes)
    {
      var ping := codec.Encode(Ping(pingId, now));
      if ping.Success? {
        writes := writes + [SocketWrite(socket.value, ping.value)];
      }
    }

    method HeartbeatExpired()
      requires EntriesOk(BookView()) && socket.Some?
      modifies this
      ensures EntriesOk(BookView())
      ensures View() == old(var d := Connection.HandleUnexpectedDisconnect(options, View(), HEARTBEAT_ERROR);
                            d.(link := d.link.(destroyed := d.link.destroyed + {socket.value})))
    {
      Disconnect(HEARTBEAT_ERROR);
      DestroySocket();
    }

    /** `handleUnexpectedDisconnect`, as a change of the whole connection. */
    method Disconnect(error: Error)
      requires EntriesOk(BookView())
      modifies this
      ensures EntriesOk(BookView()) && View() == Connection.HandleUnexpectedDisconnect(options, old(View()), error)
    {
      HandleUnexpectedDisconnect(error);
    }

    method DestroySocket()
      requires socket.Some?
      modifies this
      ensures View() == old(View()).(link := old(LinkView()).(destroyed := old(destroyed) + {old(socket).value}))
    {
      destroyed := destroyed + {socket.value};
    }

    method Close()
      requires EntriesOk(BookView())
      modifies this
      ensures EntriesOk(BookView())
      ensures View() == Step(options, old(View()), CloseRequested)
    {
      CloseLink();
      StopTimers();
      RejectAll(RpcError("CONNECTION_CLOSED", "Connection closed"));
    }

    method CloseLink()
      modifies this
      ensures View() == old(View()).(link := Connection.CloseLink(old(LinkView())))
    {
      manuallyClosed := true;
      state := Closed;
      if socket.Some? {
        ended := ended + {socket.value};
      }
    }

    method StopTimers()
      modifies this
      ensures View() == old(View()).(timers := Connection.StopHeartbeat(CancelReconnect(old(TimersView()))))
    {
      ClearReconnectTimer();
      StopHeartbeat();
    }

    method ClearReconnectTimer()
      modifies this`armed, this`reconnectTimer
      ensures TimersView() == CancelReconnect(old(TimersView()))
    {
      if reconnectTimer.Some? {
        armed := armed - {reconnectTimer.value};
        reconnectTimer := None;
      }
    }
  }
}
