/**
 * The heartbeat interval: when a second one is started under a running one, that the first is then never stopped, and
 * that this does not happen while the close events of destroyed sockets come before the next socket connects.
 */
module Heartbeat {
  import opened Common
  import opened Connection
  import opened ConnectDiscipline

  // ----- one interval -----

  /** The only running interval is the one that `stopHeartbeat` would clear. */
  predicate OneInterval(t: Timers) {
    && t.intervals == (if t.heartbeatTimer.None? then {} else {t.heartbeatTimer.value})
    && (t.heartbeatTimer.Some? ==> t.heartbeatTimer.value < t.handles)
  }

  /** A successful attempt starts a heartbeat without stopping the previous one. */
  predicate StartsSecondHeartbeat(o: ConnectionOptions, c: Conn, e: Event) {
    && e.AttemptResumes? && CanResume(c.link, e.attempt) && c.link.attempts[e.attempt] == SocketReady
    && HeartbeatEnabled(o) && c.timers.heartbeatTimer.Some?
  }

  /** Every step keeps a single heartbeat interval, except a reconnection under a running heartbeat, which leaks one. */
  lemma HeartbeatLeaksExactlyWhen(o: ConnectionOptions, c: Conn, e: Event)
    requires OneInterval(c.timers)
    ensures OneInterval(Step(o, c, e).timers) <==> !StartsSecondHeartbeat(o, c, e)
  {
    StepTimers(o, c, e);
    if StartsSecondHeartbeat(o, c, e) {
      var d := Step(o, c, e).timers;
      assert d == StartHeartbeat(o, ResetAttempts(c.timers), c.now);
      assert c.timers.heartbeatTimer.value in d.intervals && d.heartbeatTimer == Some(c.timers.handles);
    }
  }

  /** An interval that is running but no longer in the field. */
  predicate Forgotten(t: Timers, handle: nat) {
    handle in t.intervals && handle < t.handles && t.heartbeatTimer != Some(handle)
  }

  lemma StepKeepsForgotten(o: ConnectionOptions, c: Conn, e: Event, handle: nat)
    requires Forgotten(c.timers, handle)
    ensures Forgotten(Step(o, c, e).timers, handle)
  {
    StepTimers(o, c, e);
  }

  /** Nothing ever stops a forgotten interval, nor brings it back to the field: it runs on in every run, `close` or not. */
  lemma {:induction false} ForgottenIntervalRunsForever(o: ConnectionOptions, c: Conn, events: seq<Event>, handle: nat)
    requires Forgotten(c.timers, handle)
    ensures Forgotten(Run(o, c, events).timers, handle)
    decreases |events|
  {
    if events != [] {
      StepKeepsForgotten(o, c, events[0], handle);
      ForgottenIntervalRunsForever(o, Step(o, c, events[0]), events[1..], handle);
    }
  }

  /** A second heartbeat makes the first one forgotten. */
  lemma SecondHeartbeatForgetsFirst(o: ConnectionOptions, c: Conn, e: Event)
    requires OneInterval(c.timers) && StartsSecondHeartbeat(o, c, e)
    ensures Forgotten(Step(o, c, e).timers, c.timers.heartbeatTimer.value)
  {
    StepTimers(o, c, e);
  }

  predicate NoSecondHeartbeat(o: ConnectionOptions, c: Conn, events: seq<Event>)
    decreases |events|
  {
    events == [] ||
    (!StartsSecondHeartbeat(o, c, events[0]) && NoSecondHeartbeat(o, Step(o, c, events[0]), events[1..]))
  }

  /** A run ends with a single heartbeat interval exactly when none of its steps started a second one. */
  lemma {:induction false} RunLeaksExactlyWhen(o: ConnectionOptions, c: Conn, events: seq<Event>)
    requires OneInterval(c.timers)
    ensures OneInterval(Run(o, c, events).timers) <==> NoSecondHeartbeat(o, c, events)
    decreases |events|
  {
    if events != [] {
      HeartbeatLeaksExactlyWhen(o, c, events[0]);
      if StartsSecondHeartbeat(o, c, events[0]) {
        var first := c.timers.heartbeatTimer.value;
        SecondHeartbeatForgetsFirst(o, c, events[0]);
        ForgottenIntervalRunsForever(o, Step(o, c, events[0]), events[1..], first);
        assert Forgotten(Run(o, c, events).timers, first);
      } else {
        RunLeaksExactlyWhen(o, Step(o, c, events[0]), events[1..]);
      }
    }
  }

  // ----- no leak when close events come in time -----

  /** No suspended call can go on: the continuations that the last event made due have run. */
  ghost predicate NothingDue(l: Link) {
    && (forall a <- l.attempts :: !CanResume(l, a))
    && (forall i: nat | i < |l.calls| :: !CanSettle(l, i) && !CanResumeCallback(l, i))
  }

  /**
   * What the event loop gives, for the sockets in `closed` having had their close event: connect and close events come
   * after the continuations that are due, and a socket connects before its own close event and after those of the older
   * sockets that have been destroyed.
   */
  ghost predicate InOrder(l: Link, closed: set<nat>, e: Event) {
    && (e.SocketConnected? ==>
          && NothingDue(l) && e.socket !in closed
          && forall a <- l.destroyed | a < e.socket :: a in closed)
    && (e.SocketClosed? ==> NothingDue(l) && e.socket < l.sockets)
  }

  function ClosedAfter(closed: set<nat>, e: Event): set<nat> {
    if e.SocketClosed? then closed + {e.socket} else closed
  }

  ghost predicate AllInOrder(o: ConnectionOptions, c: Conn, closed: set<nat>, events: seq<Event>)
    decreases |events|
  {
    events == [] ||
    (InOrder(c.link, closed, events[0])
     && AllInOrder(o, Step(o, c, events[0]), ClosedAfter(closed, events[0]), events[1..]))
  }

  /** The attempt behind the shared promise has a connected socket and has not gone on yet. */
  predicate Ready(l: Link) {
    && l.connectionPromise.Some?
    && l.connectionPromise.value in l.attempts && l.attempts[l.connectionPromise.value] == SocketReady
  }

  predicate PromiseFails(l: Link) {
    && l.connectionPromise.Some?
    && var a := l.connectionPromise.value;
       (a in l.attempts && l.attempts[a] == SocketFailed) || (a in l.results && !l.results[a])
  }

  /** A reconnect callback that will not fail unless its socket does. */
  predicate CallbackFine(l: Link, call: ConnectCall) {
    match call.status
    case Awaiting =>
      && call.attempt.Some?
      && var a := call.attempt.value;
         (a in l.attempts && l.attempts[a] != SocketFailed) || (a in l.results && l.results[a])
    case Settled(ok) => ok
    case Finished(_) => true
  }

  ghost predicate CallbacksFine(l: Link) {
    forall i | 0 <= i < |l.calls| && l.calls[i].fromTimer :: CallbackFine(l, l.calls[i])
  }

  /** Socket a has been connected, its close event is still to come, and it is in use unless it has been destroyed. */
  predicate Beats(l: Link, closed: set<nat>, a: nat) {
    && a in l.results && l.results[a] && a !in closed
    && (a in l.destroyed || (l.state == Connected && l.socket == Some(a)))
  }

  /** While a heartbeat runs, the close event of some socket that would stop it is still to come. */
  ghost predicate Paced(l: Link, beating: bool, closed: set<nat>) {
    && (beating ==> !Ready(l) && !PromiseFails(l) && exists a :: Beats(l, closed, a))
    && (Ready(l) ==> l.connectionPromise.value !in closed)
    && (beating || Ready(l) ==> CallbacksFine(l))
  }

  /** The same attempts, calls and results. */
  predicate SameCalls(l: Link, d: Link) {
    d.connectionPromise == l.connectionPromise && d.attempts == l.attempts && d.results == l.results && d.calls == l.calls
  }

  lemma SameCallsKeepFine(l: Link, d: Link)
    requires CallbacksFine(l) && SameCalls(l, d)
    ensures CallbacksFine(d)
  {
    forall i | 0 <= i < |d.calls| && d.calls[i].fromTimer
      ensures CallbackFine(d, d.calls[i])
    {
      assert CallbackFine(l, l.calls[i]);
    }
  }

  /** Whatever stops the heartbeat keeps the link paced. */
  lemma StoppedIsPaced(l: Link, beating: bool, closed: set<nat>, d: Link, after: set<nat>)
    requires Paced(l, beating, closed) && SameCalls(l, d)
    requires Ready(l) ==> l.connectionPromise.value !in after
    ensures Paced(d, false, after)
  {
    if Ready(d) {
      SameCallsKeepFine(l, d);
    }
  }

  lemma DestroyKeepsPaced(l: Link, beating: bool, closed: set<nat>, s: nat)
    requires Paced(l, beating, closed)
    ensures Paced(l.(destroyed := l.destroyed + {s}), beating, closed)
  {
    var d := l.(destroyed := l.destroyed + {s});
    if beating || Ready(l) {
      SameCallsKeepFine(l, d);
    }
    if beating {
      var a :| Beats(l, closed, a);
      assert Beats(d, closed, a);
    }
  }

  lemma ConnectKeepsFine(l: Link, fromTimer: bool)
    requires OneAttempt(l) && CallbacksFine(l) && !PromiseFails(l)
    ensures CallbacksFine(Connect(l, fromTimer))
  {
    var d := Connect(l, fromTimer);
    forall i | 0 <= i < |d.calls| && d.calls[i].fromTimer
      ensures CallbackFine(d, d.calls[i])
    {
      if i < |l.calls| {
        assert CallbackFine(l, l.calls[i]) && CallAgrees(l, l.calls[i]);
      }
    }
  }

  lemma ConnectKeepsPaced(l: Link, beating: bool, closed: set<nat>, fromTimer: bool)
    requires OneAttempt(l) && Paced(l, beating, closed)
    ensures Paced(Connect(l, fromTimer), beating, closed)
  {
    var d := Connect(l, fromTimer);
    if beating || Ready(l) {
      ConnectKeepsFine(l, fromTimer);
    }
    if beating {
      var a :| Beats(l, closed, a);
      assert Beats(d, closed, a);
    }
  }

  lemma NoneConnectsUnderAHeartbeat(l: Link, closed: set<nat>, s: nat)
    requires OneAttempt(l) && s in l.attempts
    ensures forall a: nat | Beats(l, closed, a) :: !InOrder(l, closed, SocketConnected(s))
  {
    forall a: nat | Beats(l, closed, a)
      ensures !InOrder(l, closed, SocketConnected(s))
    {
      assert a < s && a in l.destroyed;
    }
  }

  /** When a socket connects in order, no heartbeat is running and no reconnect callback is about to fail. */
  lemma ConnectedInOrder(l: Link, beating: bool, closed: set<nat>, s: nat)
    requires OneAttempt(l) && Paced(l, beating, closed) && InOrder(l, closed, SocketConnected(s))
    ensures Paced(AwaitEnds(l, s, SocketReady), beating, closed)
  {
    var d := AwaitEnds(l, s, SocketReady);
    if s in l.attempts && l.attempts[s] == AwaitingSocket {
      NoneConnectsUnderAHeartbeat(l, closed, s);
      forall i | 0 <= i < |d.calls| && d.calls[i].fromTimer
        ensures CallbackFine(d, d.calls[i])
      {
        assert CallAgrees(l, l.calls[i]) && !CanSettle(l, i) && !CanResumeCallback(l, i);
      }
    }
  }

  lemma ErredIsPaced(l: Link, beating: bool, closed: set<nat>, s: nat, d: Link)
    requires OneAttempt(l) && Paced(l, beating, closed) && SameCalls(l, d)
    ensures Paced(AwaitEnds(d, s, SocketFailed), false, closed)
  {
    if s in l.attempts && l.attempts[s] == AwaitingSocket {
      assert !Ready(AwaitEnds(d, s, SocketFailed));
    } else {
      StoppedIsPaced(l, beating, closed, d, closed);
    }
  }

  lemma ReadyResumes(l: Link, beating: bool, closed: set<nat>, a: nat)
    requires OneAttempt(l) && Paced(l, beating, closed) && CanResume(l, a) && l.attempts[a] == SocketReady
    ensures !beating
    ensures Paced(AttemptReturns(l, a), true, closed) && Paced(AttemptReturns(l, a), false, closed)
  {
    var d := AttemptReturns(l, a);
    assert l.connectionPromise == Some(a) && Ready(l);
    assert Beats(d, closed, a);
    forall i | 0 <= i < |d.calls| && d.calls[i].fromTimer
      ensures CallbackFine(d, d.calls[i])
    {
      assert CallbackFine(l, l.calls[i]);
    }
  }

  lemma FailedResumes(l: Link, beating: bool, closed: set<nat>, a: nat)
    requires OneAttempt(l) && Paced(l, beating, closed) && CanResume(l, a) && l.attempts[a] == SocketFailed
    ensures Paced(AttemptReturns(l, a), beating, closed)
  {
    assert l.connectionPromise == Some(a) && PromiseFails(l);
  }

  lemma SettleKeepsPaced(l: Link, beating: bool, closed: set<nat>, k: nat)
    requires OneAttempt(l) && Paced(l, beating, closed) && CanSettle(l, k)
    ensures Paced(SettleCall(l, k), beating, closed)
  {
    var d := SettleCall(l, k);
    assert CallAgrees(l, l.calls[k]);
    if beating || Ready(l) {
      forall i | 0 <= i < |d.calls| && d.calls[i].fromTimer
        ensures CallbackFine(d, d.calls[i])
      {
        assert CallbackFine(l, l.calls[i]);
      }
    }
    if beating {
      var a :| Beats(l, closed, a);
      assert Beats(d, closed, a);
    }
  }

  lemma CallbackKeepsPaced(l: Link, beating: bool, closed: set<nat>, k: nat)
    requires Paced(l, beating, closed) && CanResumeCallback(l, k)
    ensures Paced(FinishCallback(l, k), beating, closed)
  {
    var d := FinishCallback(l, k);
    if beating || Ready(l) {
      assert CallbackFine(l, l.calls[k]);
      forall i | 0 <= i < |d.calls| && d.calls[i].fromTimer
        ensures CallbackFine(d, d.calls[i])
      {
        assert CallbackFine(l, l.calls[i]);
      }
    }
    if beating {
      var a :| Beats(l, closed, a);
      assert Beats(d, closed, a);
    }
  }

  ghost predicate PacedConn(c: Conn, closed: set<nat>) {
    Paced(c.link, c.timers.heartbeatTimer.Some?, closed)
  }

  lemma ReadyIsDue(l: Link)
    ensures Ready(l) ==> !NothingDue(l)
  {
    if Ready(l) {
      assert CanResume(l, l.connectionPromise.value);
    }
  }

  lemma DisconnectKeepsPaced(o: ConnectionOptions, c: Conn, closed: set<nat>, e: Event)
    requires OneAttempt(c.link) && PacedConn(c, closed) && InOrder(c.link, closed, e)
    requires e.CloseRequested? || e.SocketErred? || e.SocketClosed?
    ensures PacedConn(Step(o, c, e), ClosedAfter(closed, e))
  {
    var beating := c.timers.heartbeatTimer.Some?;
    match e
    case CloseRequested => StoppedIsPaced(c.link, beating, closed, CloseLink(c.link), closed);
    case SocketErred(s, error) =>
      ErredIsPaced(c.link, beating, closed, s, HandleUnexpectedDisconnect(o, c, error).link);
    case SocketClosed(s) =>
      ReadyIsDue(c.link);
      StoppedIsPaced(c.link, beating, closed, Step(o, c, e).link, ClosedAfter(closed, e));
  }

  lemma HeartbeatKeepsPaced(o: ConnectionOptions, c: Conn, closed: set<nat>, ping: Option<Bytes>)
    requires PacedConn(c, closed)
    ensures PacedConn(FireHeartbeat(o, c, ping), closed)
  {
    var d := FireHeartbeat(o, c, ping);
    if d.timers.heartbeatTimer.None? {
      StoppedIsPaced(c.link, c.timers.heartbeatTimer.Some?, closed, d.link, closed);
    }
  }

  lemma ContinuationKeepsPaced(o: ConnectionOptions, c: Conn, closed: set<nat>, e: Event)
    requires OneAttempt(c.link) && PacedConn(c, closed)
    requires e.AttemptResumes? || e.CallSettles? || e.CallbackResumes?
    ensures PacedConn(Step(o, c, e), closed) && !StartsSecondHeartbeat(o, c, e)
  {
    var l, beating := c.link, c.timers.heartbeatTimer.Some?;
    match e
    case AttemptResumes(a) =>
      if CanResume(l, a) && l.attempts[a] == SocketReady {
        ReadyResumes(l, beating, closed, a);
      } else if CanResume(l, a) {
        FailedResumes(l, beating, closed, a);
      }
    case CallSettles(i) =>
      if CanSettle(l, i) {
        SettleKeepsPaced(l, beating, closed, i);
      }
    case CallbackResumes(i) =>
      if CanResumeCallback(l, i) {
        CallbackKeepsPaced(l, beating, closed, i);
      }
  }

  lemma StepKeepsPaced(o: ConnectionOptions, c: Conn, closed: set<nat>, e: Event)
    requires OneAttempt(c.link) && PacedConn(c, closed) && InOrder(c.link, closed, e)
    ensures PacedConn(Step(o, c, e), ClosedAfter(closed, e)) && !StartsSecondHeartbeat(o, c, e)
  {
    var l, beating := c.link, c.timers.heartbeatTimer.Some?;
    if e.AttemptResumes? || e.CallSettles? || e.CallbackResumes? {
      ContinuationKeepsPaced(o, c, closed, e);
    } else if e.CloseRequested? || e.SocketErred? || e.SocketClosed? {
      DisconnectKeepsPaced(o, c, closed, e);
    } else {
      match e
      case ConnectRequested => ConnectKeepsPaced(l, beating, closed, false);
      case ReconnectTimerFires(_) => ConnectKeepsPaced(l, beating, closed, true);
      case SocketConnected(s) => ConnectedInOrder(l, beating, closed, s);
      case SocketDestroyed(s) => DestroyKeepsPaced(l, beating, closed, s);
      case HeartbeatFires(_, ping) => HeartbeatKeepsPaced(o, c, closed, ping);
      case _ =>
    }
  }

  lemma {:induction false} PacedRunsStartNoSecond(o: ConnectionOptions, c: Conn, closed: set<nat>, events: seq<Event>)
    requires OneAttempt(c.link) && OneOwner(c.link) && PacedConn(c, closed) && AllInOrder(o, c, closed, events)
    ensures NoSecondHeartbeat(o, c, events)
    decreases |events|
  {
    if events != [] {
      StepKeepsOneAttempt(o, c, events[0]);
      StepKeepsPaced(o, c, closed, events[0]);
      PacedRunsStartNoSecond(o, Step(o, c, events[0]), ClosedAfter(closed, events[0]), events[1..]);
    }
  }

  /** A new connection never leaks a heartbeat in a run whose connect and close events come in order. */
  lemma OrderlyRunsDoNotLeak(o: ConnectionOptions, now: int, events: seq<Event>)
    requires AllInOrder(o, Initial(now), {}, events)
    ensures OneInterval(Run(o, Initial(now), events).timers) && NoSecondHeartbeat(o, Initial(now), events)
  {
    PacedRunsStartNoSecond(o, Initial(now), {}, events);
    RunLeaksExactlyWhen(o, Initial(now), events);
  }

  // ----- a leak when they do not -----

  /**
   * The leak is reachable when events come out of order: `connect` is called again after the socket was destroyed, and the
   * new socket's connect event comes before the old one's close event. The first interval then survives even `close`.
   */
  lemma HeartbeatLeakIsReachable(o: ConnectionOptions) returns (events: seq<Event>)
    requires HeartbeatEnabled(o)
    ensures Run(o, Initial(0), events).link.state == Closed
    ensures Run(o, Initial(0), events).timers.intervals == {0}
  {
    var first := [ConnectRequested, SocketConnected(0), AttemptResumes(0), CallSettles(0)];
    var c := ConnectedOnce(o);
    var second := ConnectAgain(o, c);
    RunAppend(o, Initial(0), first, second);
    RunAppend(o, Initial(0), first + second, [CloseRequested] + []);
    RunOne(o, Run(o, c, second), CloseRequested, []);
    events := first + second + ([CloseRequested] + []);
  }

  lemma ConnectAgain(o: ConnectionOptions, c: Conn) returns (events: seq<Event>)
    requires HeartbeatEnabled(o)
    requires c.link == Link(Connected, false, None, Some(0), 1, {}, {}, map[], map[0 := true],
                            [ConnectCall(false, true, Some(0), Settled(true))])
    requires c.timers == Timers(None, 0, {}, [], Some(0), {0}, 0, 1)
    ensures Run(o, c, events).timers.heartbeatTimer == Some(1)
    ensures Run(o, c, events).timers.intervals == {0, 1}
  {
    var e1, e2, e3, e4 := SocketDestroyed(0), ConnectRequested, SocketConnected(1), AttemptResumes(1);
    var c1 := Step(o, c, e1);
    assert c1.link == c.link.(destroyed := {0}) && c1.timers == c.timers;
    var c2 := Step(o, c1, e2);
    assert c2.link.attempts == map[1 := AwaitingSocket] && c2.timers == c.timers;
    var c3 := Step(o, c2, e3);
    assert c3.link.attempts == map[1 := SocketReady] && c3.timers == c.timers;
    var c4 := Step(o, c3, e4);
    assert c4.timers == StartHeartbeat(o, ResetAttempts(c.timers), c3.now);
    RunFour(o, c, e1, e2, e3, e4);
    events := [e1, e2, e3, e4];
  }

  /** The first attempt, ready to resume. */
  function FirstReady(): Conn {
    Initial(0).(link := Link(Connecting, false, Some(0), Some(0), 1, {}, {}, map[0 := SocketReady], map[],
                             [ConnectCall(false, true, Some(0), Awaiting)]))
  }

  lemma FirstGetsReady(o: ConnectionOptions)
    ensures Step(o, Step(o, Initial(0), ConnectRequested), SocketConnected(0)) == FirstReady()
  {
    var c1 := Step(o, Initial(0), ConnectRequested);
    assert c1.link.attempts == map[0 := AwaitingSocket];
  }

  lemma ConnectedOnce(o: ConnectionOptions) returns (c: Conn)
    requires HeartbeatEnabled(o)
    ensures c == Run(o, Initial(0), [ConnectRequested, SocketConnected(0), AttemptResumes(0), CallSettles(0)])
    ensures c.link == Link(Connected, false, None, Some(0), 1, {}, {}, map[], map[0 := true],
                           [ConnectCall(false, true, Some(0), Settled(true))])
    ensures c.timers == Timers(None, 0, {}, [], Some(0), {0}, 0, 1)
  {
    FirstGetsReady(o);
    var c3 := Step(o, FirstReady(), AttemptResumes(0));
    assert c3.link.attempts == map[] && c3.link.results == map[0 := true];
    c := Step(o, c3, CallSettles(0));
    RunFour(o, Initial(0), ConnectRequested, SocketConnected(0), AttemptResumes(0), CallSettles(0));
  }

  lemma {:induction false} RunAppend(o: ConnectionOptions, c: Conn, a: seq<Event>, b: seq<Event>)
    ensures Run(o, c, a + b) == Run(o, Run(o, c, a), b)
    decreases |a|
  {
    if a == [] {
      assert a + b == b;
    } else {
      assert (a + b)[1..] == a[1..] + b;
      RunAppend(o, Step(o, c, a[0]), a[1..], b);
    }
  }
}
