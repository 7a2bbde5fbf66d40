/** At most one connection attempt and one reconnect timer, and what `close` leaves behind. */
module ConnectDiscipline {
  import opened Common
  import opened Connection

  // ----- one attempt at a time -----

  predicate OwnerAwaits(l: Link, i: nat)
    requires i < |l.calls|
  {
    l.calls[i].owner && l.calls[i].status == Awaiting
  }

  /** A `connect` call either used the open socket or shares the outcome of the attempt it joined. */
  predicate CallAgrees(l: Link, call: ConnectCall) {
    match call.attempt
    case None => !call.owner && (call.status == Settled(true) || call.status == Finished(true))
    case Some(a) =>
      && a < l.sockets
      && (call.status == Awaiting || (a in l.results && call.status.ok == l.results[a]))
      && (call.owner && call.status == Awaiting ==> l.connectionPromise == Some(a))
  }

  /**
   * At most one `doConnect` is in flight: it is the one behind the shared promise, and it belongs to the newest
   * socket, which is the one in the `socket` field.
   */
  ghost predicate OneAttempt(l: Link) {
    && l.socket == (if l.sockets == 0 then None else Some(l.sockets - 1))
    && (forall a <- l.attempts :: l.connectionPromise == Some(a))
    && (l.connectionPromise.Some? ==> l.sockets > 0 && l.connectionPromise.value == l.sockets - 1)
    && (forall a: nat :: a in l.attempts || a in l.results <==> a < l.sockets)
    && (forall a <- l.attempts :: a !in l.results)
    && (forall i | 0 <= i < |l.calls| :: CallAgrees(l, l.calls[i]))
  }

  /** The shared promise is set exactly while one caller, and only one, is still due to clear it. */
  ghost predicate OneOwner(l: Link) {
    && (forall i, j | 0 <= i < |l.calls| && 0 <= j < |l.calls| && OwnerAwaits(l, i) && OwnerAwaits(l, j) :: i == j)
    && (l.connectionPromise.Some? <==> exists i | 0 <= i < |l.calls| :: OwnerAwaits(l, i))
  }

  lemma ConnectKeepsOneAttempt(l: Link, fromTimer: bool)
    requires OneAttempt(l)
    ensures OneAttempt(Connect(l, fromTimer))
  {
    var d := Connect(l, fromTimer);
    forall i | 0 <= i < |d.calls|
      ensures CallAgrees(d, d.calls[i])
    {
      assert i < |l.calls| ==> CallAgrees(l, l.calls[i]);
    }
  }

  lemma ConnectKeepsOneOwner(l: Link, fromTimer: bool)
    requires OneOwner(l)
    ensures OneOwner(Connect(l, fromTimer))
  {
    var d, n := Connect(l, fromTimer), |l.calls|;
    assert forall i | 0 <= i < n :: OwnerAwaits(d, i) == OwnerAwaits(l, i);
    if !IsOpen(l) && l.connectionPromise.None? {
      assert OwnerAwaits(d, n);
    } else {
      assert !OwnerAwaits(d, n);
      if l.connectionPromise.Some? {
        var i :| 0 <= i < n && OwnerAwaits(l, i);
        assert OwnerAwaits(d, i);
      }
    }
  }

  lemma ReturnKeepsOneAttempt(l: Link, a: nat)
    requires OneAttempt(l) && CanResume(l, a)
    ensures OneAttempt(AttemptReturns(l, a))
  {
    var d := AttemptReturns(l, a);
    forall i | 0 <= i < |d.calls|
      ensures CallAgrees(d, d.calls[i])
    {
      assert CallAgrees(l, l.calls[i]);
    }
  }

  lemma SettleKeepsOneAttempt(l: Link, k: nat)
    requires OneAttempt(l) && OneOwner(l) && CanSettle(l, k)
    ensures OneAttempt(SettleCall(l, k))
  {
    var d := SettleCall(l, k);
    assert CallAgrees(l, l.calls[k]);
    forall i | 0 <= i < |d.calls|
      ensures CallAgrees(d, d.calls[i])
    {
      assert CallAgrees(l, l.calls[i]);
      assert OwnerAwaits(l, k) && OwnerAwaits(l, i) ==> i == k;
    }
    if l.calls[k].owner {
      assert l.attempts.Keys == {};
    }
  }

  lemma SettleKeepsOneOwner(l: Link, k: nat)
    requires OneOwner(l) && CanSettle(l, k)
    ensures OneOwner(SettleCall(l, k))
  {
    var d := SettleCall(l, k);
    assert forall i | 0 <= i < |d.calls| && i != k :: OwnerAwaits(d, i) == OwnerAwaits(l, i);
    assert !OwnerAwaits(d, k);
    if l.calls[k].owner {
      assert OwnerAwaits(l, k);
    } else if l.connectionPromise.Some? {
      var i :| 0 <= i < |l.calls| && OwnerAwaits(l, i);
      assert OwnerAwaits(d, i);
    }
  }

  lemma CallbackKeepsOneAttempt(l: Link, k: nat)
    requires OneAttempt(l) && OneOwner(l) && CanResumeCallback(l, k)
    ensures OneAttempt(FinishCallback(l, k)) && OneOwner(FinishCallback(l, k))
  {
    var d := FinishCallback(l, k);
    forall i | 0 <= i < |d.calls|
      ensures CallAgrees(d, d.calls[i]) && OwnerAwaits(d, i) == OwnerAwaits(l, i)
    {
      assert CallAgrees(l, l.calls[i]);
    }
    if l.connectionPromise.Some? {
      var i :| 0 <= i < |l.calls| && OwnerAwaits(l, i);
      assert OwnerAwaits(d, i);
    }
  }

  /** Same sockets, attempts and calls; the state fields and the sockets' own condition may differ. */
  predicate SameAttempts(l: Link, d: Link) {
    && d.socket == l.socket && d.sockets == l.sockets && d.connectionPromise == l.connectionPromise
    && d.attempts.Keys == l.attempts.Keys && d.results == l.results && d.calls == l.calls
  }

  lemma SameAttemptsKeep(l: Link, d: Link)
    requires OneAttempt(l) && OneOwner(l) && SameAttempts(l, d)
    ensures OneAttempt(d) && OneOwner(d)
  {
    assert forall a :: a in d.attempts <==> a in l.attempts.Keys;
    forall i | 0 <= i < |d.calls|
      ensures CallAgrees(d, d.calls[i]) && OwnerAwaits(d, i) == OwnerAwaits(l, i)
    {
      assert CallAgrees(l, l.calls[i]);
    }
    if l.connectionPromise.Some? {
      var i :| 0 <= i < |l.calls| && OwnerAwaits(l, i);
      assert OwnerAwaits(d, i);
    }
  }

  /** What one event does to the link. */
  lemma StepLink(o: ConnectionOptions, c: Conn, e: Event)
    ensures var l, d := c.link, Step(o, c, e).link;
            || SameAttempts(l, d)
            || (e.ConnectRequested? && d == Connect(l, false))
            || (e.ReconnectTimerFires? && e.timer in c.timers.armed && !l.manuallyClosed && d == Connect(l, true))
            || (e.AttemptResumes? && CanResume(l, e.attempt) && d == AttemptReturns(l, e.attempt))
            || (e.CallSettles? && CanSettle(l, e.call) && d == SettleCall(l, e.call))
            || (e.CallbackResumes? && CanResumeCallback(l, e.call) && d == FinishCallback(l, e.call))
  {
  }

  lemma StepKeepsOneAttempt(o: ConnectionOptions, c: Conn, e: Event)
    requires OneAttempt(c.link) && OneOwner(c.link)
    ensures OneAttempt(Step(o, c, e).link) && OneOwner(Step(o, c, e).link)
  {
    var l, d := c.link, Step(o, c, e).link;
    StepLink(o, c, e);
    if SameAttempts(l, d) {
      SameAttemptsKeep(l, d);
    } else if e.ConnectRequested? || e.ReconnectTimerFires? {
      ConnectKeepsOneAttempt(l, e.ReconnectTimerFires?);
      ConnectKeepsOneOwner(l, e.ReconnectTimerFires?);
    } else if e.AttemptResumes? {
      ReturnKeepsOneAttempt(l, e.attempt);
      assert forall i | 0 <= i < |l.calls| :: OwnerAwaits(d, i) == OwnerAwaits(l, i);
    } else if e.CallSettles? {
      SettleKeepsOneAttempt(l, e.call);
      SettleKeepsOneOwner(l, e.call);
    } else {
      CallbackKeepsOneAttempt(l, e.call);
    }
  }

  /** In every run at most one `doConnect` is in flight, and callers that joined the same attempt see one outcome. */
  lemma {:induction false} ConnectIsShared(o: ConnectionOptions, c: Conn, events: seq<Event>)
    requires OneAttempt(c.link) && OneOwner(c.link)
    ensures var l := Run(o, c, events).link;
            && OneAttempt(l) && OneOwner(l)
            && |l.attempts| <= 1
            && (forall i, j | 0 <= i < |l.calls| && 0 <= j < |l.calls| && l.calls[i].attempt.Some?
                              && l.calls[i].attempt == l.calls[j].attempt
                              && l.calls[i].status != Awaiting && l.calls[j].status != Awaiting ::
                  l.calls[i].status.ok == l.calls[j].status.ok)
    decreases |events|
  {
    if events == [] {
      AtMostOneKey(c.link.attempts, c.link.connectionPromise);
      assert forall i | 0 <= i < |c.link.calls| :: CallAgrees(c.link, c.link.calls[i]);
    } else {
      StepKeepsOneAttempt(o, c, events[0]);
      ConnectIsShared(o, Step(o, c, events[0]), events[1..]);
    }
  }

  lemma AtMostOneKey<V>(m: map<nat, V>, key: Option<nat>)
    requires forall k <- m :: key == Some(k)
    ensures |m| <= 1
  {
    if m.Keys != {} {
      assert m.Keys == {key.value};
      assert |m.Keys| == 1;
    }
  }

  /** No step opens a socket while an attempt is in flight. */
  lemma NewSocketOnlyWithoutAttempt(o: ConnectionOptions, c: Conn, e: Event)
    requires OneAttempt(c.link) && Step(o, c, e).link.sockets != c.link.sockets
    ensures c.link.attempts == map[] && c.link.connectionPromise == None
    ensures Step(o, c, e).link.sockets == c.link.sockets + 1
    ensures Step(o, c, e).link.attempts == map[c.link.sockets := AwaitingSocket]
  {
    StepLink(o, c, e);
    assert c.link.attempts.Keys == {};
  }

  // ----- one reconnect timer, with growing delays -----

  /** At most one reconnect timer runs, and the k-th delay since the last reset is min(initial * 2^k, maximum). */
  predicate OneTimer(o: ConnectionOptions, t: Timers) {
    && t.armed == (if t.reconnectTimer.None? then {} else {t.reconnectTimer.value})
    && |t.delays| == t.reconnectAttempts
    && (forall k | 0 <= k < |t.delays| ::
          t.delays[k] == Min((if o.reconnectInitialDelayMs.Some? then o.reconnectInitialDelayMs.value else 100) * Pow2(k),
                             if o.reconnectMaxDelayMs.Some? then o.reconnectMaxDelayMs.value else 2000))
  }

  /** What one event does to the timers. */
  lemma StepTimers(o: ConnectionOptions, c: Conn, e: Event)
    ensures var t, d := c.timers, Step(o, c, e).timers;
            || d == t
            || d == t.(lastPongAt := c.now)
            || d == StopHeartbeat(t)
            || d == StopHeartbeat(CancelReconnect(t))
            || d == ScheduleReconnect(o, t)
            || d == ScheduleReconnect(o, StopHeartbeat(t))
            || d == ResetAttempts(t)
            || (e.AttemptResumes? && CanResume(c.link, e.attempt) && c.link.attempts[e.attempt] == SocketReady
                && d == StartHeartbeat(o, ResetAttempts(t), c.now))
            || (e.ReconnectTimerFires? && e.timer in t.armed
                && d == t.(reconnectTimer := None, armed := t.armed - {e.timer}))
  {
  }

  lemma MovesKeepOneTimer(o: ConnectionOptions, t: Timers, now: int)
    requires OneTimer(o, t)
    ensures OneTimer(o, t.(lastPongAt := now)) && OneTimer(o, StopHeartbeat(t)) && OneTimer(o, CancelReconnect(t))
    ensures OneTimer(o, ScheduleReconnect(o, t)) && OneTimer(o, ResetAttempts(t)) && OneTimer(o, StartHeartbeat(o, t, now))
    ensures forall timer <- t.armed :: OneTimer(o, t.(reconnectTimer := None, armed := t.armed - {timer}))
  {
  }

  lemma StepKeepsOneTimer(o: ConnectionOptions, c: Conn, e: Event)
    requires OneTimer(o, c.timers)
    ensures OneTimer(o, Step(o, c, e).timers)
  {
    StepTimers(o, c, e);
    MovesKeepOneTimer(o, c.timers, c.now);
    MovesKeepOneTimer(o, StopHeartbeat(c.timers), c.now);
    MovesKeepOneTimer(o, CancelReconnect(c.timers), c.now);
    MovesKeepOneTimer(o, ResetAttempts(c.timers), c.now);
  }

  lemma DelayMonotone(o: ConnectionOptions, k: nat, l: nat)
    requires k <= l
    ensures ReconnectDelay(o, k) <= ReconnectDelay(o, l)
  {
    Pow2Monotone(k, l);
    var initialDelay := if o.reconnectInitialDelayMs.Some? then o.reconnectInitialDelayMs.value else 100;
    assert initialDelay * Pow2(k) <= initialDelay * Pow2(l);
  }

  /** Over every run: one timer at most, and delays that never shrink until the next reset. */
  lemma {:induction false} ReconnectBackoff(o: ConnectionOptions, c: Conn, events: seq<Event>)
    requires OneTimer(o, c.timers)
    ensures var t := Run(o, c, events).timers;
            && OneTimer(o, t)
            && |t.armed| <= 1
            && (forall k, l | 0 <= k <= l < |t.delays| :: t.delays[k] <= t.delays[l])
    decreases |events|
  {
    if events == [] {
      forall k, l | 0 <= k <= l < |c.timers.delays|
        ensures c.timers.delays[k] <= c.timers.delays[l]
      {
        DelayMonotone(o, k, l);
      }
    } else {
      StepKeepsOneTimer(o, c, events[0]);
      ReconnectBackoff(o, Step(o, c, events[0]), events[1..]);
    }
  }

  // ----- closing -----

  /** Nothing in flight can overwrite `closed`: no attempt that may succeed, no reconnect callback that may fail. */
  ghost predicate Quiet(l: Link) {
    && (forall a <- l.attempts :: l.attempts[a] == SocketFailed)
    && (forall i | 0 <= i < |l.calls| :: l.calls[i].fromTimer ==> QuietCallback(l, l.calls[i]))
  }

  predicate QuietCallback(l: Link, call: ConnectCall) {
    match call.status
    case Awaiting => call.attempt.Some? && call.attempt.value in l.results && l.results[call.attempt.value]
    case Settled(ok) => ok
    case Finished(_) => true
  }

  ghost predicate StaysClosed(c: Conn) {
    && c.link.state == Closed && c.link.manuallyClosed && Quiet(c.link)
    && c.timers.reconnectTimer == None && c.timers.armed == {}
  }

  lemma QuietSteps(l: Link)
    requires OneAttempt(l) && Quiet(l) && l.state == Closed
    ensures forall a, phase :: AwaitEnds(l, a, phase) == l
    ensures forall a: nat | CanResume(l, a) :: Quiet(AttemptReturns(l, a)) && AttemptReturns(l, a).state == Closed
    ensures forall i: nat | CanSettle(l, i) :: Quiet(SettleCall(l, i))
    ensures forall i: nat | CanResumeCallback(l, i) ::
              l.calls[i].status.ok && Quiet(FinishCallback(l, i)) && FinishCallback(l, i).state == Closed
  {
    forall a: nat | CanResume(l, a)
      ensures Quiet(AttemptReturns(l, a))
    {
      var d := AttemptReturns(l, a);
      forall i | 0 <= i < |d.calls| && d.calls[i].fromTimer
        ensures QuietCallback(d, d.calls[i])
      {
        assert QuietCallback(l, l.calls[i]);
      }
    }
    forall k: nat | CanSettle(l, k)
      ensures Quiet(SettleCall(l, k))
    {
      var d := SettleCall(l, k);
      forall i | 0 <= i < |d.calls| && d.calls[i].fromTimer
        ensures QuietCallback(d, d.calls[i])
      {
        assert QuietCallback(l, l.calls[i]);
      }
    }
    forall k: nat | CanResumeCallback(l, k)
      ensures l.calls[k].status.ok && Quiet(FinishCallback(l, k))
    {
      assert QuietCallback(l, l.calls[k]);
      var d := FinishCallback(l, k);
      forall i | 0 <= i < |d.calls| && d.calls[i].fromTimer
        ensures QuietCallback(d, d.calls[i])
      {
        assert QuietCallback(l, l.calls[i]);
      }
    }
  }

  lemma SameCallsKeepQuiet(l: Link, d: Link)
    requires Quiet(l) && d.attempts == l.attempts && d.results == l.results && d.calls == l.calls
    ensures Quiet(d)
  {
    forall i | 0 <= i < |d.calls| && d.calls[i].fromTimer
      ensures QuietCallback(d, d.calls[i])
    {
      assert QuietCallback(l, l.calls[i]);
    }
  }

  lemma StepKeepsClosed(o: ConnectionOptions, c: Conn, e: Event)
    requires OneAttempt(c.link) && StaysClosed(c) && !e.ConnectRequested?
    ensures StaysClosed(Step(o, c, e))
  {
    QuietSteps(c.link);
    match e
    case CloseRequested => SameCallsKeepQuiet(c.link, CloseLink(c.link));
    case SocketDestroyed(s) => SameCallsKeepQuiet(c.link, c.link.(destroyed := c.link.destroyed + {s}));
    case HeartbeatFires(t, ping) => SameCallsKeepQuiet(c.link, Step(o, c, e).link);
    case SocketErred(s, error) =>
      assert HandleUnexpectedDisconnect(o, c, error).link == c.link;
    case _ =>
  }

  predicate NoConnect(events: seq<Event>) {
    forall e <- events :: !e.ConnectRequested?
  }

  lemma {:induction false} ClosedForGood(o: ConnectionOptions, c: Conn, events: seq<Event>)
    requires OneAttempt(c.link) && OneOwner(c.link) && StaysClosed(c) && NoConnect(events)
    ensures StaysClosed(Run(o, c, events))
    decreases |events|
  {
    if events != [] {
      assert events[0] in events && forall e <- events[1..] :: e in events;
      StepKeepsClosed(o, c, events[0]);
      StepKeepsOneAttempt(o, c, events[0]);
      ClosedForGood(o, Step(o, c, events[0]), events[1..]);
    }
  }

  lemma RunOne(o: ConnectionOptions, c: Conn, e: Event, more: seq<Event>)
    ensures Run(o, c, [e] + more) == Run(o, Step(o, c, e), more)
  {
    assert ([e] + more)[1..] == more;
  }

  lemma RunFour(o: ConnectionOptions, c: Conn, e1: Event, e2: Event, e3: Event, e4: Event)
    ensures Run(o, c, [e1, e2, e3, e4]) == Step(o, Step(o, Step(o, Step(o, c, e1), e2), e3), e4)
  {
    var c1 := Step(o, c, e1);
    var c2 := Step(o, c1, e2);
    RunOne(o, c, e1, [e2, e3, e4]);
    RunOne(o, c1, e2, [e3, e4]);
    RunOne(o, c2, e3, [e4]);
    RunOne(o, Step(o, c2, e3), e4, []);
    assert [e1, e2, e3, e4] == [e1] + [e2, e3, e4] && [e2, e3, e4] == [e2] + [e3, e4];
    assert [e3, e4] == [e3] + [e4] && [e4] == [e4] + [];
  }

  /** An attempt in flight that has not failed takes a closed connection to `connected`. */
  lemma AttemptOverwrites(o: ConnectionOptions, c: Conn, a: nat) returns (events: seq<Event>)
    requires a in c.link.attempts && c.link.attempts[a] != SocketFailed
    ensures NoConnect(events) && Run(o, c, events).link.state == Connected
  {
    var e1, e2 := SocketConnected(a), AttemptResumes(a);
    var c1 := Step(o, c, e1);
    assert c1.link.attempts[a] == SocketReady;
    assert Step(o, c1, e2).link.state == Connected;
    RunOne(o, c1, e2, []);
    RunOne(o, c, e1, [e2] + []);
    events := [e1] + ([e2] + []);
  }

  lemma FailedAttemptReturns(o: ConnectionOptions, c: Conn, a: nat)
    requires if a in c.link.attempts then c.link.attempts[a] == SocketFailed else a in c.link.results && !c.link.results[a]
    ensures var l := Step(o, c, AttemptResumes(a)).link;
            a in l.results && !l.results[a] && l.calls == c.link.calls
  {
  }

  lemma FailedCallSettles(o: ConnectionOptions, c: Conn, i: nat, a: nat)
    requires a in c.link.results && !c.link.results[a] && i < |c.link.calls|
    requires c.link.calls[i].status == Awaiting && c.link.calls[i].attempt == Some(a)
    ensures var l := Step(o, c, CallSettles(i)).link;
            i < |l.calls| && l.calls[i] == c.link.calls[i].(status := Settled(false))
  {
  }

  lemma FailedCallbackResumes(o: ConnectionOptions, c: Conn, i: nat)
    requires i < |c.link.calls| && c.link.calls[i].fromTimer && c.link.calls[i].status == Settled(false)
    ensures Step(o, c, CallbackResumes(i)).link.state == Reconnecting
  {
  }

  lemma RunThree(o: ConnectionOptions, c: Conn, e1: Event, e2: Event, e3: Event)
    ensures Run(o, c, [e1, e2, e3]) == Step(o, Step(o, Step(o, c, e1), e2), e3)
  {
    var c1 := Step(o, c, e1);
    RunOne(o, c, e1, [e2, e3]);
    RunOne(o, c1, e2, [e3]);
    RunOne(o, Step(o, c1, e2), e3, []);
    assert [e1, e2, e3] == [e1] + [e2, e3] && [e2, e3] == [e2] + [e3] && [e3] == [e3] + [];
  }

  /** A reconnect callback whose attempt has failed takes a closed connection to `reconnecting`. */
  lemma CallbackOverwrites(o: ConnectionOptions, c: Conn, i: nat) returns (events: seq<Event>)
    requires OneAttempt(c.link) && i < |c.link.calls| && c.link.calls[i].fromTimer
    requires !QuietCallback(c.link, c.link.calls[i])
    requires forall a <- c.link.attempts :: c.link.attempts[a] == SocketFailed
    ensures NoConnect(events) && Run(o, c, events).link.state == Reconnecting
  {
    assert CallAgrees(c.link, c.link.calls[i]);
    if c.link.calls[i].status == Awaiting {
      var a := c.link.calls[i].attempt.value;
      assert a in c.link.attempts || a in c.link.results;
      FailedAttemptReturns(o, c, a);
      var c1 := Step(o, c, AttemptResumes(a));
      FailedCallSettles(o, c1, i, a);
      FailedCallbackResumes(o, Step(o, c1, CallSettles(i)), i);
      RunThree(o, c, AttemptResumes(a), CallSettles(i), CallbackResumes(i));
      events := [AttemptResumes(a), CallSettles(i), CallbackResumes(i)];
    } else {
      FailedCallbackResumes(o, c, i);
      RunOne(o, c, CallbackResumes(i), []);
      events := [CallbackResumes(i)] + [];
    }
  }

  /**
   * When closing lasts, exactly: after `close` the state stays `closed`, whatever happens short of a `connect` call,
   * if and only if at the time of the call no attempt could still succeed and no reconnect callback could still fail.
   * In that case no reconnect timer runs either.
   */
  lemma CloseLastsExactlyWhenQuiet(o: ConnectionOptions, c: Conn)
    requires OneAttempt(c.link) && OneOwner(c.link) && OneTimer(o, c.timers)
    ensures Quiet(c.link) <==> forall events | NoConnect(events) :: Run(o, Close(c), events).link.state == Closed
    ensures Quiet(c.link) ==> forall events | NoConnect(events) :: Run(o, Close(c), events).timers.armed == {}
  {
    var d := Close(c);
    SameAttemptsKeep(c.link, d.link);
    if Quiet(c.link) {
      SameCallsKeepQuiet(c.link, d.link);
      forall events | NoConnect(events)
        ensures Run(o, d, events).link.state == Closed && Run(o, d, events).timers.armed == {}
      {
        ClosedForGood(o, d, events);
      }
    } else if a :| a in c.link.attempts && c.link.attempts[a] != SocketFailed {
      var events := AttemptOverwrites(o, d, a);
    } else {
      var i :| 0 <= i < |c.link.calls| && c.link.calls[i].fromTimer && !QuietCallback(c.link, c.link.calls[i]);
      var events := CallbackOverwrites(o, d, i);
    }
  }
}
