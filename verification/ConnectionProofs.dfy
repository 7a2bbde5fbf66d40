/** Every request sent on a connection is settled exactly once, and in time. */
module ConnectionProofs {
  import opened Common
  import opened Messages
  import opened Errors
  import opened Connection

  // ----- settlement -----

  /**
   * The sends that are not settled are exactly the entries of `pending`, and exactly those have a running timer;
   * every other send has had `resolve` or `reject` called exactly once.
   */
  ghost predicate SettledOnce(b: Book) {
    && EntriesOk(b)
    && (forall p | 0 <= p < |b.sends| :: RecordSettledOnce(b, p))
  }

  predicate RecordSettledOnce(b: Book, p: nat)
    requires p < |b.sends|
  {
    if IsPending(b, p) then b.sends[p].timerArmed && b.sends[p].settlements == []
    else !b.sends[p].timerArmed && |b.sends[p].settlements| == 1
  }

  /** The caller's side of the promise: no accepted send reuses the id of one that is still pending. */
  predicate FreshIds(o: ConnectionOptions, c: Conn, events: seq<Event>)
    decreases |events|
  {
    events == [] || (FreshId(c, events[0]) && FreshIds(o, Step(o, c, events[0]), events[1..]))
  }

  predicate FreshId(c: Conn, e: Event) {
    e.SendRequested? && SendAccepted(c) ==> e.id !in c.book.pending
  }

  lemma AnswerKeepsSettledOnce(b: Book, m: RpcMessage, now: int)
    requires SettledOnce(b)
    ensures SettledOnce(Answer(b, m, now))
  {
    var d := Answer(b, m, now);
    if m.Response? && m.id in b.pending {
      assert RecordSettledOnce(b, b.pending[m.id]);
      SettlingOneKeepsSettledOnce(b, d, b.pending[m.id]);
    }
  }

  /** Settling the pending send `q` and dropping its entry touches no other send. */
  lemma SettlingOneKeepsSettledOnce(b: Book, d: Book, q: nat)
    requires SettledOnce(b) && IsPending(b, q)
    requires d.pending == b.pending - {b.sends[q].id}
    requires |d.sends| == |b.sends| && d.sends == b.sends[q := d.sends[q]]
    requires d.sends[q].id == b.sends[q].id && !d.sends[q].timerArmed && |d.sends[q].settlements| == 1
    ensures SettledOnce(d)
  {
    forall p | 0 <= p < |d.sends|
      ensures RecordSettledOnce(d, p)
    {
      assert RecordSettledOnce(b, p);
      assert p != q ==> IsPending(d, p) == IsPending(b, p);
    }
  }

  lemma {:induction false} AnswerAllKeepsSettledOnce(b: Book, messages: seq<RpcMessage>, now: int)
    requires SettledOnce(b)
    ensures SettledOnce(AnswerAll(b, messages, now))
    decreases |messages|
  {
    if messages != [] {
      var before := messages[..|messages| - 1];
      AnswerAllKeepsSettledOnce(b, before, now);
      AnswerKeepsSettledOnce(AnswerAll(b, before, now), messages[|messages| - 1], now);
    }
  }

  lemma RejectAllKeepsSettledOnce(b: Book, error: Error, now: int)
    requires SettledOnce(b)
    ensures SettledOnce(RejectAll(b, error, now))
  {
    var d := RejectAll(b, error, now);
    forall p | 0 <= p < |d.sends|
      ensures RecordSettledOnce(d, p)
    {
      assert RecordSettledOnce(b, p);
    }
  }

  lemma TimeOutKeepsSettledOnce(b: Book, q: nat, now: int)
    requires SettledOnce(b) && q < |b.sends| && b.sends[q].timerArmed
    ensures SettledOnce(TimeOut(b, q, now))
  {
    assert RecordSettledOnce(b, q);
    SettlingOneKeepsSettledOnce(b, TimeOut(b, q, now), q);
  }

  /** An accepted send keeps the settlement law if and only if its id is not pending already. */
  lemma SendNeedsFreshId(b: Book, id: string, now: int)
    requires SettledOnce(b)
    ensures SettledOnce(AddSend(b, id, now)) <==> id !in b.pending
  {
    var d := AddSend(b, id, now);
    if id in b.pending {
      var q := b.pending[id];
      assert RecordSettledOnce(b, q) && IsPending(b, q);
      assert !RecordSettledOnce(d, q);
    } else {
      forall p | 0 <= p < |d.sends|
        ensures RecordSettledOnce(d, p)
      {
        if p < |b.sends| {
          assert RecordSettledOnce(b, p) && IsPending(d, p) == IsPending(b, p);
        }
      }
    }
  }

  lemma DisconnectRejectsAll(o: ConnectionOptions, c: Conn, error: Error)
    ensures HandleUnexpectedDisconnect(o, c, error).book == RejectAll(c.book, error, c.now)
  {
  }

  predicate MayDisconnect(e: Event) {
    e.CloseRequested? || e.SocketErred? || e.SocketClosed? || e.HeartbeatFires?
  }

  lemma DisconnectBook(o: ConnectionOptions, c: Conn, e: Event) returns (reason: Option<Error>)
    requires MayDisconnect(e)
    ensures Step(o, c, e).book == if reason.Some? then RejectAll(c.book, reason.value, c.now) else c.book
  {
    reason := None;
    match e {
      case CloseRequested =>
        reason := Some(RpcError("CONNECTION_CLOSED", "Connection closed"));
      case SocketErred(s, error) =>
        if s < c.link.sockets {
          reason := Some(error);
          DisconnectRejectsAll(o, c, error);
        }
      case SocketClosed(s) =>
        if s < c.link.sockets {
          reason := Some(RpcError("CONNECTION_CLOSED", "Connection closed"));
          DisconnectRejectsAll(o, c, reason.value);
        }
      case HeartbeatFires(t, ping) =>
        if t in c.timers.intervals && FireHeartbeat(o, c, ping).book != c.book {
          reason := Some(RpcError("HEARTBEAT_TIMEOUT", "Heartbeat timeout"));
          DisconnectRejectsAll(o, c, reason.value);
        }
    }
  }

  lemma OrdinaryBook(o: ConnectionOptions, c: Conn, e: Event)
    requires !MayDisconnect(e)
    ensures Step(o, c, e).book ==
            if e.SendRequested? && SendAccepted(c) then AddSend(c.book, e.id, c.now)
            else if e.DataReceived? then AnswerAll(c.book, e.messages, c.now)
            else if e.RequestTimerFires? && RequestTimerDue(o, c, e.send) then TimeOut(c.book, e.send, c.now)
            else c.book
  {
  }

  /** What one event does to the book. */
  lemma StepBook(o: ConnectionOptions, c: Conn, e: Event)
    ensures var d := Step(o, c, e);
            || d.book == c.book
            || (exists error :: d.book == RejectAll(c.book, error, c.now))
            || (e.SendRequested? && SendAccepted(c) && d.book == AddSend(c.book, e.id, c.now))
            || (e.DataReceived? && d.book == AnswerAll(c.book, e.messages, c.now))
            || (e.RequestTimerFires? && RequestTimerDue(o, c, e.send) && d.book == TimeOut(c.book, e.send, c.now))
  {
    if MayDisconnect(e) {
      var reason := DisconnectBook(o, c, e);
    } else {
      OrdinaryBook(o, c, e);
    }
  }

  lemma StepKeepsSettledOnce(o: ConnectionOptions, c: Conn, e: Event)
    requires SettledOnce(c.book) && FreshId(c, e)
    ensures SettledOnce(Step(o, c, e).book)
  {
    StepBook(o, c, e);
    var d := Step(o, c, e);
    if error :| d.book == RejectAll(c.book, error, c.now) {
      RejectAllKeepsSettledOnce(c.book, error, c.now);
    } else if e.SendRequested? {
      SendNeedsFreshId(c.book, e.id, c.now);
    } else if e.DataReceived? {
      AnswerAllKeepsSettledOnce(c.book, e.messages, c.now);
    } else if e.RequestTimerFires? && RequestTimerDue(o, c, e.send) {
      TimeOutKeepsSettledOnce(c.book, e.send, c.now);
    }
  }

  /** Exactly-once settlement: over every interleaving of responses, timeouts, disconnects and close. */
  lemma {:induction false} EverySendSettledOnce(o: ConnectionOptions, c: Conn, events: seq<Event>)
    requires SettledOnce(c.book) && FreshIds(o, c, events)
    ensures SettledOnce(Run(o, c, events).book)
    decreases |events|
  {
    if events != [] {
      StepKeepsSettledOnce(o, c, events[0]);
      EverySendSettledOnce(o, Step(o, c, events[0]), events[1..]);
    }
  }

  /** A message that is not the answer to a pending id changes no entry and settles nothing. */
  lemma UnrelatedMessagesChangeNoEntry(c: Conn, m: RpcMessage)
    requires m.Response? ==> m.id !in c.book.pending
    ensures DeliverAll(c, [m]) ==
            if m.Pong? then c.(timers := c.timers.(lastPongAt := c.now)) else c
  {
    assert [m][..0] == [];
    assert AnswerAll(c.book, [m], c.now) == Answer(AnswerAll(c.book, [], c.now), m, c.now);
    assert m in [m];
  }

  /** Once every send with an id is settled the id is free again, so that a retry may use it on this connection. */
  lemma SettledIdIsFree(b: Book, id: string)
    requires SettledOnce(b)
    requires forall p | 0 <= p < |b.sends| && b.sends[p].id == id :: b.sends[p].settlements != []
    ensures id !in b.pending
  {
    if id in b.pending {
      assert RecordSettledOnce(b, b.pending[id]) && IsPending(b, b.pending[id]);
    }
  }

  // ----- how one step changes the sends -----

  /** `m` is a success response to `id` carrying `result`. */
  predicate Answers(m: RpcMessage, id: string, result: Option<Value>) {
    m.Response? && m.id == id && m.ok && m.result == result
  }

  /** A record is untouched, or it is settled now; it is resolved only with an answer out of `messages`. */
  predicate RecordEvolves(r: SendRecord, r': SendRecord, messages: seq<RpcMessage>, now: int) {
    || r' == r
    || (&& r.timerArmed
        && |r'.settlements| == |r.settlements| + 1
        && r' == Settle(r, r'.settlements[|r.settlements|].outcome, now)
        && (r'.settlements[|r.settlements|].outcome.Resolved? ==>
              exists m <- messages :: Answers(m, r.id, r'.settlements[|r.settlements|].outcome.result)))
  }

  ghost predicate Evolves(b: Book, d: Book, messages: seq<RpcMessage>, now: int) {
    && |b.sends| <= |d.sends|
    && (forall p | 0 <= p < |b.sends| :: RecordEvolves(b.sends[p], d.sends[p], messages, now))
    && (forall p | |b.sends| <= p < |d.sends| :: d.sends[p] == SendRecord(d.sends[p].id, now, true, []))
  }

  lemma AnswerEvolves(b: Book, m: RpcMessage, now: int)
    requires SettledOnce(b)
    ensures Evolves(b, Answer(b, m, now), [m], now)
  {
    if m.Response? && m.id in b.pending {
      var p := b.pending[m.id];
      assert RecordSettledOnce(b, p) && IsPending(b, p);
      assert m in [m];
      assert Answer(b, m, now).sends[p].settlements[0].outcome == ResponseOutcome(m);
      assert RecordEvolves(b.sends[p], Answer(b, m, now).sends[p], [m], now);
    }
  }

  lemma RejectAllEvolves(b: Book, error: Error, now: int)
    requires SettledOnce(b)
    ensures Evolves(b, RejectAll(b, error, now), [], now)
  {
    var d := RejectAll(b, error, now);
    forall p | 0 <= p < |b.sends|
      ensures RecordEvolves(b.sends[p], d.sends[p], [], now)
    {
      assert RecordSettledOnce(b, p);
      assert IsPending(b, p) ==> d.sends[p].settlements[0].outcome == Rejected(error);
    }
  }

  lemma StepEvolves(o: ConnectionOptions, c: Conn, e: Event)
    requires SettledOnce(c.book) && !e.DataReceived?
    ensures Evolves(c.book, Step(o, c, e).book, [], c.now)
  {
    StepBook(o, c, e);
    var d := Step(o, c, e);
    if error :| d.book == RejectAll(c.book, error, c.now) {
      RejectAllEvolves(c.book, error, c.now);
    } else if e.RequestTimerFires? && RequestTimerDue(o, c, e.send) {
      assert d.book.sends[e.send].settlements[|c.book.sends[e.send].settlements|].outcome.Rejected?;
      assert RecordEvolves(c.book.sends[e.send], d.book.sends[e.send], [], c.now);
    }
  }

  // ----- deadlines -----

  /** Settled no later than the deadline; not settled yet only before it. */
  predicate RecordInTime(o: ConnectionOptions, r: SendRecord, now: int) {
    && r.sentAt <= now
    && (r.timerArmed ==> now <= r.sentAt + o.timeoutMs)
    && (forall s <- r.settlements :: r.sentAt <= s.at <= now && s.at <= r.sentAt + o.timeoutMs)
  }

  predicate AllInTime(o: ConnectionOptions, b: Book, now: int) {
    forall p | 0 <= p < |b.sends| :: RecordInTime(o, b.sends[p], now)
  }

  /** Time does not pass a running request timer's due time before the timer has fired. */
  predicate DueTimersFireFirst(o: ConnectionOptions, c: Conn, events: seq<Event>)
    decreases |events|
  {
    events == [] || (TimersBefore(o, c, events[0]) && DueTimersFireFirst(o, Step(o, c, events[0]), events[1..]))
  }

  predicate TimersBefore(o: ConnectionOptions, c: Conn, e: Event) {
    e.TimeAdvances? ==>
      forall p | 0 <= p < |c.book.sends| && c.book.sends[p].timerArmed :: e.to <= c.book.sends[p].sentAt + o.timeoutMs
  }

  lemma EvolvingKeepsInTime(o: ConnectionOptions, b: Book, d: Book, messages: seq<RpcMessage>, now: int)
    requires AllInTime(o, b, now) && Evolves(b, d, messages, now)
    ensures AllInTime(o, d, now)
  {
    forall p | 0 <= p < |d.sends|
      ensures RecordInTime(o, d.sends[p], now)
    {
      if p < |b.sends| {
        assert RecordInTime(o, b.sends[p], now) && RecordEvolves(b.sends[p], d.sends[p], messages, now);
      }
    }
  }

  lemma {:induction false} AnswerAllKeepsInTime(o: ConnectionOptions, b: Book, messages: seq<RpcMessage>, now: int)
    requires SettledOnce(b) && AllInTime(o, b, now)
    ensures AllInTime(o, AnswerAll(b, messages, now), now)
    decreases |messages|
  {
    if messages != [] {
      var before, last := messages[..|messages| - 1], messages[|messages| - 1];
      AnswerAllKeepsInTime(o, b, before, now);
      AnswerAllKeepsSettledOnce(b, before, now);
      AnswerEvolves(AnswerAll(b, before, now), last, now);
      EvolvingKeepsInTime(o, AnswerAll(b, before, now), AnswerAll(b, messages, now), [last], now);
    }
  }

  lemma StepKeepsInTime(o: ConnectionOptions, c: Conn, e: Event)
    requires SettledOnce(c.book) && AllInTime(o, c.book, c.now) && TimersBefore(o, c, e)
    ensures AllInTime(o, Step(o, c, e).book, Step(o, c, e).now)
  {
    if e.DataReceived? {
      AnswerAllKeepsInTime(o, c.book, e.messages, c.now);
    } else if e.TimeAdvances? {
      forall p | 0 <= p < |c.book.sends|
        ensures RecordInTime(o, c.book.sends[p], Step(o, c, e).now)
      {
        assert RecordInTime(o, c.book.sends[p], c.now);
      }
    } else {
      StepEvolves(o, c, e);
      EvolvingKeepsInTime(o, c.book, Step(o, c, e).book, [], c.now);
      assert Step(o, c, e).now == c.now;
    }
  }

  /** Every send is settled by `sentAt + timeoutMs`, provided that due timers fire before time passes them. */
  lemma {:induction false} EverySendSettledInTime(o: ConnectionOptions, c: Conn, events: seq<Event>)
    requires SettledOnce(c.book) && AllInTime(o, c.book, c.now)
    requires FreshIds(o, c, events) && DueTimersFireFirst(o, c, events)
    ensures var d := Run(o, c, events);
            && SettledOnce(d.book) && AllInTime(o, d.book, d.now)
            && forall p | 0 <= p < |d.book.sends| && d.now > d.book.sends[p].sentAt + o.timeoutMs ::
                 |d.book.sends[p].settlements| == 1
    decreases |events|
  {
    if events == [] {
      forall p | 0 <= p < |c.book.sends| && c.now > c.book.sends[p].sentAt + o.timeoutMs
        ensures |c.book.sends[p].settlements| == 1
      {
        assert RecordInTime(o, c.book.sends[p], c.now) && RecordSettledOnce(c.book, p);
      }
    } else {
      StepKeepsSettledOnce(o, c, events[0]);
      StepKeepsInTime(o, c, events[0]);
      EverySendSettledInTime(o, Step(o, c, events[0]), events[1..]);
    }
  }
}
