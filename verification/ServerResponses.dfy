/**
 * What the server writes: every request that it has accepted gets its own response, every ping its pong, every request
 * during a drain its refusal, and nothing else goes out.
 */
module ServerResponses {
  import opened Common
  import opened Messages
  import opened Codec
  import opened Server
  import opened ServerProofs

  // ----- one run of the message loop -----

  /** The loop goes on behind this message. */
  predicate PassedOver(cfg: CodecConfig, clock: int, m: RpcMessage) {
    !m.Request? && (m.Ping? ==> Encoded(cfg, Pong(m.id, clock)).Success?)
  }

  /** One pong for each ping, under the ping's id and in the order of the pings. */
  function PongsTo(cfg: CodecConfig, clock: int, socket: nat, messages: seq<RpcMessage>): seq<SocketWrite>
    requires forall m <- messages :: PassedOver(cfg, clock, m)
  {
    if messages == [] then [] else
    var m := messages[0];
    assert m in messages && PassedOver(cfg, clock, m);
    var later := PongsTo(cfg, clock, socket, messages[1..]);
    if m.Ping? then [SocketWrite(socket, Pong(m.id, clock), Encoded(cfg, Pong(m.id, clock)).value)] + later else later
  }

  /** The answer to a request that comes during a drain. */
  function RefusalOf(request: RpcMessage): RpcMessage
    requires request.Request?
  {
    Response(request.id, false, None, Some(ErrorInfo("SERVER_DRAINING", "RPC server is draining")), request.metadata)
  }

  /** How a run of the loop that passes over `k` messages leaves the work. */
  predicate LoopEnds(cfg: CodecConfig, draining: bool, clock: int, w: Work, h: nat, k: nat, w1: Work)
    requires h < |w.handlers| && k <= |w.handlers[h].rest|
    requires forall m <- w.handlers[h].rest[..k] :: PassedOver(cfg, clock, m)
  {
    var socket, rest := w.handlers[h].socket, w.handlers[h].rest;
    var written := w.writes + PongsTo(cfg, clock, socket, rest[..k]);
    var ended := w.(writes := written, handlers := w.handlers[h := Handler(socket, [], Ended)]);
    var failed := ended.(destroyed := w.destroyed + {socket});
    if k == |rest| then w1 == ended
    else if !rest[k].Request? then w1 == failed
    else if !draining then
      w1 == w.(writes := written,
               activeRequests := w.activeRequests + 1,
               requests := w.requests + [AcceptedRequest(h, rest[k], Invoking, None)],
               handlers := w.handlers[h := Handler(socket, rest[k + 1..], AwaitingInvoke(|w.requests|))])
    else if Encoded(cfg, RefusalOf(rest[k])).Failure? then w1 == failed
    else
      w1 == w.(writes := written + [SocketWrite(socket, RefusalOf(rest[k]), Encoded(cfg, RefusalOf(rest[k])).value)],
               handlers := w.handlers[h := Handler(socket, rest[k + 1..], AwaitingRejection)])
  }

  lemma HandlerSetTwice(handlers: seq<Handler>, h: nat, first: Handler, second: Handler)
    requires h < |handlers|
    ensures handlers[h := first][h := second] == handlers[h := second]
  {
  }

  /** The first message that stops the loop comes one later when a message in front of it is passed over. */
  lemma OneMorePassedOver(cfg: CodecConfig, draining: bool, clock: int, w: Work, h: nat, k: nat, w1: Work, w2: Work)
    requires h < |w.handlers| && w.handlers[h].rest != [] && PassedOver(cfg, clock, w.handlers[h].rest[0])
    requires k <= |w.handlers[h].rest[1..]|
    requires forall m <- w.handlers[h].rest[1..][..k] :: PassedOver(cfg, clock, m)
    requires var m, handler := w.handlers[h].rest[0], w.handlers[h].(rest := w.handlers[h].rest[1..]);
             w2 == w.(writes := w.writes + PongsTo(cfg, clock, handler.socket, [m]), handlers := w.handlers[h := handler])
    requires LoopEnds(cfg, draining, clock, w2, h, k, w1)
    ensures forall m <- w.handlers[h].rest[..k + 1] :: PassedOver(cfg, clock, m)
    ensures LoopEnds(cfg, draining, clock, w, h, k + 1, w1)
  {
    var rest, socket := w.handlers[h].rest, w.handlers[h].socket;
    assert rest[..k + 1] == [rest[0]] + rest[1..][..k];
    assert rest[..k + 1][1..] == rest[1..][..k] && [rest[0]][1..] == [];
    var first, later := PongsTo(cfg, clock, socket, [rest[0]]), PongsTo(cfg, clock, socket, rest[1..][..k]);
    assert PongsTo(cfg, clock, socket, rest[..k + 1]) == first + later;
    assert (w.writes + first) + later == w.writes + (first + later);
    assert rest[1..][k + 1 - 1..] == rest[k + 1..];
    if k + 1 < |rest| {
      assert rest[1..][k] == rest[k + 1] && rest[1..][k + 1..] == rest[k + 2..];
    }
    HandlerSetTwice(w.handlers, h, w2.handlers[h], w1.handlers[h]);
  }

  /**
   * The loop, in closed form: it answers the pings and skips responses and pongs up to the first request, or the first
   * ping whose pong does not encode. That request is accepted, or refused under its own id while the server drains.
   */
  lemma {:induction false} LoopLaw(cfg: CodecConfig, draining: bool, clock: int, w: Work, h: nat) returns (k: nat)
    requires h < |w.handlers|
    ensures k <= |w.handlers[h].rest| && forall m <- w.handlers[h].rest[..k] :: PassedOver(cfg, clock, m)
    ensures k < |w.handlers[h].rest| ==> !PassedOver(cfg, clock, w.handlers[h].rest[k])
    ensures LoopEnds(cfg, draining, clock, w, h, k, Proceed(cfg, draining, clock, w, h))
    decreases |w.handlers[h].rest|
  {
    var rest, socket := w.handlers[h].rest, w.handlers[h].socket;
    if rest == [] {
      assert w.writes + [] == w.writes;
      return 0;
    }
    var m := rest[0];
    if !PassedOver(cfg, clock, m) {
      StopsAtOnce(cfg, draining, clock, w, h);
      return 0;
    }
    var handler := Handler(socket, rest[1..], w.handlers[h].phase);
    var w1 := w.(writes := w.writes + PongsTo(cfg, clock, socket, [m]), handlers := w.handlers[h := handler]);
    var later := LoopLaw(cfg, draining, clock, w1, h);
    GoesRound(cfg, draining, clock, w, h, w1);
    OneMorePassedOver(cfg, draining, clock, w, h, later, Proceed(cfg, draining, clock, w, h), w1);
    k := later + 1;
  }

  lemma StopsAtOnce(cfg: CodecConfig, draining: bool, clock: int, w: Work, h: nat)
    requires h < |w.handlers| && w.handlers[h].rest != [] && !PassedOver(cfg, clock, w.handlers[h].rest[0])
    ensures LoopEnds(cfg, draining, clock, w, h, 0, Proceed(cfg, draining, clock, w, h))
  {
    var rest := w.handlers[h].rest;
    var handler := w.handlers[h].(rest := rest[1..]);
    assert w.writes + [] == w.writes;
    HandlerSetTwice(w.handlers, h, handler, Proceed(cfg, draining, clock, w, h).handlers[h]);
  }

  lemma GoesRound(cfg: CodecConfig, draining: bool, clock: int, w: Work, h: nat, w1: Work)
    requires h < |w.handlers| && w.handlers[h].rest != [] && PassedOver(cfg, clock, w.handlers[h].rest[0])
    requires var m, handler := w.handlers[h].rest[0], w.handlers[h].(rest := w.handlers[h].rest[1..]);
             w1 == w.(writes := w.writes + PongsTo(cfg, clock, handler.socket, [m]), handlers := w.handlers[h := handler])
    ensures Proceed(cfg, draining, clock, w, h) == Proceed(cfg, draining, clock, w1, h)
  {
    var m, socket := w.handlers[h].rest[0], w.handlers[h].socket;
    assert [m][1..] == [];
    if m.Ping? {
      var pong := SocketWrite(socket, Pong(m.id, clock), Encoded(cfg, Pong(m.id, clock)).value);
      assert [pong] + [] == [pong];
      assert PongsTo(cfg, clock, socket, [m]) == [pong];
    } else {
      assert PongsTo(cfg, clock, socket, [m]) == [] && w.writes + [] == w.writes;
    }
  }

  // ----- one response for each request -----

  /** The response of this request has been handed to the socket; how the write ends does not matter. */
  predicate HasWritten(q: AcceptedRequest) {
    q.status == Writing || q.status == Answered || q.status == WriteFailed
  }

  /** `x` answers request r: it goes to the socket of the request's handler, and carries what the method came to. */
  predicate RespondsTo(cfg: CodecConfig, w: Work, r: nat, x: SocketWrite)
    requires r < |w.requests|
  {
    var q := w.requests[r];
    && q.request.Request? && q.outcome.Some?
    && q.handler < |w.handlers| && x.socket == w.handlers[q.handler].socket
    && x.message == InvokeResponse(q.request, q.outcome.value)
    && Encoded(cfg, x.message) == Success(x.packet)
  }

  /** A write that belongs to no accepted request. */
  predicate PongOrRefusal(x: SocketWrite) {
    || x.message.Pong?
    || (x.message.Response? && !x.message.ok && x.message.result == None
        && x.message.error == Some(ErrorInfo("SERVER_DRAINING", "RPC server is draining")))
  }

  /** `slots` says for each request where its response is among the writes. */
  predicate SlotOk(cfg: CodecConfig, w: Work, slots: seq<Option<nat>>, r: nat)
    requires |slots| == |w.requests| && r < |slots|
  {
    var q := w.requests[r];
    && (slots[r].Some? <==> HasWritten(q))
    && (slots[r].Some? ==> slots[r].value < |w.writes| && RespondsTo(cfg, w, r, w.writes[slots[r].value]))
    && (q.status == EncodeFailed ==>
          q.request.Request? && q.outcome.Some? && Encoded(cfg, InvokeResponse(q.request, q.outcome.value)).Failure?)
  }

  predicate Taken(slots: seq<Option<nat>>, i: nat) {
    Some(i) in slots
  }

  ghost predicate SlotsOk(cfg: CodecConfig, w: Work, slots: seq<Option<nat>>) {
    && |slots| == |w.requests|
    && (forall r | 0 <= r < |slots| :: SlotOk(cfg, w, slots, r))
    && (forall r, q | 0 <= r < |slots| && 0 <= q < |slots| && slots[r].Some? && slots[r] == slots[q] :: r == q)
    && (forall i | 0 <= i < |w.writes| :: Taken(slots, i) || PongOrRefusal(w.writes[i]))
  }

  /**
   * Each request whose method has settled has exactly one response among the writes, unless that failed to encode; every
   * other write is a pong or a refusal.
   */
  ghost predicate Responded(cfg: CodecConfig, w: Work) {
    exists slots :: SlotsOk(cfg, w, slots)
  }

  /** No handler goes away or changes its socket. */
  predicate SameSockets(w: Work, w1: Work) {
    |w.handlers| <= |w1.handlers| && forall h | 0 <= h < |w.handlers| :: w1.handlers[h].socket == w.handlers[h].socket
  }

  predicate OnlyPongsAndRefusals(before: seq<SocketWrite>, after: seq<SocketWrite>) {
    before <= after && forall i | |before| <= i < |after| :: PongOrRefusal(after[i])
  }

  lemma QuietKeepsSlots(cfg: CodecConfig, w: Work, w1: Work, slots: seq<Option<nat>>)
    requires SlotsOk(cfg, w, slots) && SameSockets(w, w1)
    requires w1.requests == w.requests && OnlyPongsAndRefusals(w.writes, w1.writes)
    ensures SlotsOk(cfg, w1, slots)
  {
    forall r | 0 <= r < |slots|
      ensures SlotOk(cfg, w1, slots, r)
    {
      assert SlotOk(cfg, w, slots, r);
    }
    forall i | 0 <= i < |w1.writes|
      ensures Taken(slots, i) || PongOrRefusal(w1.writes[i])
    {
      assert i < |w.writes| ==> w1.writes[i] == w.writes[i];
    }
  }

  lemma AcceptKeepsSlots(cfg: CodecConfig, w: Work, w1: Work, slots: seq<Option<nat>>)
    requires SlotsOk(cfg, w, slots) && SameSockets(w, w1) && w1.writes == w.writes
    requires |w1.requests| == |w.requests| + 1 && w1.requests[..|w.requests|] == w.requests
    requires w1.requests[|w.requests|].status == Invoking
    ensures SlotsOk(cfg, w1, slots + [None])
  {
    var slots1 := slots + [None];
    forall r | 0 <= r < |slots1|
      ensures SlotOk(cfg, w1, slots1, r)
    {
      assert r < |slots| ==> w1.requests[..|w.requests|][r] == w.requests[r] && SlotOk(cfg, w, slots, r);
    }
    forall i | 0 <= i < |w1.writes|
      ensures Taken(slots1, i) || PongOrRefusal(w1.writes[i])
    {
      assert Taken(slots, i) ==> Some(i) in slots1;
    }
  }

  /** One request changes, and either gets its response as the last write or keeps what it has. */
  lemma RequestKeepsSlots(cfg: CodecConfig, w: Work, w1: Work, slots: seq<Option<nat>>, r: nat, slot: Option<nat>)
    requires SlotsOk(cfg, w, slots) && SameSockets(w, w1)
    requires r < |w.requests| && |w1.requests| == |w.requests| && w1.requests == w.requests[r := w1.requests[r]]
    requires if slot == slots[r] then w1.writes == w.writes
             else slots[r] == None && slot == Some(|w.writes|) && |w1.writes| == |w.writes| + 1 && w.writes <= w1.writes
    requires SlotOk(cfg, w1, slots[r := slot], r)
    ensures SlotsOk(cfg, w1, slots[r := slot])
  {
    var slots1 := slots[r := slot];
    forall q | 0 <= q < |slots1|
      ensures SlotOk(cfg, w1, slots1, q)
    {
      assert SlotOk(cfg, w, slots, q);
    }
    forall a, b | 0 <= a < |slots1| && 0 <= b < |slots1| && slots1[a].Some? && slots1[a] == slots1[b]
      ensures a == b
    {
      assert SlotOk(cfg, w, slots, a) && SlotOk(cfg, w, slots, b);
    }
    forall i | 0 <= i < |w1.writes|
      ensures Taken(slots1, i) || PongOrRefusal(w1.writes[i])
    {
      if i == |w.writes| {
        assert slots1[r] == Some(i);
      } else if Taken(slots, i) {
        var q :| 0 <= q < |slots| && slots[q] == Some(i);
        assert slots1[q] == Some(i);
      }
    }
  }

  lemma {:induction false} PongsArePongs(cfg: CodecConfig, clock: int, socket: nat, messages: seq<RpcMessage>)
    requires forall m <- messages :: PassedOver(cfg, clock, m)
    ensures forall x <- PongsTo(cfg, clock, socket, messages) :: x.message.Pong? && x.socket == socket
    decreases |messages|
  {
    if messages != [] {
      assert messages[0] in messages && PassedOver(cfg, clock, messages[0]);
      PongsArePongs(cfg, clock, socket, messages[1..]);
    }
  }

  lemma LoopKeepsResponded(cfg: CodecConfig, draining: bool, clock: int, w: Work, h: nat)
    requires Responded(cfg, w) && h < |w.handlers|
    ensures Responded(cfg, Proceed(cfg, draining, clock, w, h))
  {
    var slots :| SlotsOk(cfg, w, slots);
    var k := LoopLaw(cfg, draining, clock, w, h);
    PongsArePongs(cfg, clock, w.handlers[h].socket, w.handlers[h].rest[..k]);
    LoopEndKeepsSlots(cfg, draining, clock, w, h, k, Proceed(cfg, draining, clock, w, h), slots);
  }

  lemma LoopEndKeepsSlots(cfg: CodecConfig, draining: bool, clock: int, w: Work, h: nat, k: nat, w1: Work,
                          slots: seq<Option<nat>>)
    requires SlotsOk(cfg, w, slots) && h < |w.handlers| && k <= |w.handlers[h].rest|
    requires forall m <- w.handlers[h].rest[..k] :: PassedOver(cfg, clock, m)
    requires forall x <- PongsTo(cfg, clock, w.handlers[h].socket, w.handlers[h].rest[..k]) :: x.message.Pong?
    requires LoopEnds(cfg, draining, clock, w, h, k, w1)
    ensures Responded(cfg, w1)
  {
    var rest := w.handlers[h].rest;
    var pongs := PongsTo(cfg, clock, w.handlers[h].socket, rest[..k]);
    var answered := w.(writes := w.writes + pongs);
    assert OnlyPongsAndRefusals(w.writes, answered.writes) by {
      forall i | |w.writes| <= i < |answered.writes|
        ensures PongOrRefusal(answered.writes[i])
      {
        assert answered.writes[i] in pongs;
      }
    }
    QuietKeepsSlots(cfg, w, answered, slots);
    if k < |rest| && rest[k].Request? && !draining {
      AcceptKeepsSlots(cfg, answered, w1, slots);
    } else {
      QuietKeepsSlots(cfg, answered, w1, slots);
    }
  }

  lemma InvokeKeepsResponded(cfg: CodecConfig, w: Work, h: nat, outcome: MethodOutcome)
    requires WorkOk(w) && Responded(cfg, w) && CanReturn(w, h)
    ensures Responded(cfg, InvokeReturns(cfg, w, h, outcome))
  {
    var slots :| SlotsOk(cfg, w, slots);
    var r, w1 := w.handlers[h].phase.request, InvokeReturns(cfg, w, h, outcome);
    assert HandlerHolds(w, h) && SlotOk(cfg, w, slots, r);
    var slot := if Encoded(cfg, InvokeResponse(w.requests[r].request, outcome)).Success? then Some(|w.writes|) else None;
    RequestKeepsSlots(cfg, w, w1, slots, r, slot);
  }

  lemma WriteKeepsResponded(cfg: CodecConfig, draining: bool, clock: int, w: Work, h: nat, ok: bool)
    requires WorkOk(w) && Responded(cfg, w) && CanEndWrite(w, h)
    ensures Responded(cfg, WriteEnds(cfg, draining, clock, w, h, ok))
  {
    var slots :| SlotsOk(cfg, w, slots);
    var w1 := w;
    if w.handlers[h].phase.AwaitingWrite? {
      var r := w.handlers[h].phase.request;
      w1 := FinishRequest(w, r, if ok then Answered else WriteFailed);
      assert HandlerHolds(w, h) && SlotOk(cfg, w, slots, r);
      RequestKeepsSlots(cfg, w, w1, slots, r, slots[r]);
      assert slots[r := slots[r]] == slots;
    }
    if ok {
      var w2 := w1.(handlers := w1.handlers[h := w1.handlers[h].(phase := Ended)]);
      QuietKeepsSlots(cfg, w1, w2, slots);
      LoopKeepsResponded(cfg, draining, clock, w2, h);
    } else {
      QuietKeepsSlots(cfg, w1, FailHandler(w1, h), slots);
    }
  }

  lemma StepKeepsResponded(cfg: CodecConfig, s: Srv, e: Event)
    requires WorkOk(s.work) && Responded(cfg, s.work)
    ensures Responded(cfg, Step(cfg, s, e).work)
  {
    var slots :| SlotsOk(cfg, s.work, slots);
    match e
    case DataReceived(socket, messages) =>
      var w1 := s.work.(handlers := s.work.handlers + [Handler(socket, messages, Ended)]);
      QuietKeepsSlots(cfg, s.work, w1, slots);
      LoopKeepsResponded(cfg, IsDraining(s), s.clock, w1, |s.work.handlers|);
    case MethodSettles(h, outcome) =>
      if CanReturn(s.work, h) {
        InvokeKeepsResponded(cfg, s.work, h, outcome);
      }
    case WriteSettles(h, ok) =>
      if CanEndWrite(s.work, h) {
        WriteKeepsResponded(cfg, IsDraining(s), s.clock, s.work, h, ok);
      }
    case _ => QuietKeepsSlots(cfg, s.work, Step(cfg, s, e).work, slots);
  }

  /** In every run each request whose method has settled has exactly one response written, and nothing is answered twice. */
  lemma {:induction false} EveryRunResponds(cfg: CodecConfig, s: Srv, events: seq<Event>)
    requires WorkOk(s.work) && Responded(cfg, s.work)
    ensures WorkOk(Run(cfg, s, events).work) && Responded(cfg, Run(cfg, s, events).work)
    decreases |events|
  {
    if events != [] {
      StepKeepsWorkOk(cfg, s, events[0]);
      StepKeepsResponded(cfg, s, events[0]);
      EveryRunResponds(cfg, Step(cfg, s, events[0]), events[1..]);
    }
  }

  lemma NewServerResponds(cfg: CodecConfig, clock: int)
    ensures WorkOk(InitialServer(clock).work) && Responded(cfg, InitialServer(clock).work)
  {
    assert SlotsOk(cfg, InitialServer(clock).work, []);
  }

  /**
   * Drain safety: in every run from the start in which nobody listens during a drain, when a graceful close goes on to
   * destroy the connections and its timer has not fired, `activeRequests` is 0 and every request that was ever accepted has
   * had its one response written, and that write has ended; or its response does not encode.
   */
  lemma DrainSafety(cfg: CodecConfig, clock: int, events: seq<Event>, i: nat)
    requires NoListenWhileDraining(cfg, InitialServer(clock), events)
    requires var d := Run(cfg, InitialServer(clock), events).drain;
             CanCloseConnections(d, i) && (d.closes[i].waiter.Some? ==> d.waiters[d.closes[i].waiter.value] != TimedOut)
    ensures var s := Run(cfg, InitialServer(clock), events);
            && s.drain.state == Draining
            && s.work.activeRequests == 0
            && Responded(cfg, s.work)
            && forall r | 0 <= r < |s.work.requests| ::
                 var status := s.work.requests[r].status;
                 status == Answered || status == WriteFailed || status == EncodeFailed
  {
    InitialServerOk(clock);
    NewServerResponds(cfg, clock);
    EveryRunKeepsServerOk(cfg, InitialServer(clock), events);
    EveryRunResponds(cfg, InitialServer(clock), events);
    var s := Run(cfg, InitialServer(clock), events);
    assert s.drain.closes[i] in s.drain.closes && CloseOk(s.drain, s.work.activeRequests, s.drain.closes[i]);
    NothingActiveNothingOpen(s.work);
    forall r | 0 <= r < |s.work.requests|
      ensures s.work.requests[r].status !in {Invoking, Writing}
    {
      assert !Open(s.work.requests[r]);
    }
  }

  // ----- what becomes of a request -----

  /** A request's record after an event: only its own method and its own write change it. */
  function RecordAfter(cfg: CodecConfig, w: Work, e: Event, r: nat): AcceptedRequest
    requires r < |w.requests| && w.requests[r].request.Request?
  {
    var q := w.requests[r];
    if e.MethodSettles? && e.handler == q.handler < |w.handlers| && w.handlers[q.handler].phase == AwaitingInvoke(r) then
      q.(outcome := Some(e.outcome),
         status := if Encoded(cfg, InvokeResponse(q.request, e.outcome)).Success? then Writing else EncodeFailed)
    else if e.WriteSettles? && e.handler == q.handler < |w.handlers| && w.handlers[q.handler].phase == AwaitingWrite(r) then
      q.(status := if e.ok then Answered else WriteFailed)
    else q
  }

  lemma LoopChangesNoRequest(cfg: CodecConfig, draining: bool, clock: int, w: Work, h: nat)
    requires h < |w.handlers|
    ensures w.requests <= Proceed(cfg, draining, clock, w, h).requests
  {
    var k := LoopLaw(cfg, draining, clock, w, h);
  }

  lemma WriteEndChangesRequest(cfg: CodecConfig, draining: bool, clock: int, w: Work, h: nat, ok: bool, r: nat)
    requires WorkOk(w) && CanEndWrite(w, h) && r < |w.requests|
    ensures var requests := WriteEnds(cfg, draining, clock, w, h, ok).requests;
            r < |requests|
            && requests[r] == if w.handlers[h].phase == AwaitingWrite(r)
                              then w.requests[r].(status := if ok then Answered else WriteFailed) else w.requests[r]
  {
    assert HandlerHolds(w, h);
    if ok {
      var w1 := if w.handlers[h].phase.AwaitingRejection? then w
                else FinishRequest(w, w.handlers[h].phase.request, Answered);
      LoopChangesNoRequest(cfg, draining, clock, w1.(handlers := w1.handlers[h := w1.handlers[h].(phase := Ended)]), h);
    }
  }

  /** A record's life, event by event. */
  lemma StepChangesRequests(cfg: CodecConfig, s: Srv, e: Event, r: nat)
    requires WorkOk(s.work) && r < |s.work.requests| && s.work.requests[r].request.Request?
    ensures var requests := Step(cfg, s, e).work.requests;
            r < |requests| && requests[r] == RecordAfter(cfg, s.work, e, r)
  {
    match e
    case DataReceived(socket, messages) =>
      LoopChangesNoRequest(cfg, IsDraining(s), s.clock,
                           s.work.(handlers := s.work.handlers + [Handler(socket, messages, Ended)]), |s.work.handlers|);
    case MethodSettles(h, outcome) =>
      if CanReturn(s.work, h) {
        assert HandlerHolds(s.work, h);
      }
    case WriteSettles(h, ok) =>
      if CanEndWrite(s.work, h) {
        assert HandlerHolds(s.work, h);
        WriteEndChangesRequest(cfg, IsDraining(s), s.clock, s.work, h, ok, r);
      }
    case _ =>
  }
}
