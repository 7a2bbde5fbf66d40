/** Where results come from: a client's from the answers it has received, a server's answers from its invocations. */
module Provenance {
  import opened Common
  import opened Messages
  import opened Codec
  import C = Connection
  import P = ConnectionProofs
  import S = Server
  import opened ServerProofs

  // ----- where the client's results come from -----

  /** Every resolved send, from number `first` on, got its result from an answer to its id among `answers`. */
  ghost predicate Justified(b: C.Book, first: nat, answers: seq<RpcMessage>) {
    forall p | first <= p < |b.sends| :: RecordJustified(b.sends[p], answers)
  }

  predicate RecordJustified(r: C.SendRecord, answers: seq<RpcMessage>) {
    forall s <- r.settlements :: s.outcome.Resolved? ==> exists m <- answers :: P.Answers(m, r.id, s.outcome.result)
  }

  lemma {:induction false} AnswerAllKeepsJustified(b: C.Book, messages: seq<RpcMessage>, now: int, first: nat,
                                                    answers: seq<RpcMessage>)
    requires C.EntriesOk(b) && Justified(b, first, answers)
    requires forall m <- messages :: m in answers
    ensures C.EntriesOk(C.AnswerAll(b, messages, now)) && Justified(C.AnswerAll(b, messages, now), first, answers)
    decreases |messages|
  {
    if messages != [] {
      var before, m := messages[..|messages| - 1], messages[|messages| - 1];
      AnswerAllKeepsJustified(b, before, now, first, answers);
      var b1 := C.AnswerAll(b, before, now);
      var b2 := C.Answer(b1, m, now);
      assert m in answers;
      forall p | first <= p < |b2.sends|
        ensures RecordJustified(b2.sends[p], answers)
      {
        assert RecordJustified(b1.sends[p], answers);
      }
    }
  }

  lemma ClientStepKeepsJustified(o: C.ConnectionOptions, c: C.Conn, e: C.Event, first: nat, answers: seq<RpcMessage>)
    requires C.EntriesOk(c.book) && Justified(c.book, first, answers) && first <= |c.book.sends|
    requires e.DataReceived? ==> forall m <- e.messages :: m in answers
    ensures C.EntriesOk(C.Step(o, c, e).book) && Justified(C.Step(o, c, e).book, first, answers)
  {
    P.StepBook(o, c, e);
    var d := C.Step(o, c, e).book;
    if e.DataReceived? {
      AnswerAllKeepsJustified(c.book, e.messages, c.now, first, answers);
    } else {
      forall p | first <= p < |d.sends|
        ensures RecordJustified(d.sends[p], answers)
      {
        assert p < |c.book.sends| ==> RecordJustified(c.book.sends[p], answers);
      }
    }
  }

  lemma MoreAnswersKeepJustified(b: C.Book, first: nat, answers: seq<RpcMessage>, more: seq<RpcMessage>)
    requires Justified(b, first, answers)
    ensures Justified(b, first, answers + more)
  {
    forall p | first <= p < |b.sends|
      ensures RecordJustified(b.sends[p], answers + more)
    {
      assert RecordJustified(b.sends[p], answers);
      assert forall m <- answers :: m in answers + more;
    }
  }

  /** A step that is no `send` makes no record and renames none; a send makes one, under its id. */
  lemma StepKeepsIds(o: C.ConnectionOptions, c: C.Conn, e: C.Event)
    ensures var b, d := c.book, C.Step(o, c, e).book;
            && |d.sends| == |b.sends| + (if e.SendRequested? && C.SendAccepted(c) then 1 else 0)
            && (forall p | 0 <= p < |b.sends| :: d.sends[p].id == b.sends[p].id)
            && (e.SendRequested? && C.SendAccepted(c) ==> d.sends[|b.sends|].id == e.id)
  {
    if P.MayDisconnect(e) {
      var reason := P.DisconnectBook(o, c, e);
    } else {
      P.OrdinaryBook(o, c, e);
      if e.DataReceived? {
        AnswerAllKeepsIds(c.book, e.messages, c.now);
      }
    }
  }

  lemma {:induction false} AnswerAllKeepsIds(b: C.Book, messages: seq<RpcMessage>, now: int)
    ensures var d := C.AnswerAll(b, messages, now);
            |d.sends| == |b.sends| && forall p | 0 <= p < |b.sends| :: d.sends[p].id == b.sends[p].id
    decreases |messages|
  {
    if messages != [] {
      AnswerAllKeepsIds(b, messages[..|messages| - 1], now);
    }
  }

  // ----- where the server's answers come from -----

  /** Request `r` was invoked for a handler of this socket, and `x` carries its outcome. */
  predicate Produced(w: S.Work, r: nat, x: S.SocketWrite)
    requires r < |w.requests|
  {
    && w.requests[r].request.Request? && w.requests[r].outcome.Some?
    && x.message == S.InvokeResponse(w.requests[r].request, w.requests[r].outcome.value)
    && w.requests[r].handler < |w.handlers| && w.handlers[w.requests[r].handler].socket == x.socket
  }

  ghost predicate WriteSound(cfg: CodecConfig, w: S.Work, x: S.SocketWrite) {
    && Encoded(cfg, x.message) == Success(x.packet)
    && (x.message.Response? && x.message.ok ==> exists r | 0 <= r < |w.requests| :: Produced(w, r, x))
  }

  predicate HandlerFrom(w: S.Work, h: nat, socket: nat, received: seq<RpcMessage>)
    requires h < |w.handlers|
  {
    w.handlers[h].socket == socket ==> forall m <- w.handlers[h].rest :: m in received
  }

  predicate RequestFrom(w: S.Work, r: nat, socket: nat, received: seq<RpcMessage>)
    requires r < |w.requests|
  {
    && w.requests[r].handler < |w.handlers|
    && (w.handlers[w.requests[r].handler].socket == socket ==> w.requests[r].request in received)
  }

  /** Everything on `socket` goes back to the messages in `received`. */
  ghost predicate Sound(cfg: CodecConfig, w: S.Work, socket: nat, received: seq<RpcMessage>) {
    && (forall x <- w.writes :: WriteSound(cfg, w, x))
    && (forall h | 0 <= h < |w.handlers| :: HandlerFrom(w, h, socket, received))
    && (forall r | 0 <= r < |w.requests| :: RequestFrom(w, r, socket, received))
  }

  /** A change that keeps sockets, outcomes and origins, and adds at most one write that is sound by itself. */
  lemma SmallChangeKeepsSound(cfg: CodecConfig, w: S.Work, w1: S.Work, socket: nat, received: seq<RpcMessage>)
    requires Sound(cfg, w, socket, received)
    requires |w.handlers| == |w1.handlers| && |w.requests| == |w1.requests|
    requires forall h | 0 <= h < |w.handlers| ::
               w1.handlers[h].socket == w.handlers[h].socket && forall m <- w1.handlers[h].rest :: m in w.handlers[h].rest
    requires forall r | 0 <= r < |w.requests| ::
               && w1.requests[r].handler == w.requests[r].handler && w1.requests[r].request == w.requests[r].request
               && (w.requests[r].outcome.Some? ==> w1.requests[r].outcome == w.requests[r].outcome)
    requires w.writes <= w1.writes && forall x <- w1.writes[|w.writes|..] :: WriteSound(cfg, w1, x)
    ensures Sound(cfg, w1, socket, received)
  {
    forall x <- w1.writes
      ensures WriteSound(cfg, w1, x)
    {
      assert w1.writes == w.writes + w1.writes[|w.writes|..];
      if x in w.writes {
        assert WriteSound(cfg, w, x);
        if x.message.Response? && x.message.ok {
          var r :| 0 <= r < |w.requests| && Produced(w, r, x);
          assert Produced(w1, r, x);
        }
      }
    }
    forall h | 0 <= h < |w1.handlers|
      ensures HandlerFrom(w1, h, socket, received)
    {
      assert HandlerFrom(w, h, socket, received);
    }
    forall r | 0 <= r < |w1.requests|
      ensures RequestFrom(w1, r, socket, received)
    {
      assert RequestFrom(w, r, socket, received);
    }
  }

  lemma AcceptKeepsSound(cfg: CodecConfig, w: S.Work, h: nat, message: RpcMessage, socket: nat, received: seq<RpcMessage>)
    requires Sound(cfg, w, socket, received) && h < |w.handlers| && message.Request?
    requires w.handlers[h].socket == socket ==> message in received
    ensures Sound(cfg, S.Accept(w, h, message), socket, received)
  {
    var w1 := S.Accept(w, h, message);
    forall x <- w1.writes
      ensures WriteSound(cfg, w1, x)
    {
      assert WriteSound(cfg, w, x);
      if x.message.Response? && x.message.ok {
        var r :| 0 <= r < |w.requests| && Produced(w, r, x);
        assert Produced(w1, r, x);
      }
    }
    forall i | 0 <= i < |w1.handlers|
      ensures HandlerFrom(w1, i, socket, received)
    {
      assert HandlerFrom(w, i, socket, received);
    }
    forall r | 0 <= r < |w1.requests|
      ensures RequestFrom(w1, r, socket, received)
    {
      assert r < |w.requests| ==> RequestFrom(w, r, socket, received);
    }
  }

  lemma {:induction false} ProceedKeepsSound(cfg: CodecConfig, draining: bool, clock: int, w: S.Work, h: nat,
                                             socket: nat, received: seq<RpcMessage>)
    requires Sound(cfg, w, socket, received) && h < |w.handlers|
    ensures var w1 := S.Proceed(cfg, draining, clock, w, h);
            Sound(cfg, w1, socket, received) && w.writes <= w1.writes
    decreases |w.handlers[h].rest|
  {
    var w' := S.Proceed(cfg, draining, clock, w, h);
    if w.handlers[h].rest == [] {
      SmallChangeKeepsSound(cfg, w, w', socket, received);
    } else {
      var message := w.handlers[h].rest[0];
      var w1 := w.(handlers := w.handlers[h := w.handlers[h].(rest := w.handlers[h].rest[1..])]);
      SmallChangeKeepsSound(cfg, w, w1, socket, received);
      assert HandlerFrom(w, h, socket, received) && message in w.handlers[h].rest;
      match message
      case Request(_, _, _, _, _) =>
        if draining {
          SmallChangeKeepsSound(cfg, w1, w', socket, received);
        } else {
          AcceptKeepsSound(cfg, w1, h, message, socket, received);
        }
      case Ping(id, _) =>
        var pong := Pong(id, clock);
        if Encoded(cfg, pong).Failure? {
          SmallChangeKeepsSound(cfg, w1, w', socket, received);
        } else {
          var w2 := S.WriteMessage(w1, h, pong, Encoded(cfg, pong).value);
          SmallChangeKeepsSound(cfg, w1, w2, socket, received);
          ProceedKeepsSound(cfg, draining, clock, w2, h, socket, received);
        }
      case _ => ProceedKeepsSound(cfg, draining, clock, w1, h, socket, received);
    }
  }

  lemma StartKeepsSound(cfg: CodecConfig, draining: bool, clock: int, w: S.Work, from: nat, messages: seq<RpcMessage>,
                        socket: nat, received: seq<RpcMessage>)
    requires Sound(cfg, w, socket, received)
    requires from == socket ==> forall m <- messages :: m in received
    ensures var w1 := S.StartHandler(cfg, draining, clock, w, from, messages);
            Sound(cfg, w1, socket, received) && w.writes <= w1.writes
  {
    var w1 := w.(handlers := w.handlers + [S.Handler(from, messages, S.Ended)]);
    forall x <- w1.writes
      ensures WriteSound(cfg, w1, x)
    {
      assert WriteSound(cfg, w, x);
      if x.message.Response? && x.message.ok {
        var r :| 0 <= r < |w.requests| && Produced(w, r, x);
        assert Produced(w1, r, x);
      }
    }
    forall h | 0 <= h < |w1.handlers|
      ensures HandlerFrom(w1, h, socket, received)
    {
      assert h < |w.handlers| ==> HandlerFrom(w, h, socket, received);
    }
    forall r | 0 <= r < |w1.requests|
      ensures RequestFrom(w1, r, socket, received)
    {
      assert RequestFrom(w, r, socket, received);
    }
    ProceedKeepsSound(cfg, draining, clock, w1, |w.handlers|, socket, received);
  }

  lemma InvokeReturnsKeepsSound(cfg: CodecConfig, w: S.Work, h: nat, outcome: S.MethodOutcome, socket: nat,
                                received: seq<RpcMessage>)
    requires WorkOk(w) && Sound(cfg, w, socket, received) && S.CanReturn(w, h)
    ensures var w1 := S.InvokeReturns(cfg, w, h, outcome);
            Sound(cfg, w1, socket, received) && w.writes <= w1.writes
  {
    var r := w.handlers[h].phase.request;
    var w1 := S.InvokeReturns(cfg, w, h, outcome);
    assert HandlerHolds(w, h) && RequestSound(w.requests[r]);
    var response := S.InvokeResponse(w.requests[r].request, outcome);
    if Encoded(cfg, response).Success? {
      var x := S.SocketWrite(w.handlers[h].socket, response, Encoded(cfg, response).value);
      assert w1.writes[|w.writes|..] == [x];
      assert Produced(w1, r, x);
      assert WriteSound(cfg, w1, x);
    }
    SmallChangeKeepsSound(cfg, w, w1, socket, received);
  }

  lemma WriteEndsKeepsSound(cfg: CodecConfig, draining: bool, clock: int, w: S.Work, h: nat, ok: bool, socket: nat,
                            received: seq<RpcMessage>)
    requires Sound(cfg, w, socket, received) && S.CanEndWrite(w, h)
    ensures var w1 := S.WriteEnds(cfg, draining, clock, w, h, ok);
            Sound(cfg, w1, socket, received) && w.writes <= w1.writes
  {
    var w1 := if w.handlers[h].phase.AwaitingRejection? then w
              else S.FinishRequest(w, w.handlers[h].phase.request, if ok then S.Answered else S.WriteFailed);
    if ok {
      var w2 := w1.(handlers := w1.handlers[h := w1.handlers[h].(phase := S.Ended)]);
      SmallChangeKeepsSound(cfg, w, w2, socket, received);
      ProceedKeepsSound(cfg, draining, clock, w2, h, socket, received);
    } else {
      SmallChangeKeepsSound(cfg, w, S.FailHandler(w1, h), socket, received);
    }
  }

  lemma ServerStepKeepsSound(cfg: CodecConfig, s: S.Srv, e: S.Event, socket: nat, received: seq<RpcMessage>)
    requires WorkOk(s.work) && Sound(cfg, s.work, socket, received)
    requires e.DataReceived? && e.socket == socket ==> forall m <- e.messages :: m in received
    ensures var s1 := S.Step(cfg, s, e);
            WorkOk(s1.work) && Sound(cfg, s1.work, socket, received) && s.work.writes <= s1.work.writes
  {
    StepKeepsWorkOk(cfg, s, e);
    match e
    case DataReceived(from, messages) =>
      StartKeepsSound(cfg, S.IsDraining(s), s.clock, s.work, from, messages, socket, received);
    case MethodSettles(h, outcome) =>
      if S.CanReturn(s.work, h) {
        InvokeReturnsKeepsSound(cfg, s.work, h, outcome, socket, received);
      }
    case WriteSettles(h, ok) =>
      if S.CanEndWrite(s.work, h) {
        WriteEndsKeepsSound(cfg, S.IsDraining(s), s.clock, s.work, h, ok, socket, received);
      }
    case _ => SmallChangeKeepsSound(cfg, s.work, S.Step(cfg, s, e).work, socket, received);
  }

  lemma MoreReceivedKeepsSound(cfg: CodecConfig, w: S.Work, socket: nat, received: seq<RpcMessage>, more: seq<RpcMessage>)
    requires Sound(cfg, w, socket, received)
    ensures Sound(cfg, w, socket, received + more)
  {
    forall h | 0 <= h < |w.handlers|
      ensures HandlerFrom(w, h, socket, received + more)
    {
      assert HandlerFrom(w, h, socket, received);
    }
    forall r | 0 <= r < |w.requests|
      ensures RequestFrom(w, r, socket, received + more)
    {
      assert RequestFrom(w, r, socket, received);
    }
  }
}
