/**
 * Calls that send one request again and again (packages/core/src/client/rpc-client.ts), many at once, over the connections
 * of a client. A call waits for the promise of its send before it goes on, so no send ever finds its id pending.
 */
module Retries {
  import opened Common
  import opened Messages
  import C = Connection
  import P = ConnectionProofs

  /** A call's loop is between two attempts, waits for the promise of a send, or has ended. */
  datatype Phase = Ready | AwaitingSend(connection: nat, send: nat) | Ended

  datatype Call = Call(id: string, phase: Phase)

  /** The client's connections, the events of each of them so far, and all calls ever made. */
  datatype Client = Client(connections: seq<C.Conn>, histories: seq<seq<C.Event>>, calls: seq<Call>)

  datatype Step =
    | CallStarts(id: string)
    | CallSends(call: nat, connection: nat, payload: Bytes)
    | SendSettles(call: nat)
    | CallEnds(call: nat)
    | Happens(connection: nat, event: C.Event)

  /** `randomUUID` gives every call an id of its own. */
  predicate UnusedId(w: Client, id: string) {
    forall call <- w.calls :: call.id != id
  }

  function Occurs(o: C.ConnectionOptions, w: Client, k: nat, event: C.Event): Client
    requires k < |w.connections| && k < |w.histories|
  {
    w.(connections := w.connections[k := C.Step(o, w.connections[k], event)],
       histories := w.histories[k := w.histories[k] + [event]])
  }

  function SetPhase(w: Client, j: nat, phase: Phase): Client
    requires j < |w.calls|
  {
    w.(calls := w.calls[j := w.calls[j].(phase := phase)])
  }

  /** One attempt's `send`: a refused one rejects at once, and the loop decides again. */
  function Send(o: C.ConnectionOptions, w: Client, j: nat, k: nat, payload: Bytes): Client
    requires j < |w.calls| && k < |w.connections| && k < |w.histories|
  {
    var sent := Occurs(o, w, k, C.SendRequested(w.calls[j].id, payload));
    if C.SendAccepted(w.connections[k]) then SetPhase(sent, j, AwaitingSend(k, |w.connections[k].book.sends|)) else sent
  }

  predicate HasSettled(w: Client, phase: Phase) {
    && phase.AwaitingSend? && phase.connection < |w.connections|
    && phase.send < |w.connections[phase.connection].book.sends|
    && w.connections[phase.connection].book.sends[phase.send].settlements != []
  }

  /** A step that cannot be taken changes nothing; only calls send. */
  function Apply(o: C.ConnectionOptions, w: Client, step: Step): Client {
    match step
    case CallStarts(id) => if UnusedId(w, id) then w.(calls := w.calls + [Call(id, Ready)]) else w
    case CallSends(j, k, payload) =>
      if j < |w.calls| && w.calls[j].phase == Ready && k < |w.connections| && k < |w.histories|
      then Send(o, w, j, k, payload)
      else w
    case SendSettles(j) => if j < |w.calls| && HasSettled(w, w.calls[j].phase) then SetPhase(w, j, Ready) else w
    case CallEnds(j) => if j < |w.calls| && w.calls[j].phase == Ready then SetPhase(w, j, Ended) else w
    case Happens(k, event) =>
      if k < |w.connections| && k < |w.histories| && !event.SendRequested? then Occurs(o, w, k, event) else w
  }

  function After(o: C.ConnectionOptions, now: int, count: nat, steps: seq<Step>): Client {
    if steps == [] then Client(seq(count, _ => C.Initial(now)), seq(count, _ => []), [])
    else Apply(o, After(o, now, count, steps[..|steps| - 1]), steps[|steps| - 1])
  }

  // ----- the invariant -----

  predicate UniqueIds(calls: seq<Call>) {
    forall i, j | 0 <= i < |calls| && 0 <= j < |calls| && calls[i].id == calls[j].id :: i == j
  }

  /** The entry of `id` belongs to a call that waits for exactly that send. */
  predicate Owned(calls: seq<Call>, k: nat, id: string, send: nat) {
    exists j | 0 <= j < |calls| :: calls[j] == Call(id, AwaitingSend(k, send))
  }

  ghost predicate AllOwned(calls: seq<Call>, k: nat, pending: map<string, nat>) {
    forall id <- pending :: Owned(calls, k, id, pending[id])
  }

  ghost predicate ConnectionOk(o: C.ConnectionOptions, now: int, w: Client, k: nat)
    requires k < |w.connections| && k < |w.histories|
  {
    && w.connections[k] == C.Run(o, C.Initial(now), w.histories[k])
    && P.FreshIds(o, C.Initial(now), w.histories[k])
    && P.SettledOnce(w.connections[k].book)
    && AllOwned(w.calls, k, w.connections[k].book.pending)
  }

  ghost predicate ClientOk(o: C.ConnectionOptions, now: int, w: Client) {
    && |w.histories| == |w.connections|
    && UniqueIds(w.calls)
    && forall k | 0 <= k < |w.connections| :: ConnectionOk(o, now, w, k)
  }

  lemma {:induction false} RunOneMore(o: C.ConnectionOptions, c: C.Conn, events: seq<C.Event>, e: C.Event)
    ensures C.Run(o, c, events + [e]) == C.Step(o, C.Run(o, c, events), e)
    ensures P.FreshIds(o, c, events + [e]) <==> P.FreshIds(o, c, events) && P.FreshId(C.Run(o, c, events), e)
    decreases |events|
  {
    if events == [] {
      assert events + [e] == [e] && [e][1..] == [];
    } else {
      assert (events + [e])[1..] == events[1..] + [e];
      RunOneMore(o, C.Step(o, c, events[0]), events[1..], e);
    }
  }

  lemma {:induction false} AnswersOnlyRemove(b: C.Book, messages: seq<RpcMessage>, now: int)
    ensures var d := C.AnswerAll(b, messages, now);
            forall id <- d.pending :: id in b.pending && d.pending[id] == b.pending[id]
    decreases |messages|
  {
    if messages != [] {
      AnswersOnlyRemove(b, messages[..|messages| - 1], now);
    }
  }

  /** Without a send no entry is made. */
  lemma EntriesOnlyGo(o: C.ConnectionOptions, c: C.Conn, e: C.Event)
    requires !e.SendRequested?
    ensures var d := C.Step(o, c, e).book;
            forall id <- d.pending :: id in c.book.pending && d.pending[id] == c.book.pending[id]
  {
    if P.MayDisconnect(e) {
      var reason := P.DisconnectBook(o, c, e);
    } else {
      P.OrdinaryBook(o, c, e);
      if e.DataReceived? {
        AnswersOnlyRemove(c.book, e.messages, c.now);
      }
    }
  }

  /** The owner of an entry waits for a send that has not settled. */
  lemma OwnerWaits(o: C.ConnectionOptions, now: int, w: Client, k: nat, id: string) returns (i: nat)
    requires ClientOk(o, now, w) && k < |w.connections| && id in w.connections[k].book.pending
    ensures i < |w.calls| && w.calls[i].id == id && w.calls[i].phase.AwaitingSend? && !HasSettled(w, w.calls[i].phase)
    ensures forall j | 0 <= j < |w.calls| && w.calls[j].id == id :: j == i
  {
    var book := w.connections[k].book;
    assert ConnectionOk(o, now, w, k);
    assert Owned(w.calls, k, id, book.pending[id]);
    i :| 0 <= i < |w.calls| && w.calls[i] == Call(id, AwaitingSend(k, book.pending[id]));
    assert P.RecordSettledOnce(book, book.pending[id]) && C.IsPending(book, book.pending[id]);
  }

  /** A call that is not waiting, or whose send has settled, owns no entry: its id is pending nowhere. */
  lemma FreeId(o: C.ConnectionOptions, now: int, w: Client, j: nat, k: nat)
    requires ClientOk(o, now, w) && j < |w.calls| && k < |w.connections|
    requires !w.calls[j].phase.AwaitingSend? || HasSettled(w, w.calls[j].phase)
    ensures w.calls[j].id !in w.connections[k].book.pending
  {
    if w.calls[j].id in w.connections[k].book.pending {
      var i := OwnerWaits(o, now, w, k, w.calls[j].id);
    }
  }

  /** The heart of it: the loop's next send with its id finds the id free. */
  lemma EverySendIsFresh(o: C.ConnectionOptions, now: int, w: Client, j: nat, k: nat, payload: Bytes)
    requires ClientOk(o, now, w) && j < |w.calls| && w.calls[j].phase == Ready && k < |w.connections|
    ensures P.FreshId(w.connections[k], C.SendRequested(w.calls[j].id, payload))
  {
    FreeId(o, now, w, j, k);
  }

  /** A fresh event on one connection, with all that it makes pending owned, leaves every connection in order. */
  lemma OccursKeepsOk(o: C.ConnectionOptions, now: int, w: Client, k: nat, event: C.Event, calls: seq<Call>)
    requires ClientOk(o, now, w) && k < |w.connections| && P.FreshId(w.connections[k], event) && UniqueIds(calls)
    requires AllOwned(calls, k, C.Step(o, w.connections[k], event).book.pending)
    requires forall i | 0 <= i < |w.connections| && i != k :: AllOwned(calls, i, w.connections[i].book.pending)
    ensures ClientOk(o, now, Occurs(o, w, k, event).(calls := calls))
  {
    var d := Occurs(o, w, k, event).(calls := calls);
    forall i | 0 <= i < |d.connections|
      ensures ConnectionOk(o, now, d, i)
    {
      assert ConnectionOk(o, now, w, i);
      if i == k {
        RunOneMore(o, C.Initial(now), w.histories[k], event);
        P.StepKeepsSettledOnce(o, w.connections[k], event);
      }
    }
  }

  lemma SameConnectionsOk(o: C.ConnectionOptions, now: int, w: Client, calls: seq<Call>)
    requires ClientOk(o, now, w) && UniqueIds(calls)
    requires forall k | 0 <= k < |w.connections| :: AllOwned(calls, k, w.connections[k].book.pending)
    ensures ClientOk(o, now, w.(calls := calls))
  {
    var d := w.(calls := calls);
    forall k | 0 <= k < |d.connections|
      ensures ConnectionOk(o, now, d, k)
    {
      assert ConnectionOk(o, now, w, k);
    }
  }

  /** Entries that the call did not own stay owned when its phase changes. */
  lemma OthersStayOwned(calls: seq<Call>, j: nat, phase: Phase, k: nat, pending: map<string, nat>)
    requires j < |calls| && AllOwned(calls, k, pending) && calls[j].id !in pending
    ensures AllOwned(calls[j := calls[j].(phase := phase)], k, pending)
  {
    var after := calls[j := calls[j].(phase := phase)];
    forall id <- pending
      ensures Owned(after, k, id, pending[id])
    {
      assert Owned(calls, k, id, pending[id]);
      var i :| 0 <= i < |calls| && calls[i] == Call(id, AwaitingSend(k, pending[id]));
      assert after[i] == calls[i];
    }
  }

  lemma PhaseKeepsUnique(calls: seq<Call>, j: nat, phase: Phase)
    requires j < |calls| && UniqueIds(calls)
    ensures UniqueIds(calls[j := calls[j].(phase := phase)])
  {
    var after := calls[j := calls[j].(phase := phase)];
    assert forall i | 0 <= i < |calls| :: after[i].id == calls[i].id;
  }

  lemma PhaseKeepsOk(o: C.ConnectionOptions, now: int, w: Client, j: nat, phase: Phase)
    requires ClientOk(o, now, w) && j < |w.calls|
    requires forall k | 0 <= k < |w.connections| :: w.calls[j].id !in w.connections[k].book.pending
    ensures ClientOk(o, now, SetPhase(w, j, phase))
  {
    PhaseKeepsUnique(w.calls, j, phase);
    forall k | 0 <= k < |w.connections|
      ensures AllOwned(SetPhase(w, j, phase).calls, k, w.connections[k].book.pending)
    {
      assert ConnectionOk(o, now, w, k);
      OthersStayOwned(w.calls, j, phase, k, w.connections[k].book.pending);
    }
    SameConnectionsOk(o, now, w, SetPhase(w, j, phase).calls);
  }

  lemma SendKeepsOk(o: C.ConnectionOptions, now: int, w: Client, j: nat, k: nat, payload: Bytes)
    requires ClientOk(o, now, w) && j < |w.calls| && w.calls[j].phase == Ready && k < |w.connections|
    ensures ClientOk(o, now, Send(o, w, j, k, payload))
  {
    var event := C.SendRequested(w.calls[j].id, payload);
    var calls := Send(o, w, j, k, payload).calls;
    EverySendIsFresh(o, now, w, j, k, payload);
    assert ConnectionOk(o, now, w, k);
    forall i | 0 <= i < |w.connections|
      ensures AllOwned(calls, i, w.connections[i].book.pending)
    {
      assert ConnectionOk(o, now, w, i);
      FreeId(o, now, w, j, i);
      if C.SendAccepted(w.connections[k]) {
        OthersStayOwned(w.calls, j, AwaitingSend(k, |w.connections[k].book.sends|), i, w.connections[i].book.pending);
      }
    }
    if C.SendAccepted(w.connections[k]) {
      PhaseKeepsUnique(w.calls, j, AwaitingSend(k, |w.connections[k].book.sends|));
      NewEntryIsOwned(o, w, j, k, payload);
    }
    OccursKeepsOk(o, now, w, k, event, calls);
  }

  lemma NewEntryIsOwned(o: C.ConnectionOptions, w: Client, j: nat, k: nat, payload: Bytes)
    requires j < |w.calls| && k < |w.connections| && k < |w.histories| && C.SendAccepted(w.connections[k])
    requires AllOwned(Send(o, w, j, k, payload).calls, k, w.connections[k].book.pending)
    ensures AllOwned(Send(o, w, j, k, payload).calls, k,
                     C.Step(o, w.connections[k], C.SendRequested(w.calls[j].id, payload)).book.pending)
  {
    var before := w.connections[k].book;
    var after := C.Step(o, w.connections[k], C.SendRequested(w.calls[j].id, payload)).book;
    var calls := Send(o, w, j, k, payload).calls;
    assert after.pending == before.pending[w.calls[j].id := |before.sends|];
    assert calls[j] == Call(w.calls[j].id, AwaitingSend(k, |before.sends|));
    forall id <- after.pending
      ensures Owned(calls, k, id, after.pending[id])
    {
      if id != w.calls[j].id {
        assert Owned(calls, k, id, before.pending[id]);
      }
    }
  }

  lemma HappensKeepsOk(o: C.ConnectionOptions, now: int, w: Client, k: nat, event: C.Event)
    requires ClientOk(o, now, w) && k < |w.connections| && !event.SendRequested?
    ensures ClientOk(o, now, Occurs(o, w, k, event))
  {
    forall i | 0 <= i < |w.connections|
      ensures AllOwned(w.calls, i, w.connections[i].book.pending)
    {
      assert ConnectionOk(o, now, w, i);
    }
    EntriesOnlyGo(o, w.connections[k], event);
    var before, after := w.connections[k].book, C.Step(o, w.connections[k], event).book;
    forall id <- after.pending
      ensures Owned(w.calls, k, id, after.pending[id])
    {
      assert Owned(w.calls, k, id, before.pending[id]);
    }
    OccursKeepsOk(o, now, w, k, event, w.calls);
  }

  lemma StartKeepsOk(o: C.ConnectionOptions, now: int, w: Client, id: string)
    requires ClientOk(o, now, w) && UnusedId(w, id)
    ensures ClientOk(o, now, w.(calls := w.calls + [Call(id, Ready)]))
  {
    var calls := w.calls + [Call(id, Ready)];
    assert forall i | 0 <= i < |w.calls| :: w.calls[i] in w.calls && calls[i] == w.calls[i];
    forall k | 0 <= k < |w.connections|
      ensures AllOwned(calls, k, w.connections[k].book.pending)
    {
      assert ConnectionOk(o, now, w, k);
      var pending := w.connections[k].book.pending;
      forall key <- pending
        ensures Owned(calls, k, key, pending[key])
      {
        assert Owned(w.calls, k, key, pending[key]);
        var i :| 0 <= i < |w.calls| && w.calls[i] == Call(key, AwaitingSend(k, pending[key]));
        assert calls[i] == w.calls[i];
      }
    }
    SameConnectionsOk(o, now, w, calls);
  }

  lemma StepKeepsClientOk(o: C.ConnectionOptions, now: int, w: Client, step: Step)
    requires ClientOk(o, now, w)
    ensures ClientOk(o, now, Apply(o, w, step))
  {
    match step {
      case CallStarts(id) =>
        if UnusedId(w, id) {
          StartKeepsOk(o, now, w, id);
        }
      case CallSends(j, k, payload) =>
        if j < |w.calls| && w.calls[j].phase == Ready && k < |w.connections| {
          SendKeepsOk(o, now, w, j, k, payload);
        }
      case SendSettles(j) =>
        if j < |w.calls| && HasSettled(w, w.calls[j].phase) {
          forall k | 0 <= k < |w.connections| ensures w.calls[j].id !in w.connections[k].book.pending {
            FreeId(o, now, w, j, k);
          }
          PhaseKeepsOk(o, now, w, j, Ready);
        }
      case CallEnds(j) =>
        if j < |w.calls| && w.calls[j].phase == Ready {
          forall k | 0 <= k < |w.connections| ensures w.calls[j].id !in w.connections[k].book.pending {
            FreeId(o, now, w, j, k);
          }
          PhaseKeepsOk(o, now, w, j, Ended);
        }
      case Happens(k, event) =>
        if k < |w.connections| && !event.SendRequested? {
          HappensKeepsOk(o, now, w, k, event);
        }
    }
  }

  /**
   * In every run, whatever the calls do and however they overlap, the events of each connection keep the promise about
   * ids that exactly-once settlement asks for; so on every connection every send is settled once, also those of retries.
   */
  lemma {:induction false} RetriesKeepIdsFresh(o: C.ConnectionOptions, now: int, count: nat, steps: seq<Step>)
    ensures ClientOk(o, now, After(o, now, count, steps))
    decreases |steps|
  {
    if steps == [] {
      var w := After(o, now, count, steps);
      forall k | 0 <= k < |w.connections|
        ensures ConnectionOk(o, now, w, k)
      {
      }
    } else {
      RetriesKeepIdsFresh(o, now, count, steps[..|steps| - 1]);
      StepKeepsClientOk(o, now, After(o, now, count, steps[..|steps| - 1]), steps[|steps| - 1]);
    }
  }

  /** A call that waits is settled in time: its send's deadline holds on its connection, if due timers fire first. */
  lemma RetriesSettleInTime(o: C.ConnectionOptions, now: int, count: nat, steps: seq<Step>, k: nat)
    requires k < |After(o, now, count, steps).connections|
    requires k < |After(o, now, count, steps).histories|
             && P.DueTimersFireFirst(o, C.Initial(now), After(o, now, count, steps).histories[k])
    ensures var c := After(o, now, count, steps).connections[k];
            && P.SettledOnce(c.book)
            && forall p | 0 <= p < |c.book.sends| && c.now > c.book.sends[p].sentAt + o.timeoutMs ::
                 |c.book.sends[p].settlements| == 1
  {
    RetriesKeepIdsFresh(o, now, count, steps);
    var w := After(o, now, count, steps);
    assert ConnectionOk(o, now, w, k);
    P.EverySendSettledInTime(o, C.Initial(now), w.histories[k]);
  }
}
