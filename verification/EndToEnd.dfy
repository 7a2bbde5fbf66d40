/**
 * One client connection, one server and the two byte streams between them, for the lifetime of one socket. Whatever the
 * fragmentation, the order in which handlers finish and the timing of timers and disconnects, an answer goes to the
 * request it belongs to.
 */
module EndToEnd {
  import opened Common
  import opened Messages
  import opened Errors
  import opened Codec
  import opened PeerStreams
  import opened Provenance
  import C = Connection
  import P = ConnectionProofs
  import S = Server
  import L = ConnectionLaws
  import R = ServerResponses
  import opened ServerProofs

  /**
   * `requested` and `upPackets` list the messages that the client has written on this socket and their packets, in order;
   * `sentAs` says for each of its sends which of them it wrote; `upRead` and `downRead` say how much of each stream has
   * been delivered.
   */
  datatype Net = Net(
    client: C.Conn,
    server: S.Srv,
    requested: seq<RpcMessage>,
    upPackets: seq<Bytes>,
    sentAs: seq<nat>,
    upRead: nat,
    downRead: nat,
    serverQueue: Bytes,
    clientQueue: Bytes)

  /** What stays as it is: the server's number for the socket, and how many sends the client had made on earlier ones. */
  datatype Peers = Peers(
    options: C.ConnectionOptions,
    clientCfg: CodecConfig,
    serverCfg: CodecConfig,
    socket: nat,
    firstSend: nat)

  /** The packets written on one socket of the server, and the messages in them. */
  function WrittenOn(writes: seq<S.SocketWrite>, socket: nat): seq<S.SocketWrite> {
    if writes == [] then [] else
    var last := writes[|writes| - 1];
    WrittenOn(writes[..|writes| - 1], socket) + if last.socket == socket then [last] else []
  }

  function Packets(writes: seq<S.SocketWrite>): (packets: seq<Bytes>)
    ensures |packets| == |writes| && forall i | 0 <= i < |writes| :: packets[i] == writes[i].packet
  {
    seq(|writes|, i requires 0 <= i < |writes| => writes[i].packet)
  }

  function MessagesOf(writes: seq<S.SocketWrite>): (messages: seq<RpcMessage>)
    ensures |messages| == |writes| && forall i | 0 <= i < |writes| :: messages[i] == writes[i].message
  {
    seq(|writes|, i requires 0 <= i < |writes| => writes[i].message)
  }

  function DownWrites(p: Peers, n: Net): seq<S.SocketWrite> {
    WrittenOn(n.server.work.writes, p.socket)
  }

  function DownPackets(p: Peers, n: Net): seq<Bytes> {
    Packets(DownWrites(p, n))
  }

  /** The client's messages as the server's codec takes them, and the server's as the client's codec does. */
  function Received(p: Peers, n: Net): seq<RpcMessage> {
    Arrivals(p.clientCfg, p.serverCfg, n.requested)
  }

  function Answers(p: Peers, n: Net): seq<RpcMessage> {
    Arrivals(p.serverCfg, p.clientCfg, MessagesOf(DownWrites(p, n)))
  }

  // ----- steps -----

  /** `ServerReceives` and `ClientReceives` say what a codec's queue holds when it has taken the next bytes, however many. */
  datatype NetEvent =
    | ClientCalls(request: RpcMessage)
    | ClientPings(timer: nat, id: string)
    | ClientEvent(clientEvent: C.Event)
    | ServerEvent(serverEvent: S.Event)
    | ServerReceives(queue: Bytes)
    | ClientReceives(queue: Bytes)

  /** Events of the client that neither send, nor receive, nor open another socket. */
  predicate WithinSocket(p: Peers, n: Net, e: C.Event) {
    && !e.SendRequested? && !e.DataReceived? && !e.HeartbeatFires?
    && C.Step(p.options, n.client, e).link.sockets == n.client.link.sockets
  }

  /** Events of the server other than data on this connection's socket; other sockets' data is included. */
  predicate OtherTraffic(p: Peers, e: S.Event) {
    (e.DataReceived? || e.DataInvalid?) ==> e.socket != p.socket
  }

  /** The client is asked to write a message; whether it has shows in its list of writes. */
  function ClientSends(p: Peers, n: Net, e: C.Event, message: RpcMessage): Net {
    var client := C.Step(p.options, n.client, e);
    var wrote := |client.writes| > |n.client.writes|;
    n.(client := client,
       requested := if wrote then n.requested + [message] else n.requested,
       upPackets := if wrote then n.upPackets + [client.writes[|n.client.writes|].payload] else n.upPackets,
       sentAs := if |client.book.sends| > |n.client.book.sends| then n.sentAs + [|n.requested|] else n.sentAs)
  }

  function Step(p: Peers, n: Net, e: NetEvent): Net {
    match e
    case ClientCalls(request) =>
      (match Encoded(p.clientCfg, request)
       case Failure(_) => n
       case Success(payload) =>
         if request.Request? then ClientSends(p, n, C.SendRequested(request.id, payload), request) else n)
    case ClientPings(timer, id) =>
      var ping := Ping(id, n.client.now);
      var payload := Encoded(p.clientCfg, ping);
      ClientSends(p, n, C.HeartbeatFires(timer, if payload.Success? then Some(payload.value) else None), ping)
    case ClientEvent(event) =>
      if WithinSocket(p, n, event) then n.(client := C.Step(p.options, n.client, event)) else n
    case ServerEvent(event) =>
      if OtherTraffic(p, event) then n.(server := S.Step(p.serverCfg, n.server, event)) else n
    case ServerReceives(queue) =>
      if Pushed(n.upPackets, n.upRead, n.serverQueue, queue) then ServerReceive(p, n, queue) else n
    case ClientReceives(queue) =>
      if Pushed(DownPackets(p, n), n.downRead, n.clientQueue, queue) then ClientReceive(p, n, queue) else n
  }

  /** The server's codec for this socket has taken the next bytes from the client into `queue`, and decodes what it can. */
  function ServerReceive(p: Peers, n: Net, queue: Bytes): Net {
    ServerDrains(p, ServerQueues(n, queue, ReadAfter(n.upRead, n.serverQueue, queue)))
  }

  function ServerQueues(n: Net, queue: Bytes, read: nat): Net {
    n.(serverQueue := queue, upRead := read)
  }

  function ServerDrains(p: Peers, n: Net): Net {
    ServerTakes(p, n, Drain(p.serverCfg, n.serverQueue))
  }

  function ServerTakes(p: Peers, n: Net, outcome: PushOutcome): Net {
    ServerHandles(p, n, if outcome.Returned? then S.DataReceived(p.socket, outcome.messages) else S.DataInvalid(p.socket),
                  outcome.rest)
  }

  function ServerHandles(p: Peers, n: Net, event: S.Event, queue: Bytes): Net {
    n.(server := S.Step(p.serverCfg, n.server, event), serverQueue := queue)
  }

  /** Likewise on the client's side, where an exception changes nothing else. */
  function ClientReceive(p: Peers, n: Net, queue: Bytes): Net {
    ClientDrains(p, ClientQueues(n, queue, ReadAfter(n.downRead, n.clientQueue, queue)))
  }

  function ClientQueues(n: Net, queue: Bytes, read: nat): Net {
    n.(clientQueue := queue, downRead := read)
  }

  function ClientDrains(p: Peers, n: Net): Net {
    ClientTakes(p, n, Drain(p.clientCfg, n.clientQueue))
  }

  function ClientTakes(p: Peers, n: Net, outcome: PushOutcome): Net {
    n.(client := if outcome.Returned? then C.Step(p.options, n.client, C.DataReceived(outcome.messages)) else n.client,
       clientQueue := outcome.rest)
  }

  function Run(p: Peers, n: Net, events: seq<NetEvent>): Net
    decreases |events|
  {
    if events == [] then n else Run(p, Step(p, n, events[0]), events[1..])
  }

  // ----- the invariant -----

  /** What the client has written is the encoding of what it was asked to send. */
  ghost predicate UpOk(p: Peers, n: Net) {
    && |n.requested| == |n.upPackets|
    && (forall i | 0 <= i < |n.requested| :: Encoded(p.clientCfg, n.requested[i]) == Success(n.upPackets[i]))
    && Aligned(n.upPackets, n.upRead, n.serverQueue)
  }

  /** Send number q of this socket wrote the request that `sentAs` names. */
  predicate SentAs(p: Peers, n: Net, q: nat)
    requires q < |n.sentAs| && p.firstSend + q < |n.client.book.sends|
  {
    && n.sentAs[q] < |n.requested| && n.requested[n.sentAs[q]].Request?
    && n.requested[n.sentAs[q]].id == n.client.book.sends[p.firstSend + q].id
  }

  ghost predicate SendsOk(p: Peers, n: Net) {
    && |n.client.book.sends| == p.firstSend + |n.sentAs|
    && forall q | 0 <= q < |n.sentAs| :: SentAs(p, n, q)
  }

  ghost predicate ClientOk(p: Peers, n: Net) {
    && C.EntriesOk(n.client.book)
    && Justified(n.client.book, p.firstSend, Answers(p, n))
    && SendsOk(p, n)
  }

  ghost predicate NetOk(p: Peers, n: Net) {
    && UpOk(p, n)
    && Aligned(DownPackets(p, n), n.downRead, n.clientQueue)
    && ClientOk(p, n)
    && WorkOk(n.server.work)
    && Sound(p.serverCfg, n.server.work, p.socket, Received(p, n))
  }

  lemma UpArrives(p: Peers, n: Net)
    requires UpOk(p, n)
    ensures AllHonest(p.serverCfg, n.upPackets, Received(p, n))
  {
    forall i | 0 <= i < |n.requested|
      ensures Honest(p.serverCfg, n.upPackets[i], Received(p, n)[i])
    {
      EncodedArrives(p.clientCfg, p.serverCfg, n.requested[i]);
    }
  }

  lemma {:induction false} WrittenOnAreWrites(writes: seq<S.SocketWrite>, socket: nat)
    ensures forall x <- WrittenOn(writes, socket) :: x in writes && x.socket == socket
    decreases |writes|
  {
    if writes != [] {
      WrittenOnAreWrites(writes[..|writes| - 1], socket);
    }
  }

  lemma DownArrives(p: Peers, n: Net)
    requires Sound(p.serverCfg, n.server.work, p.socket, Received(p, n))
    ensures AllHonest(p.clientCfg, DownPackets(p, n), Answers(p, n))
  {
    var xs := DownWrites(p, n);
    WrittenOnAreWrites(n.server.work.writes, p.socket);
    forall i | 0 <= i < |xs|
      ensures Honest(p.clientCfg, DownPackets(p, n)[i], Answers(p, n)[i])
    {
      assert xs[i] in xs;
      assert WriteSound(p.serverCfg, n.server.work, xs[i]);
      EncodedArrives(p.serverCfg, p.clientCfg, xs[i].message);
    }
  }

  lemma {:induction false} WrittenOnGrows(a: seq<S.SocketWrite>, b: seq<S.SocketWrite>, socket: nat)
    requires a <= b
    ensures WrittenOn(a, socket) <= WrittenOn(b, socket)
    decreases |b|
  {
    if |a| < |b| {
      WrittenOnGrows(a, b[..|b| - 1], socket);
    } else {
      assert a == b;
    }
  }

  /** The server writes more: packets and answers grow at the end. */
  lemma DownGrows(p: Peers, n: Net, n1: Net) returns (packets: seq<Bytes>, answers: seq<RpcMessage>)
    requires n.server.work.writes <= n1.server.work.writes
    ensures DownPackets(p, n1) == DownPackets(p, n) + packets
    ensures Answers(p, n1) == Answers(p, n) + answers
  {
    WrittenOnGrows(n.server.work.writes, n1.server.work.writes, p.socket);
    var before, after := DownWrites(p, n), DownWrites(p, n1);
    var more := after[|before|..];
    assert after == before + more;
    packets := Packets(more);
    answers := Arrivals(p.serverCfg, p.clientCfg, MessagesOf(more));
    assert MessagesOf(after) == MessagesOf(before) + MessagesOf(more);
    ArrivalsAppend(p.serverCfg, p.clientCfg, MessagesOf(before), MessagesOf(more));
  }

  lemma SameSendsOk(p: Peers, n: Net, n1: Net)
    requires SendsOk(p, n) && n1.requested == n.requested && n1.sentAs == n.sentAs && n1.client == n.client
    ensures SendsOk(p, n1)
  {
    forall q | 0 <= q < |n1.sentAs|
      ensures SentAs(p, n1, q)
    {
      assert SentAs(p, n, q);
    }
  }

  lemma ServerWritesKeepDown(p: Peers, n: Net, n1: Net)
    requires n1.downRead == n.downRead && n1.clientQueue == n.clientQueue && n1.client == n.client
    requires n1.requested == n.requested && n1.sentAs == n.sentAs && n.server.work.writes <= n1.server.work.writes
    requires Aligned(DownPackets(p, n), n.downRead, n.clientQueue) && ClientOk(p, n)
    ensures Aligned(DownPackets(p, n1), n1.downRead, n1.clientQueue) && ClientOk(p, n1)
  {
    var packets, answers := DownGrows(p, n, n1);
    SendKeepsAligned(DownPackets(p, n), packets, n.downRead, n.clientQueue);
    MoreAnswersKeepJustified(n.client.book, p.firstSend, Answers(p, n), answers);
    SameSendsOk(p, n, n1);
  }

  // ----- the client's steps -----

  /** Only `send` and the heartbeat write, and a send writes exactly when it makes a record. */
  lemma StepWrites(o: C.ConnectionOptions, c: C.Conn, e: C.Event)
    ensures var d := C.Step(o, c, e);
            || d.writes == c.writes
            || (e.SendRequested? && c.link.socket.Some?
                && d.writes == c.writes + [C.SocketWrite(c.link.socket.value, e.payload)])
            || (e.HeartbeatFires? && e.ping.Some? && c.link.socket.Some?
                && d.writes == c.writes + [C.SocketWrite(c.link.socket.value, e.ping.value)])
    ensures e.SendRequested? ==> (C.Step(o, c, e).writes == c.writes <==> !C.SendAccepted(c))
  {
  }

  /** The event writes at most one packet, which encodes the message, and a send is a request with its id. */
  predicate WritesMessage(p: Peers, n: Net, e: C.Event, message: RpcMessage) {
    && !e.DataReceived?
    && (e.SendRequested? ==> message.Request? && message.id == e.id)
    && var writes := C.Step(p.options, n.client, e).writes;
       writes == n.client.writes
       || (&& |writes| == |n.client.writes| + 1 && n.client.writes <= writes
           && Encoded(p.clientCfg, message) == Success(writes[|n.client.writes|].payload))
  }

  lemma SendKeepsUpOk(p: Peers, n: Net, e: C.Event, message: RpcMessage)
    requires UpOk(p, n) && WritesMessage(p, n, e, message)
    ensures UpOk(p, ClientSends(p, n, e, message))
  {
    var n1 := ClientSends(p, n, e, message);
    if |n1.client.writes| > |n.client.writes| {
      SendKeepsAligned(n.upPackets, [n1.client.writes[|n.client.writes|].payload], n.upRead, n.serverQueue);
    }
  }

  lemma SendKeepsClientOk(p: Peers, n: Net, e: C.Event, message: RpcMessage)
    requires ClientOk(p, n) && WritesMessage(p, n, e, message)
    ensures ClientOk(p, ClientSends(p, n, e, message))
  {
    var n1 := ClientSends(p, n, e, message);
    ClientStepKeepsJustified(p.options, n.client, e, p.firstSend, Answers(p, n));
    StepKeepsIds(p.options, n.client, e);
    StepWrites(p.options, n.client, e);
    forall q | 0 <= q < |n1.sentAs|
      ensures SentAs(p, n1, q)
    {
      if q < |n.sentAs| {
        assert SentAs(p, n, q);
      }
    }
  }

  lemma SendKeepsOk(p: Peers, n: Net, e: C.Event, message: RpcMessage)
    requires NetOk(p, n) && WritesMessage(p, n, e, message)
    ensures NetOk(p, ClientSends(p, n, e, message))
  {
    SendKeepsUpOk(p, n, e, message);
    SendKeepsClientOk(p, n, e, message);
    ArrivalsAppend(p.clientCfg, p.serverCfg, n.requested, [message]);
    MoreReceivedKeepsSound(p.serverCfg, n.server.work, p.socket, Received(p, n),
                           Arrivals(p.clientCfg, p.serverCfg, [message]));
  }

  lemma ClientCallsKeepOk(p: Peers, n: Net, request: RpcMessage)
    requires NetOk(p, n)
    ensures NetOk(p, Step(p, n, ClientCalls(request)))
  {
    var payload := Encoded(p.clientCfg, request);
    if payload.Success? && request.Request? {
      StepWrites(p.options, n.client, C.SendRequested(request.id, payload.value));
      SendKeepsOk(p, n, C.SendRequested(request.id, payload.value), request);
    }
  }

  lemma ClientPingsKeepOk(p: Peers, n: Net, timer: nat, id: string)
    requires NetOk(p, n)
    ensures NetOk(p, Step(p, n, ClientPings(timer, id)))
  {
    var payload := Encoded(p.clientCfg, Ping(id, n.client.now));
    var event := C.HeartbeatFires(timer, if payload.Success? then Some(payload.value) else None);
    StepWrites(p.options, n.client, event);
    SendKeepsOk(p, n, event, Ping(id, n.client.now));
  }

  lemma ClientEventKeepsOk(p: Peers, n: Net, event: C.Event)
    requires NetOk(p, n)
    ensures NetOk(p, Step(p, n, ClientEvent(event)))
  {
    if WithinSocket(p, n, event) {
      StepWrites(p.options, n.client, event);
      StepKeepsIds(p.options, n.client, event);
      SendKeepsOk(p, n, event, Ping("", 0));
      assert Step(p, n, ClientEvent(event)) == ClientSends(p, n, event, Ping("", 0));
    }
  }

  // ----- the server's steps -----

  lemma ServerEventKeepsOk(p: Peers, n: Net, event: S.Event)
    requires NetOk(p, n)
    ensures NetOk(p, Step(p, n, ServerEvent(event)))
  {
    if OtherTraffic(p, event) {
      ServerStepKeepsSound(p.serverCfg, n.server, event, p.socket, Received(p, n));
      ServerWritesKeepDown(p, n, Step(p, n, ServerEvent(event)));
    }
  }

  lemma ServerDecodes(p: Peers, n: Net)
    requires UpOk(p, n)
    ensures Fits(n.upPackets, Received(p, n), n.upRead, Drain(p.serverCfg, n.serverQueue))
  {
    UpArrives(p, n);
    DrainKeepsAligned(p.serverCfg, n.upPackets, Received(p, n), n.upRead, n.serverQueue);
  }

  lemma ServerHandlesKeepsOk(p: Peers, n: Net, event: S.Event, queue: Bytes)
    requires NetOk(p, n) && Aligned(n.upPackets, n.upRead, queue)
    requires event.DataReceived? ==> forall m <- event.messages :: m in Received(p, n)
    ensures NetOk(p, ServerHandles(p, n, event, queue))
  {
    ServerStepKeepsSound(p.serverCfg, n.server, event, p.socket, Received(p, n));
    ServerWritesKeepDown(p, n, ServerHandles(p, n, event, queue));
  }

  lemma ServerTakesKeepsOk(p: Peers, n: Net, outcome: PushOutcome)
    requires NetOk(p, n) && Fits(n.upPackets, Received(p, n), n.upRead, outcome)
    ensures NetOk(p, ServerTakes(p, n, outcome))
  {
    var event := if outcome.Returned? then S.DataReceived(p.socket, outcome.messages) else S.DataInvalid(p.socket);
    ServerHandlesKeepsOk(p, n, event, outcome.rest);
  }

  lemma ServerDrainsKeepsOk(p: Peers, n: Net)
    requires NetOk(p, n)
    ensures NetOk(p, ServerDrains(p, n))
  {
    ServerDecodes(p, n);
    ServerTakesKeepsOk(p, n, Drain(p.serverCfg, n.serverQueue));
  }

  lemma ServerQueuesKeepOk(p: Peers, n: Net, queue: Bytes, read: nat)
    requires NetOk(p, n) && Aligned(n.upPackets, read, queue)
    ensures NetOk(p, ServerQueues(n, queue, read))
  {
    SameSendsOk(p, n, ServerQueues(n, queue, read));
  }

  lemma ServerDecodesKeepsOk(p: Peers, n: Net, queue: Bytes, read: nat)
    requires NetOk(p, n) && Aligned(n.upPackets, read, queue)
    ensures NetOk(p, ServerDrains(p, ServerQueues(n, queue, read)))
  {
    ServerQueuesKeepOk(p, n, queue, read);
    ServerDrainsKeepsOk(p, ServerQueues(n, queue, read));
  }

  lemma ServerReceivesKeepsOk(p: Peers, n: Net, queue: Bytes)
    requires NetOk(p, n) && Pushed(n.upPackets, n.upRead, n.serverQueue, queue)
    ensures NetOk(p, ServerReceive(p, n, queue))
  {
    PushKeepsAligned(n.upPackets, n.upRead, n.serverQueue, queue);
    ServerDecodesKeepsOk(p, n, queue, ReadAfter(n.upRead, n.serverQueue, queue));
  }

  // ----- what the client receives -----

  lemma ClientDecodes(p: Peers, n: Net)
    requires Sound(p.serverCfg, n.server.work, p.socket, Received(p, n))
    requires Aligned(DownPackets(p, n), n.downRead, n.clientQueue)
    ensures Fits(DownPackets(p, n), Answers(p, n), n.downRead, Drain(p.clientCfg, n.clientQueue))
  {
    DownArrives(p, n);
    DrainKeepsAligned(p.clientCfg, DownPackets(p, n), Answers(p, n), n.downRead, n.clientQueue);
  }

  lemma AnsweredClientIsOk(p: Peers, n: Net, messages: seq<RpcMessage>)
    requires ClientOk(p, n) && forall m <- messages :: m in Answers(p, n)
    ensures ClientOk(p, n.(client := C.Step(p.options, n.client, C.DataReceived(messages))))
  {
    var n1 := n.(client := C.Step(p.options, n.client, C.DataReceived(messages)));
    ClientStepKeepsJustified(p.options, n.client, C.DataReceived(messages), p.firstSend, Answers(p, n));
    StepKeepsIds(p.options, n.client, C.DataReceived(messages));
    forall q | 0 <= q < |n1.sentAs|
      ensures SentAs(p, n1, q)
    {
      assert SentAs(p, n, q);
    }
  }

  lemma ClientHandlesKeepsOk(p: Peers, n: Net, client: C.Conn, queue: Bytes)
    requires NetOk(p, n) && Aligned(DownPackets(p, n), n.downRead, queue)
    requires client.writes == n.client.writes && ClientOk(p, n.(client := client))
    ensures NetOk(p, n.(client := client, clientQueue := queue))
  {
    var n1 := n.(client := client, clientQueue := queue);
    forall q | 0 <= q < |n1.sentAs|
      ensures SentAs(p, n1, q)
    {
      assert SentAs(p, n.(client := client), q);
    }
  }

  lemma ClientTakesKeepsOk(p: Peers, n: Net, outcome: PushOutcome)
    requires NetOk(p, n) && Fits(DownPackets(p, n), Answers(p, n), n.downRead, outcome)
    ensures NetOk(p, ClientTakes(p, n, outcome))
  {
    if outcome.Returned? {
      var client := C.Step(p.options, n.client, C.DataReceived(outcome.messages));
      AnsweredClientIsOk(p, n, outcome.messages);
      StepWrites(p.options, n.client, C.DataReceived(outcome.messages));
      ClientHandlesKeepsOk(p, n, client, outcome.rest);
    } else {
      assert n.(client := n.client) == n;
      ClientHandlesKeepsOk(p, n, n.client, outcome.rest);
    }
  }

  lemma ClientDrainsKeepsOk(p: Peers, n: Net)
    requires NetOk(p, n)
    ensures NetOk(p, ClientDrains(p, n))
  {
    ClientDecodes(p, n);
    ClientTakesKeepsOk(p, n, Drain(p.clientCfg, n.clientQueue));
  }

  lemma ClientQueuesKeepOk(p: Peers, n: Net, queue: Bytes, read: nat)
    requires NetOk(p, n) && Aligned(DownPackets(p, n), read, queue)
    ensures NetOk(p, ClientQueues(n, queue, read))
  {
    SameSendsOk(p, n, ClientQueues(n, queue, read));
  }

  lemma ClientDecodesKeepsOk(p: Peers, n: Net, queue: Bytes, read: nat)
    requires NetOk(p, n) && Aligned(DownPackets(p, n), read, queue)
    ensures NetOk(p, ClientDrains(p, ClientQueues(n, queue, read)))
  {
    ClientQueuesKeepOk(p, n, queue, read);
    ClientDrainsKeepsOk(p, ClientQueues(n, queue, read));
  }

  lemma ClientReceivesKeepsOk(p: Peers, n: Net, queue: Bytes)
    requires NetOk(p, n) && Pushed(DownPackets(p, n), n.downRead, n.clientQueue, queue)
    ensures NetOk(p, ClientReceive(p, n, queue))
  {
    PushKeepsAligned(DownPackets(p, n), n.downRead, n.clientQueue, queue);
    ClientDecodesKeepsOk(p, n, queue, ReadAfter(n.downRead, n.clientQueue, queue));
  }

  // ----- every run -----

  lemma StepKeepsNetOk(p: Peers, n: Net, e: NetEvent)
    requires NetOk(p, n)
    ensures NetOk(p, Step(p, n, e))
  {
    match e
    case ClientCalls(request) => ClientCallsKeepOk(p, n, request);
    case ClientPings(timer, id) => ClientPingsKeepOk(p, n, timer, id);
    case ClientEvent(event) => ClientEventKeepsOk(p, n, event);
    case ServerEvent(event) => ServerEventKeepsOk(p, n, event);
    case ServerReceives(queue) =>
      if Pushed(n.upPackets, n.upRead, n.serverQueue, queue) {
        ServerReceivesKeepsOk(p, n, queue);
      }
    case ClientReceives(queue) =>
      if Pushed(DownPackets(p, n), n.downRead, n.clientQueue, queue) {
        ClientReceivesKeepsOk(p, n, queue);
      }
  }

  lemma {:induction false} EveryRunKeepsNetOk(p: Peers, n: Net, events: seq<NetEvent>)
    requires NetOk(p, n)
    ensures NetOk(p, Run(p, n, events))
    decreases |events|
  {
    if events != [] {
      StepKeepsNetOk(p, n, events[0]);
      EveryRunKeepsNetOk(p, Step(p, n, events[0]), events[1..]);
    }
  }

  /**
   * A socket on which nothing has happened yet: both codecs are empty, and whatever the client has written and sent, and
   * the server received, was on other sockets.
   */
  ghost predicate Fresh(p: Peers, n: Net) {
    && |n.client.book.sends| == p.firstSend && C.EntriesOk(n.client.book)
    && n.requested == [] && n.upPackets == [] && n.sentAs == [] && n.upRead == 0 && n.downRead == 0
    && n.serverQueue == [] && n.clientQueue == []
    && WorkOk(n.server.work) && Sound(p.serverCfg, n.server.work, p.socket, []) && DownWrites(p, n) == []
  }

  lemma FreshIsOk(p: Peers, n: Net)
    requires Fresh(p, n)
    ensures NetOk(p, n)
  {
    assert StartsAt([], 0, [], 0);
    assert DownPackets(p, n) == [] && Received(p, n) == [];
  }

  /** A request that arrives under this id was sent as a request under it; its other fields may have changed. */
  predicate RequestKeepsId(p: Peers, m: RpcMessage, id: string) {
    var arrived := Arrival(p.clientCfg, p.serverCfg, m);
    arrived.Request? && arrived.id == id ==> m.Request? && m.id == id
  }

  /** A success that arrives under this id was sent as one under it; its result may have changed. */
  predicate SuccessKeepsId(p: Peers, m: RpcMessage, id: string) {
    var arrived := Arrival(p.serverCfg, p.clientCfg, m);
    arrived.Response? && arrived.id == id && arrived.ok ==> m.Response? && m.id == id && m.ok
  }

  ghost predicate IdsSurvive(p: Peers, n: Net, id: string) {
    && (forall m <- n.requested :: RequestKeepsId(p, m, id))
    && (forall x <- DownWrites(p, n) :: SuccessKeepsId(p, x.message, id))
  }

  /** Serializers and compressors that undo each other or fail, for the messages of this socket, keep every id. */
  lemma InverseLawsKeepIds(p: Peers, n: Net, id: string)
    requires forall m <- n.requested :: Undone(p.clientCfg, p.serverCfg, m)
    requires forall x <- DownWrites(p, n) :: Undone(p.serverCfg, p.clientCfg, x.message)
    ensures IdsSurvive(p, n, id)
  {
    forall m <- n.requested
      ensures RequestKeepsId(p, m, id)
    {
      InverseLawsLetSurvive(p.clientCfg, p.serverCfg, m);
    }
    forall x <- DownWrites(p, n)
      ensures SuccessKeepsId(p, x.message, id)
    {
      InverseLawsLetSurvive(p.serverCfg, p.clientCfg, x.message);
    }
  }

  /** This client wrote request m under the id on this socket, and the server got it as `arrived`. */
  predicate WrittenAs(p: Peers, n: Net, m: RpcMessage, id: string, arrived: RpcMessage) {
    m in n.requested && m.Request? && m.id == id && Arrival(p.clientCfg, p.serverCfg, m) == arrived
  }

  /**
   * The method returned a value, and the response with it arrives as a success under the id with this result; it is the
   * very value when the response arrives as it was sent.
   */
  predicate ResultOf(p: Peers, q: S.AcceptedRequest, id: string, result: Option<Value>) {
    && q.request.Request? && q.outcome.Some? && q.outcome.value.Returned?
    && var response := S.InvokeResponse(q.request, q.outcome.value);
       && P.Answers(Arrival(p.serverCfg, p.clientCfg, response), id, result)
       && (Survives(p.serverCfg, p.clientCfg, response) ==> q.outcome == Some(S.Returned(result)))
  }

  /** Request `r` of the server has the id, is one that this client wrote on this socket, and returned `result`. */
  ghost predicate Answered(p: Peers, n: Net, r: nat, id: string, result: Option<Value>)
    requires r < |n.server.work.requests|
  {
    var q := n.server.work.requests[r];
    && q.request.Request? && q.request.id == id && ResultOf(p, q, id, result)
    && (exists m :: WrittenAs(p, n, m, id, q.request))
    && q.handler < |n.server.work.handlers| && n.server.work.handlers[q.handler].socket == p.socket
  }

  lemma AnswerWasWritten(p: Peers, n: Net, answer: RpcMessage) returns (x: S.SocketWrite)
    requires answer in Answers(p, n)
    ensures x in DownWrites(p, n) && x in n.server.work.writes && x.socket == p.socket
    ensures Arrival(p.serverCfg, p.clientCfg, x.message) == answer
  {
    var i :| 0 <= i < |Answers(p, n)| && Answers(p, n)[i] == answer;
    x := DownWrites(p, n)[i];
    WrittenOnAreWrites(n.server.work.writes, p.socket);
  }

  lemma RequestWasSent(p: Peers, n: Net, request: RpcMessage) returns (m: RpcMessage)
    requires request in Received(p, n)
    ensures m in n.requested && Arrival(p.clientCfg, p.serverCfg, m) == request
  {
    var i :| 0 <= i < |Received(p, n)| && Received(p, n)[i] == request;
    m := n.requested[i];
  }

  lemma ResolvedWasAnswered(p: Peers, n: Net, id: string, result: Option<Value>, answer: RpcMessage) returns (r: nat)
    requires Sound(p.serverCfg, n.server.work, p.socket, Received(p, n)) && IdsSurvive(p, n, id)
    requires answer in Answers(p, n) && P.Answers(answer, id, result)
    ensures r < |n.server.work.requests| && Answered(p, n, r, id, result)
  {
    var x := AnswerWasWritten(p, n, answer);
    assert WriteSound(p.serverCfg, n.server.work, x);
    r :| 0 <= r < |n.server.work.requests| && Produced(n.server.work, r, x);
    assert RequestFrom(n.server.work, r, p.socket, Received(p, n));
    var m := RequestWasSent(p, n, n.server.work.requests[r].request);
    assert RequestKeepsId(p, m, id) && WrittenAs(p, n, m, id, n.server.work.requests[r].request);
  }

  lemma ResolvedHere(p: Peers, n: Net, send: nat, k: nat) returns (r: nat)
    requires NetOk(p, n) && p.firstSend <= send < |n.client.book.sends| && k < |n.client.book.sends[send].settlements|
    requires n.client.book.sends[send].settlements[k].outcome.Resolved? && IdsSurvive(p, n, n.client.book.sends[send].id)
    ensures var record := n.client.book.sends[send];
            r < |n.server.work.requests| && Answered(p, n, r, record.id, record.settlements[k].outcome.result)
  {
    var record := n.client.book.sends[send];
    assert RecordJustified(record, Answers(p, n)) && record.settlements[k] in record.settlements;
    var answer :| answer in Answers(p, n) && P.Answers(answer, record.id, record.settlements[k].outcome.result);
    r := ResolvedWasAnswered(p, n, record.id, record.settlements[k].outcome.result, answer);
  }

  /**
   * Correlation: in every reachable state, a send on this socket that resolved got its result from a server invocation of
   * a request with the same id that this client had written on this socket. Of the serializers and compressors it asks
   * only that this very id is not given to messages sent under another; parameters and results may change on the way.
   */
  lemma Correlation(p: Peers, n: Net, events: seq<NetEvent>, send: nat, k: nat)
    requires Fresh(p, n) && p.firstSend <= send
    requires var sends := Run(p, n, events).client.book.sends;
             send < |sends| && k < |sends[send].settlements| && sends[send].settlements[k].outcome.Resolved?
             && IdsSurvive(p, Run(p, n, events), sends[send].id)
    ensures var m := Run(p, n, events);
            var record := m.client.book.sends[send];
            exists r | 0 <= r < |m.server.work.requests| ::
              Answered(p, m, r, record.id, record.settlements[k].outcome.result)
  {
    FreshIsOk(p, n);
    EveryRunKeepsNetOk(p, n, events);
    var r := ResolvedHere(p, Run(p, n, events), send, k);
  }

  /** Different requests have different ids; a retry writes the same request once more. */
  predicate OneRequestPerId(requested: seq<RpcMessage>) {
    forall i, j | 0 <= i < |requested| && 0 <= j < |requested| && requested[i].Request? && requested[j].Request?
                  && requested[i].id == requested[j].id :: requested[i] == requested[j]
  }

  lemma AnsweredWasOwn(p: Peers, n: Net, send: nat, r: nat, result: Option<Value>)
    requires SendsOk(p, n) && OneRequestPerId(n.requested) && p.firstSend <= send < |n.client.book.sends|
    requires r < |n.server.work.requests| && Answered(p, n, r, n.client.book.sends[send].id, result)
    ensures send - p.firstSend < |n.sentAs| && n.sentAs[send - p.firstSend] < |n.requested|
    ensures n.server.work.requests[r].request
            == Arrival(p.clientCfg, p.serverCfg, n.requested[n.sentAs[send - p.firstSend]])
  {
    var id := n.client.book.sends[send].id;
    assert SentAs(p, n, send - p.firstSend);
    var m :| WrittenAs(p, n, m, id, n.server.work.requests[r].request);
    var j :| 0 <= j < |n.requested| && n.requested[j] == m;
  }

  /**
   * When the client uses no id for two different requests, the result is that of an invocation of the very request that
   * the send wrote, as the server received it.
   */
  lemma OwnRequestWasAnswered(p: Peers, n: Net, events: seq<NetEvent>, send: nat, k: nat)
    requires Fresh(p, n) && p.firstSend <= send
    requires var sends := Run(p, n, events).client.book.sends;
             send < |sends| && k < |sends[send].settlements| && sends[send].settlements[k].outcome.Resolved?
             && IdsSurvive(p, Run(p, n, events), sends[send].id)
    requires OneRequestPerId(Run(p, n, events).requested)
    ensures var m := Run(p, n, events);
            var record := m.client.book.sends[send];
            && send - p.firstSend < |m.sentAs| && m.sentAs[send - p.firstSend] < |m.requested|
            && exists r | 0 <= r < |m.server.work.requests| ::
                 && Answered(p, m, r, record.id, record.settlements[k].outcome.result)
                 && m.server.work.requests[r].request
                    == Arrival(p.clientCfg, p.serverCfg, m.requested[m.sentAs[send - p.firstSend]])
  {
    FreshIsOk(p, n);
    EveryRunKeepsNetOk(p, n, events);
    var m := Run(p, n, events);
    var r := ResolvedHere(p, m, send, k);
    AnsweredWasOwn(p, m, send, r, m.client.book.sends[send].settlements[k].outcome.result);
  }

  // ----- how a method's outcome reaches the caller -----

  /** What the caller's promise is settled with when the method has this outcome and its response arrives as it was sent. */
  predicate ReachesAs(outcome: S.MethodOutcome, settled: C.Outcome) {
    match outcome
    case Returned(result) => settled == C.Resolved(result)
    case Raised(RpcError(code, message)) => settled == C.Rejected(RpcError(code, message))
    case Raised(NodeError(_, message)) => settled == C.Rejected(RpcError("INTERNAL_ERROR", message))
    case Raised(PlainError(message)) => settled == C.Rejected(RpcError("INTERNAL_ERROR", message))
    case Raised(NotAnError(_, text)) => settled == C.Rejected(RpcError("INTERNAL_ERROR", text))
  }

  lemma OnlyAnswer(m: RpcMessage)
    requires m.Response?
    ensures L.FirstAnswer([m], m.id) == Some(m)
  {
    assert [m][0] == m;
  }

  /** A method's result resolves the caller's promise, and its error rejects it, with its code when it is an `RpcError`. */
  lemma OutcomeReachesCaller(o: C.ConnectionOptions, c: C.Conn, request: RpcMessage, outcome: S.MethodOutcome)
    requires request.Request? && C.EntriesOk(c.book) && request.id in c.book.pending
    ensures var p, d := c.book.pending[request.id], C.Step(o, c, C.DataReceived([S.InvokeResponse(request, outcome)])).book;
            && request.id !in d.pending
            && |d.sends| == |c.book.sends| && L.SettledNow(c.book.sends[p], d.sends[p], c.now)
            && ReachesAs(outcome, L.LastOutcome(d.sends[p]))
  {
    var p, response := c.book.pending[request.id], S.InvokeResponse(request, outcome);
    OnlyAnswer(response);
    L.DeliverySettles(o, c, [response]);
    assert L.DeliveredTo(c.book, C.Step(o, c, C.DataReceived([response])).book, p, [response], c.now);
  }

  /** A request that a draining server refuses is rejected for its caller with an error that the default policy retries. */
  lemma RefusalIsRetried(o: C.ConnectionOptions, c: C.Conn, request: RpcMessage)
    requires request.Request? && C.EntriesOk(c.book) && request.id in c.book.pending
    ensures var p, d := c.book.pending[request.id], C.Step(o, c, C.DataReceived([R.RefusalOf(request)])).book;
            && |d.sends| == |c.book.sends| && L.SettledNow(c.book.sends[p], d.sends[p], c.now)
            && L.LastOutcome(d.sends[p]).Rejected?
            && DefaultShouldRetry(L.LastOutcome(d.sends[p]).error)
  {
    var p, refusal := c.book.pending[request.id], R.RefusalOf(request);
    OnlyAnswer(refusal);
    L.DeliverySettles(o, c, [refusal]);
    assert L.DeliveredTo(c.book, C.Step(o, c, C.DataReceived([refusal])).book, p, [refusal], c.now);
  }
}
