# Verified model of weisley-rpc

A Dafny model of an RPC framework for Node.js: its wire format, its client connection, its server, and the algorithms
that govern calls. `dafny verify dfyconfig.toml` checks everything.

The framework runs on one JavaScript thread, so its concurrency is the interleaving of pieces of code that each run to
completion: the code between two awaits, or one event callback. The model has one step for each such piece, and the
theorems quantify over every sequence of steps.

Each stateful file of the framework appears twice. A class has the same fields and changes them in place, one method for
each piece that runs to completion; its contracts name functions on plain values. The lemmas then prove the framework's
promises about those functions, over whole runs.

- **Framing** (`Packet`, `BufferQueue`, `Codec`, `CodecStreams`, `StreamFailures`): the chunk list refines a flat byte string,
  the streaming decoder agrees with the simple parse of the whole stream for every chunking, it is settled which messages
  survive a failing packet, and encoding and decoding are inverse exactly within the configured limits.
- **Client connection** (`Connection`, `ConnectionObject`, `ConnectionProofs`, `ConnectionLaws`, `ConnectDiscipline`,
  `Heartbeat`, `ConnectionRuns`): every send is settled exactly once, in time, and with what; connecting, reconnecting,
  heartbeat and closing.
- **Retrying calls** (`Retries`): many calls that send again under one id, over many connections, never find it pending.
- **Server** (`Server`, `ServerObject`, `ServerProofs`, `ServerResponses`, `ListenDuringDrain`): concurrent handlers, one
  response for every accepted request, a graceful close that does not cut one off, and exactly when `listen` breaks that.
- **Both ends together** (`PeerStreams`, `Provenance`, `EndToEnd`): over two byte streams cut arbitrarily, a resolved send has
  the result of a server invocation of a request with its id; of the very request that it wrote, when the client uses no
  id for two different requests.
- **Governance** (`RateLimiter`, `CircuitBreaker`, `LoadBalancers`, `Failover`, `ConnectionPool`, `ClientCalls`,
  `CallAccounting`, `Benchmark`): bounds, fairness, history laws and conservation.

`Common`, `Arithmetic`, `Messages` and `Errors` hold what the others share.

## What the code does against expectation

Each of these is proved of the model, with the exact condition where there is one.

- `push` loses the messages it has decoded when a later packet of the same chunk fails (`BodyFailureSkipsOnePacket`,
  `BadHeaderSticks`); which messages survive depends on the chunk boundaries (`FailingStream`, `AllDeliveredExactlyWhen`).
- A body limit of 0 is accepted when it is given as a fraction below 1 (`ZeroLimitAccepted`), and a compressor that grows
  its input makes a sender produce what its own decoder refuses (`GrowingCompressorBreaksRoundTrip`).
- `close` does not always last: an attempt in flight can set `connected`, a failed reconnect callback `reconnecting`
  (`CloseLastsExactlyWhenQuiet`).
- A second heartbeat interval can be started under a running one, and a run ends with a single interval exactly when that
  has not happened (`HeartbeatLeaksExactlyWhen`, `RunLeaksExactlyWhen`): nothing ever stops the first one
  (`ForgottenIntervalRunsForever`). `HeartbeatLeakIsReachable` gives a run, in which a new socket connects before the close
  event of the destroyed one. Node's event loop normally delivers the close event first, and then no interval leaks
  (`OrderlyRunsDoNotLeak`).
- `removeDrainResolver` never removes anything (`RemoveDrainResolverRemovesNothing`); this is harmless
  (`TimedOutWaiterStaysButIsInert`). A `listen` during a drain is not: a waiting close is safe exactly while the state is
  `draining` and nobody has called `listen` since (`SafeExactlyBeforeListen`); a call that has not completed yet, under
  which the state still reads `draining`, is enough to break it. `ListenDuringDrainBreaksSafety` has a run from the start.
- The circuit breaker's comment on `resetTimeoutMs` allows one probe when half-open; the code lets everyone through until
  one call reports (`HalfOpenAdmitsEveryone`).
- On a clock that goes back, merely looking at the token bucket can change later answers: exactly when a whole interval had
  passed at the look, and fewer have at the next call (`LookIsHarmlessExactlyWhen`). It can let a call in
  (`BackwardClockObservationMatters`).
- A logger that throws on a success makes `call` record that call as a failure too (`OneRecordPerCall`).
- Two methods share retry rules, metrics and breaker when their keys coincide; some other method shares a method's key
  exactly when there is a dot in one of its names (`KeyIsSharedExactlyWhen`).
- Calls that interleave move each other's cursor, so two attempts of one call can go to one endpoint
  (`SamePositionExactlyWhen`).

## Model

| member | source | states |
|---|---|---|
| `Packet.EncodePacket` | `packages/protocol/src/packet.ts:26-45` | The header buffer, written field by field, plus the payload is the printed form of the header; a payload over 16 MiB or a flag byte out of range throws |
| `Packet.WriteUInt16BE` | `packages/protocol/src/packet.ts:37` | Two bytes that read back big-endian as the value, nothing else touched |
| `Packet.WriteUInt32BE` | `packages/protocol/src/packet.ts:42` | Four bytes that read back big-endian as the value, nothing else touched |
| `Packet.HeaderRoundTrip` | `packages/protocol/src/packet.ts:36-81` | Every well-formed header is parsed back from its ten bytes, whatever follows them |
| `Packet.AcceptedHeaderIsReproduced` | `packages/protocol/src/packet.ts:47-81` | An accepted header is well-formed and is reproduced byte for byte by the writer |
| `Packet.AcceptsExactlyPrintedHeaders` | `packages/protocol/src/packet.ts:47-125` | A buffer is accepted if and only if its first ten bytes are the printed form of some well-formed header |
| `BufferQueue.BufferQueue.Push` | `packages/protocol/src/buffer-queue.ts:12-19` | The flat byte string behind the chunks grows at the end; no empty chunk is stored and `totalLength` stays exact |
| `BufferQueue.BufferQueue.Peek` | `packages/protocol/src/buffer-queue.ts:21-27` | A prefix of the flat byte string, or nothing when there are too few bytes; the queue is unchanged |
| `BufferQueue.BufferQueue.Read` | `packages/protocol/src/buffer-queue.ts:29-35` | The prefix is returned and removed; with too few bytes nothing happens |
| `BufferQueue.BufferQueue.Copy` | `packages/protocol/src/buffer-queue.ts:37-69` | The loop over chunks terminates with its output filled: exactly the prefix, consumed or not |
| `Codec.NormalizeLimit` | `packages/protocol/src/codec.ts:147-157` | A limit is accepted exactly when absent or finite and positive, and is floored |
| `Codec.ZeroLimitAccepted` | `packages/protocol/src/codec.ts:147-157` | A limit of 0 gets through exactly for fractions between 0 and 1, against the wording of the error |
| `Codec.ConfiguredLimits` | `packages/protocol/src/codec.ts:39-47` | Both limits must be absent or finite and positive; without options they are 16 MiB, and the body's own limit after decompression |
| `Codec.LastRegisteredCounts` | `packages/protocol/src/codec.ts:48-53` | Of several serializers under one name the last registered one is used |
| `Codec.RpcCodec.Create` | `packages/protocol/src/codec.ts:33-53` | Invalid limits throw; otherwise the configuration is the options' with later serializers replacing namesakes |
| `Codec.RpcCodec.Encode` | `packages/protocol/src/codec.ts:55-72` | The packet, or the first error in the order serialize, limit, compress, header |
| `Codec.RpcCodec.Push` | `packages/protocol/src/codec.ts:74-126` | The chunked loop is the simple recursive parse of queued bytes plus chunk: its messages or its error, and its leftover bytes |
| `Codec.RpcCodec.DecodeNext` | `packages/protocol/src/codec.ts:79-123` | One turn of the loop takes one whole packet, or leaves the queue alone when it is incomplete or its header is bad |
| `Codec.RpcCodec.DecodePacketBody` | `packages/protocol/src/codec.ts:96-122` | The checks of a complete packet in the order of the code |
| `CodecStreams.DrainAppend` | `packages/protocol/src/codec.ts:74-126` | Parsing two stretches of a stream one after the other is parsing them at once, errors and leftovers included |
| `CodecStreams.ChunkingIndependence` | `packages/protocol/src/codec.ts:74-126` | Any run of pushes throws exactly when one push of the whole stream does, with the same error and leftover, and otherwise delivers the same messages |
| `CodecStreams.RestIsDrained` | `packages/protocol/src/codec.ts:79-88` | What a normal push leaves queued contains no further packet |
| `CodecStreams.QueueBound` | `packages/protocol/src/codec.ts:79-88` | After a normal push fewer than 10 + 16 MiB bytes are queued |
| `CodecStreams.DrainPrefix` | `packages/protocol/src/codec.ts:74-126` | After any byte prefix of accepted packets: the messages of the complete ones, the bytes of the unfinished one |
| `CodecStreams.StreamDelivery` | `packages/protocol/src/codec.ts:74-126` | The same for any chunking of any prefix; the whole stream yields exactly the message list and an empty queue |
| `CodecStreams.BadHeaderSticks` | `packages/protocol/src/codec.ts:80-85` | A bad header consumes none of its bytes, makes every later push throw, and loses what was decoded before it in the same push |
| `CodecStreams.BodyFailureSkipsOnePacket` | `packages/protocol/src/codec.ts:90-122` | A failure after the header consumes exactly that packet; earlier messages survive only if an earlier push returned them |
| `StreamFailures.FailingStream` | `packages/protocol/src/codec.ts:74-126` | Good packets and a failing one, in any chunks: the push that completes the failing bytes throws, delivered are exactly the messages complete in the pushes before it, and left are the bytes behind a failed packet or everything from a bad header on |
| `StreamFailures.AllDeliveredExactlyWhen` | `packages/protocol/src/codec.ts:77-125` | No good message is lost if and only if some chunk ends at or behind the last good packet and before the failing bytes are complete |
| `CodecStreams.EncodedIsFrame` | `packages/protocol/src/codec.ts:67-71` | What `encode` returns is one whole packet with the intended header and body |
| `CodecStreams.EncodedOnTheWire` | `packages/protocol/src/codec.ts:55-72` | Every byte of an encoded message: magic, version, the numbers of serializer and type, the compressed flag exactly from the threshold on, the big-endian length, the body |
| `CodecStreams.DecodesExactlyWhen` | `packages/protocol/src/codec.ts:96-122` | A packet is taken for a message if and only if both lengths are within their limits, its serializer is registered and reads the message, and the header announces the message's type |
| `CodecStreams.EncodeSucceedsWithinLimits` | `packages/protocol/src/codec.ts:55-72` | `encode` succeeds if and only if the serialized body and the body as sent are within the two limits it checks |
| `CodecStreams.CodecRoundTrip` | `packages/protocol/src/codec.ts:55-126` | `push(encode(m))` is `[m]` if and only if the sent body is within `maxBodyLength` and the serialized body within `maxDecompressedBodyLength`; otherwise a length error that drops the packet |
| `CodecStreams.DefaultLimitsAlwaysRoundTrip` | `packages/protocol/src/codec.ts:40-47` | Without compression and with default limits everything that encodes comes back |
| `CodecStreams.GrowingCompressorBreaksRoundTrip` | `packages/protocol/src/codec.ts:57-65` | A compressor that grows its input makes `encode` send what `push` refuses |
| `ConnectionObject.RpcConnection.constructor` | `packages/core/src/client/connection.ts:41-60` | Every field starts as the initial state of the connection model |
| `ConnectionObject.RpcConnection.ScheduleReconnect` | `packages/core/src/client/connection.ts:63-90` | Arms one timer unless one is armed or reconnecting is off, with delay min(initial * 2^attempts, max) |
| `ConnectionObject.RpcConnection.HandleUnexpectedDisconnect` | `packages/core/src/client/connection.ts:92-100` | Stops the heartbeat, rejects everything pending, and reconnects unless closed by hand |
| `ConnectionObject.RpcConnection.Connect` | `packages/core/src/client/connection.ts:106-123` | Uses the open socket, joins the shared promise, or starts an attempt and owns it |
| `ConnectionObject.RpcConnection.CallSettles` | `packages/core/src/client/connection.ts:117-121` | The waiting caller gets the attempt's outcome; only the owner clears the shared promise |
| `ConnectionObject.RpcConnection.Send` | `packages/core/src/client/connection.ts:125-142` | Refused without an open, connected socket, with a retryable error; otherwise one entry, one timer, one write |
| `ConnectionObject.RpcConnection.RequestTimerFires` | `packages/core/src/client/connection.ts:134-137` | Deletes the entry of the id and rejects its own promise with a timeout |
| `ConnectionObject.RpcConnection.Close` | `packages/core/src/client/connection.ts:144-155` | Closed by hand, no reconnect timer, heartbeat stopped, everything pending rejected, socket ended |
| `ConnectionObject.RpcConnection.DoConnect` | `packages/core/src/client/connection.ts:157-173` | Not closed by hand, connecting, one new socket |
| `ConnectionObject.RpcConnection.AttemptResumes` | `packages/core/src/client/connection.ts:171-178` | A ready socket makes the state connected, resets the backoff and starts the heartbeat, whatever the state was |
| `ConnectionObject.RpcConnection.ReconnectTimerFires` | `packages/core/src/client/connection.ts:77-83` | Clears the timer field and connects unless closed by hand |
| `ConnectionObject.RpcConnection.CallbackResumes` | `packages/core/src/client/connection.ts:83-88` | Success resets the backoff; failure sets `reconnecting`, whatever the state was, and schedules again |
| `ConnectionObject.RpcConnection.StartHeartbeat` | `packages/core/src/client/connection.ts:180-206` | A new interval and a fresh pong time, without stopping an earlier interval |
| `ConnectionObject.RpcConnection.HeartbeatFires` | `packages/core/src/client/connection.ts:186-205` | Stops without a socket; disconnects and destroys when the pong is late; otherwise writes a ping |
| `ConnectionObject.RpcConnection.StopHeartbeat` | `packages/core/src/client/connection.ts:208-214` | Clears exactly the interval in the field |
| `ConnectionObject.RpcConnection.HandleData` | `packages/core/src/client/connection.ts:216-240` | The decoded messages answer their entries in order; when decoding throws nothing but the codec's queue changes |
| `ConnectionObject.RpcConnection.AnswerPending` | `packages/core/src/client/connection.ts:220-234` | An answer settles and removes the entry of its id; one without an entry changes nothing |
| `ConnectionObject.RpcConnection.RejectAll` | `packages/core/src/client/connection.ts:242-248` | Every pending promise is rejected once, its timer stopped, and the map is empty |
| `ConnectionProofs.EverySendSettledOnce` | `packages/core/src/client/connection.ts:125-142` | Over every interleaving the unsettled sends are exactly the entries of `pending`, each with its timer armed, and every other send was settled exactly once |
| `ConnectionProofs.SendNeedsFreshId` | `packages/core/src/client/connection.ts:133-141` | A send keeps that law if and only if its id is not pending already |
| `ConnectionProofs.UnrelatedMessagesChangeNoEntry` | `packages/core/src/client/connection.ts:219-239` | Late, unknown-id and pong messages change no entry and settle nothing |
| `ConnectionProofs.SettledIdIsFree` | `packages/core/src/client/connection.ts:133-141` | Once every send with an id is settled, the id is pending no more |
| `ConnectionProofs.StepEvolves` | `packages/core/src/client/connection.ts:133-141` | Without incoming data a step leaves each send alone or rejects it now, once |
| `ConnectionProofs.EverySendSettledInTime` | `packages/core/src/client/connection.ts:134-137` | Every send is settled by `sentAt + timeoutMs` if due timers fire before time passes them |
| `ConnectionLaws.DeliverySettles` | `packages/core/src/client/connection.ts:216-240` | Of the messages delivered, the first response to a pending id removes its entry and settles its send once, now: a success with its result, a failure with its own code and message or the defaults; nothing else changes |
| `ConnectionLaws.LossRejectsPending` | `packages/core/src/client/connection.ts:92-100` | A closed or failed socket, an overdue pong and `close` reject exactly what is pending, each with its own error |
| `ConnectionLaws.TimeoutRejects` | `packages/core/src/client/connection.ts:134-137` | A due request timer rejects its own send with `RPC_TIMEOUT` and frees its id |
| `ConnectionLaws.SendGoesOutExactlyWhen` | `packages/core/src/client/connection.ts:125-142` | A send writes, makes an entry and starts a timer if and only if the state is connected and the socket not destroyed |
| `ConnectionLaws.CloseEndsSocket` | `packages/core/src/client/connection.ts:144-155` | `close` marks the connection closed by hand and ends its socket; an attempt in flight goes on |
| `ConnectionLaws.LossArmsReconnect` | `packages/core/src/client/connection.ts:63-100` | After a lost socket, an error, an expired heartbeat or a failed reconnect exactly one timer is armed, a new one with delay min(initial * 2^k, max), k the delays since the last reset; with reconnecting off, or closed by hand, none is added |
| `ConnectionLaws.SuccessResetsDelays` | `packages/core/src/client/connection.ts:83-85` | A connection that is established, or a reconnect that succeeds, starts the delays anew |
| `ConnectionLaws.ReconnectCanSucceed` | `packages/core/src/client/connection.ts:77-83` | From any state with the timer armed and no attempt in flight, its firing and a socket that connects lead to an open connection |
| `ConnectionLaws.ConnectOpensExactlyWhen` | `packages/core/src/client/connection.ts:106-115` | `connect` opens a socket if and only if there is neither an open connection nor an attempt to join |
| `ConnectionLaws.HeartbeatTicks` | `packages/core/src/client/connection.ts:186-205` | A tick stops the heartbeat without an open socket, gives the connection up when the pong is overdue, and otherwise pings |
| `ConnectionLaws.EstablishedStartsHeartbeat` | `packages/core/src/client/connection.ts:180-186` | A new connection has one heartbeat, with a fresh pong time, exactly when an interval is configured |
| `ConnectionLaws.LossStopsHeartbeat` | `packages/core/src/client/connection.ts:92-155` | After `close` or a loss no heartbeat interval runs, and after `close` no reconnect timer |
| `ConnectionLaws.NoGivingUpWithinTimeout` | `packages/core/src/client/connection.ts:184-197` | In every run no tick gives the connection up within the timeout after it was established or a pong came in |
| `ConnectDiscipline.ConnectIsShared` | `packages/core/src/client/connection.ts:106-123` | In every run at most one attempt is in flight, one caller owns it, and callers that joined it see one outcome |
| `ConnectDiscipline.NewSocketOnlyWithoutAttempt` | `packages/core/src/client/connection.ts:111-115` | No step opens a socket while an attempt is in flight |
| `ConnectDiscipline.ReconnectBackoff` | `packages/core/src/client/connection.ts:63-90` | In every run at most one reconnect timer is armed, and the k-th delay since the last reset is min(initial * 2^k, max), never shrinking |
| `ConnectDiscipline.CloseLastsExactlyWhenQuiet` | `packages/core/src/client/connection.ts:144-155` | `closed` lasts until the next `connect` if and only if no attempt in flight can still succeed and no reconnect callback can still fail |
| `Heartbeat.HeartbeatLeaksExactlyWhen` | `packages/core/src/client/connection.ts:180-214` | A step keeps a single heartbeat interval unless, exactly, an attempt succeeds while one is running |
| `Heartbeat.SecondHeartbeatForgetsFirst` | `packages/core/src/client/connection.ts:186` | The second interval replaces the first in the field, and the first runs on |
| `Heartbeat.ForgottenIntervalRunsForever` | `packages/core/src/client/connection.ts:208-214` | An interval that is running and not in the field stays so in every run |
| `Heartbeat.RunLeaksExactlyWhen` | `packages/core/src/client/connection.ts:180-214` | A run ends with a single heartbeat interval if and only if none of its steps started a second one |
| `Heartbeat.OrderlyRunsDoNotLeak` | `packages/core/src/client/connection.ts:63-214` | No run of a new connection leaks an interval when connect and close events come after the continuations that were due, and a socket connects before its own close event and after those of older destroyed sockets |
| `Heartbeat.HeartbeatLeakIsReachable` | `packages/core/src/client/connection.ts:177-186` | Without that order, a run in which an interval outlives `close` |
| `ConnectionRuns.NewConnectionIsDisciplined` | `packages/core/src/client/connection.ts:63-123` | The attempt, owner and timer laws, from construction on |
| `ConnectionRuns.NewConnectionSettlesOnce` | `packages/core/src/client/connection.ts:125-142` | The settlement and deadline laws, from construction on |
| `ConnectionRuns.ResponsesSettleSends` | `packages/core/src/client/connection.ts:216-240` | The delivery law at any point of any run of a new connection, whatever ids it has used |
| `ConnectionRuns.LostConnectionsComeBack` | `packages/core/src/client/connection.ts:63-100` | The reconnect law at any point of any run of a new connection |
| `ConnectionRuns.ClosingANewConnection` | `packages/core/src/client/connection.ts:144-178` | The closing law at any point of any run of a new connection |
| `Server.InvokeResponse` | `packages/core/src/server/method-invoker.ts:8-29` | The response carries the request's id and metadata, and the result exactly when the method returned |
| `ServerObject.RpcServer.DataReceived` | `packages/core/src/server/rpc-server.ts:124-128` | One activation decodes the chunk and runs to its first await; undecodable data destroys the socket |
| `ServerObject.RpcServer.RunLoop` | `packages/core/src/server/rpc-server.ts:128-189` | The message loop up to the next await: requests accepted or refused, pings answered in place, the rest skipped |
| `ServerObject.RpcServer.RefuseRequest` | `packages/core/src/server/rpc-server.ts:130-147` | While draining a request is answered SERVER_DRAINING with its id and metadata, and not counted |
| `ServerObject.RpcServer.AcceptRequest` | `packages/core/src/server/rpc-server.ts:149-153` | A request is counted before its method is called |
| `ServerObject.RpcServer.MethodSettles` | `packages/core/src/server/rpc-server.ts:153-176` | The response is written, or an encoding error releases the request and destroys the socket |
| `ServerObject.RpcServer.WriteSettles` | `packages/core/src/server/rpc-server.ts:172-177` | The request is released whether or not the write succeeded; then the loop goes on or the socket is destroyed |
| `ServerObject.RpcServer.Finally` | `packages/core/src/server/rpc-server.ts:173-176` | One less active, and the drain is resolved when that was the last |
| `ServerObject.RpcServer.Close` | `packages/core/src/server/rpc-server.ts:73-94` | Without a server nothing; gracefully it drains first, otherwise it destroys all connections at once |
| `ServerObject.RpcServer.WaitForActiveRequests` | `packages/core/src/server/rpc-server.ts:224-242` | Resolved at once when idle; otherwise one stored resolver |
| `ServerObject.RpcServer.CloseResumes` | `packages/core/src/server/rpc-server.ts:84-86` | After the drain every remaining socket is destroyed |
| `ServerObject.RpcServer.ServerClosed` | `packages/core/src/server/rpc-server.ts:86-88` | A graceful close ends in `closed` |
| `ServerObject.RpcServer.CloseConnections` | `packages/core/src/server/rpc-server.ts:95-100` | Every socket in the set is destroyed and the set emptied |
| `ServerObject.RpcServer.ResolveDrainIfIdle` | `packages/core/src/server/rpc-server.ts:244-253` | Exactly when idle: every stored resolver is called and the list emptied |
| `ServerObject.RpcServer.RemoveDrainResolver` | `packages/core/src/server/rpc-server.ts:255-257` | The filter keeps every function other than the one given |
| `ServerObject.RpcServer.DrainTimerFires` | `packages/core/src/server/rpc-server.ts:230-233` | The waiter is released by its timeout |
| `ServerObject.RpcServer.ListenDone` | `packages/core/src/server/rpc-server.ts:50-54` | The state becomes `listening` whatever it was |
| `ServerProofs.StepKeepsWorkOk` | `packages/core/src/server/rpc-server.ts:128-177` | In every step `activeRequests` equals the number of handlers between increment and `finally`, and it never increases while draining |
| `ServerProofs.NothingActiveNothingOpen` | `packages/core/src/server/rpc-server.ts:149-177` | The counter is 0 if and only if no accepted request is still being invoked or written |
| `ServerProofs.RemoveDrainResolverRemovesNothing` | `packages/core/src/server/rpc-server.ts:229-256` | The function given to the filter is never the stored one, so nothing is removed |
| `ServerProofs.TimedOutWaiterStaysButIsInert` | `packages/core/src/server/rpc-server.ts:230-253` | A timed-out waiter stays in the list and calling it later changes nothing for it |
| `ServerProofs.StepKeepsServerOk` | `packages/core/src/server/rpc-server.ts:73-177` | Every step keeps: waiting resolvers imply active requests, every waiter is stored, at most one graceful close is under way, no server while draining |
| `ServerProofs.EveryRunKeepsServerOk` | `packages/core/src/server/rpc-server.ts:73-177` | The same over every run without `listen` during a drain |
| `ServerProofs.AbruptClose` | `packages/core/src/server/rpc-server.ts:92-94` | A close that is not graceful destroys every connection at once and leaves the state `closed` |
| `ServerProofs.GracefulCloseStarts` | `packages/core/src/server/rpc-server.ts:81-84` | A graceful close destroys nothing, refuses from then on, and waits if and only if requests are active |
| `ServerProofs.GracefulCloseEnds` | `packages/core/src/server/rpc-server.ts:85-90` | Once it can go on it destroys the connections left and ends in `closed` |
| `ServerProofs.LastRequestReleasesClose` | `packages/core/src/server/rpc-server.ts:173-176` | The request that ends last lets every waiting close go on |
| `ServerResponses.LoopLaw` | `packages/core/src/server/rpc-server.ts:128-189` | The message loop in closed form: one pong under its id for each ping passed, then the first request is accepted, or refused under its own id while draining; an answer that does not encode destroys the socket |
| `ServerResponses.EveryRunResponds` | `packages/core/src/server/rpc-server.ts:153-172` | In every run each request whose response was to be written has exactly one write, on its handler's socket, with the method's outcome under its id, encoded; a request fails to encode only when its response does; every other write is a pong or a refusal |
| `ServerResponses.StepChangesRequests` | `packages/core/src/server/rpc-server.ts:153-177` | A request's record changes exactly when its own method settles or its own write ends, and tells how |
| `ServerResponses.DrainSafety` | `packages/core/src/server/rpc-server.ts:81-86` | When a graceful close goes on to destroy connections and its timer has not fired, `activeRequests` is 0 and every request ever accepted has had its one response written, that write having ended, or its response does not encode |
| `ListenDuringDrain.UnlistenedIsSafe` | `packages/core/src/server/rpc-server.ts:128-147` | While nobody has called `listen` during the drain, no run without such a call breaks a waiting graceful close |
| `ListenDuringDrain.ListeningIsNotSafe` | `packages/core/src/server/rpc-server.ts:41-55` | Once a `listen` has completed during the drain, a run that the event loop can take breaks it |
| `ListenDuringDrain.ListenedIsNotSafe` | `packages/core/src/server/rpc-server.ts:41-55` | A `listen` that has been called is enough, completed or not |
| `ListenDuringDrain.SafeExactlyBeforeListen` | `packages/core/src/server/rpc-server.ts:41-177` | A waiting graceful close is safe in every run without a further `listen` call if and only if the state is `draining` and no `listen` has been called since |
| `ListenDuringDrain.ListenDuringDrainBreaksSafety` | `packages/core/src/server/rpc-server.ts:54-177` | A run from the start: the `finally` of one request resolves the drain, the loop accepts the next request of the chunk in the same step, and the close cuts it off |
| `PeerStreams.InverseLawsLetSurvive` | `packages/protocol/src/codec.ts:55-126` | A message arrives as it was sent, or is rejected, when serializer and compressor undo what was done to this message or fail |
| `PeerStreams.DrainHonest` | `packages/protocol/src/codec.ts:74-126` | A push on such a stream stays on packet boundaries and delivers only messages that arrive, even when it throws |
| `PeerStreams.PushKeepsAligned` | `packages/protocol/src/codec.ts:74-77` | The next fragment of the stream, of any length, leaves queue and stream in line |
| `PeerStreams.DrainKeepsAligned` | `packages/protocol/src/codec.ts:79-126` | Decoding what has arrived, wherever it was cut, leaves them in line and delivers only messages that arrive, even when it throws |
| `EndToEnd.EveryRunKeepsNetOk` | `packages/core/src/server/rpc-server.ts:124-197` | In every run both receivers stay on packet boundaries, results and accepted requests go back to messages that arrived, and every successful response that the server has written is that of an invocation on its socket |
| `EndToEnd.Correlation` | `packages/core/src/client/connection.ts:216-240` | A send that resolved got what arrived of the value that a server invocation returned, for a request with its id that this client wrote on this socket; it asks only that requests and successes arriving under this id were sent under it |
| `EndToEnd.OwnRequestWasAnswered` | `packages/core/src/client/connection.ts:125-142` | If the client uses no id for two different requests, the invoked request is what arrived of the one that this very send wrote |
| `EndToEnd.InverseLawsKeepIds` | `packages/protocol/src/codec.ts:55-126` | That demand is met when serializer and compressor undo what was done to the messages of the socket, or fail |
| `EndToEnd.OutcomeReachesCaller` | `packages/core/src/server/method-invoker.ts:8-62` | When the response to a pending id arrives as sent, what the method returned resolves the caller's promise; what it raised rejects it, with its code for an `RpcError` and `INTERNAL_ERROR` otherwise |
| `EndToEnd.RefusalIsRetried` | `packages/core/src/server/rpc-server.ts:130-147` | A refusal by a draining server rejects the caller's promise with an error that the default policy retries |
| `RateLimiter.TokenBucketRateLimiter.Allow` | `packages/core/src/client/rate-limiter.ts:26-33` | Refills, then admits exactly when a token is left, and takes it |
| `RateLimiter.TokenBucketRateLimiter.GetAvailableTokens` | `packages/core/src/client/rate-limiter.ts:35-38` | Refills and tells the tokens |
| `RateLimiter.TokenBucketRateLimiter.RefillTokens` | `packages/core/src/client/rate-limiter.ts:40-55` | All whole intervals at once, capped; nothing when none has passed or the clock went back |
| `RateLimiter.Normalize` | `packages/core/src/client/rate-limiter.ts:11-15` | Capacity, refill and interval are each floored, and at least one |
| `RateLimiter.RefillIsTicking` | `packages/core/src/client/rate-limiter.ts:40-55` | One lazy refill equals ticking once per interval with the cap applied each time |
| `RateLimiter.LazyEqualsEager` | `packages/core/src/client/rate-limiter.ts:26-55` | Every trace of calls, on any clock, gets the same answers as from a bucket that ticks eagerly |
| `RateLimiter.RefillTwice` | `packages/core/src/client/rate-limiter.ts:40-55` | An early refill is absorbed by a later one if and only if it was not an interval ahead of it |
| `RateLimiter.ObservationsAreHarmless` | `packages/core/src/client/rate-limiter.ts:35-38` | Looking at the bucket no later than the next call changes no later answer |
| `RateLimiter.LookIsHarmlessExactlyWhen` | `packages/core/src/client/rate-limiter.ts:35-55` | A look at `early` changes no reply of any calls from `late` on if and only if no whole interval had passed at `early`, or at least as many have at `late` |
| `RateLimiter.BackwardClockObservationMatters` | `packages/core/src/client/rate-limiter.ts:35-55` | With a clock that goes back, a look one interval ahead lets in a call that would have been denied |
| `RateLimiter.TokensStayInRange` | `packages/core/src/client/rate-limiter.ts:26-55` | Tokens stay between 0 and the capacity |
| `RateLimiter.AdmissionsArePaidFor` | `packages/core/src/client/rate-limiter.ts:26-55` | Admissions plus tokens left never exceed tokens before plus whole intervals passed times the refill |
| `RateLimiter.TotalBound` | `packages/core/src/client/rate-limiter.ts:26-55` | On any clock at most C + R * floor((latest - start) / I) admissions |
| `RateLimiter.WindowBound` | `packages/core/src/client/rate-limiter.ts:26-55` | On a forward clock at most C + R * ceil((to - from) / I) admissions in any window |
| `RateLimiter.ReachableStatesStartWindows` | `packages/core/src/client/rate-limiter.ts:26-55` | Every reachable state of a forward clock can be the start of such a window |
| `RateLimiter.WindowBoundIsTight` | `packages/core/src/client/rate-limiter.ts:26-55` | A run that reaches the window bound |
| `CircuitBreaker.CircuitBreaker.CanRequest` | `packages/core/src/client/circuit-breaker.ts:27-44` | Refuses exactly when open and the reset time has not passed; a passed reset time turns it half-open |
| `CircuitBreaker.CircuitBreaker.RecordSuccess` | `packages/core/src/client/circuit-breaker.ts:50-53` | The key is closed with no failures, other keys untouched |
| `CircuitBreaker.CircuitBreaker.RecordFailure` | `packages/core/src/client/circuit-breaker.ts:59-72` | Counts, opens at the threshold, reopens from half-open, other keys untouched |
| `CircuitBreaker.CircuitBreaker.GetState` | `packages/core/src/client/circuit-breaker.ts:74-76` | The state of the key, whose entry is made if need be |
| `CircuitBreaker.CircuitBreaker.GetOrCreateEntry` | `packages/core/src/client/circuit-breaker.ts:82-93` | The key's own entry object, shared with no other key |
| `CircuitBreaker.Normalize` | `packages/core/src/client/circuit-breaker.ts:17-22` | The threshold is floored and at least one, the reset timeout floored and at least zero |
| `CircuitBreaker.HistoryLaw` | `packages/core/src/client/circuit-breaker.ts:27-111` | After every history: not closed if and only if at least threshold failures since the last success; the count and the opening time follow |
| `CircuitBreaker.KeysAreIndependent` | `packages/core/src/client/circuit-breaker.ts:82-93` | A key's entry depends only on that key's events |
| `CircuitBreaker.OpenOrHalfOpen` | `packages/core/src/client/circuit-breaker.ts:32-42` | Half-open if and only if a request was let through since the breaker last opened, which is when `openedAt` says |
| `CircuitBreaker.RefusalLaw` | `packages/core/src/client/circuit-breaker.ts:27-44` | A request is refused if and only if the failures reach the threshold, no probe is out and the reset time has not passed since the last opening |
| `CircuitBreaker.HalfOpenAdmitsEveryone` | `packages/core/src/client/circuit-breaker.ts:33-35` | Half-open lets every request through until one reports, although line 5 speaks of one probe |
| `LoadBalancers.RoundRobinLoadBalancer.Select` | `packages/core/src/discovery/round-robin-load-balancer.ts:6-14` | The endpoint at cursor mod length, and the cursor of that service goes up by one |
| `LoadBalancers.WeightedRoundRobinLoadBalancer.Select` | `packages/core/src/discovery/weighted-round-robin-load-balancer.ts:7-24` | The entry at cursor mod length of the expanded list |
| `LoadBalancers.WeightedRoundRobinLoadBalancer.ExpandWeightedEndpoints` | `packages/core/src/discovery/weighted-round-robin-load-balancer.ts:26-36` | The nested loops build the expanded list, endpoints in order |
| `LoadBalancers.GetWeight` | `packages/core/src/discovery/weighted-round-robin-load-balancer.ts:38-44` | max(1, floor(weight)), 1 when absent or not finite |
| `LoadBalancers.ExpandedWeights` | `packages/core/src/discovery/weighted-round-robin-load-balancer.ts:26-44` | Each position occurs in the expanded list as often as it weighs |
| `LoadBalancers.ExpandedLength` | `packages/core/src/discovery/weighted-round-robin-load-balancer.ts:26-36` | The expanded list is as long as the sum of the weights |
| `LoadBalancers.ExpandedInOrder` | `packages/core/src/discovery/weighted-round-robin-load-balancer.ts:18-36` | The expanded list keeps the order of the endpoints, copies side by side |
| `LoadBalancers.WholeTurn` | `packages/core/src/discovery/weighted-round-robin-load-balancer.ts:18-22` | Any full turn of a rotation holds each entry as often as the list does, from any cursor |
| `LoadBalancers.ChoicesAreOneRotation` | `packages/core/src/discovery/weighted-round-robin-load-balancer.ts:7-24` | Selections for other services in between change nothing |
| `LoadBalancers.WeightedFairness` | `packages/core/src/discovery/weighted-round-robin-load-balancer.ts:7-44` | Any W consecutive selections for a service choose position i exactly max(1, floor(w_i)) times |
| `Failover.GetMaxAttempts` | `packages/core/src/client/rpc-client.ts:335-352` | Between 1 and the number of endpoints; 0 or 1 without endpoints |
| `Failover.DiscoveryClient.CallWithDiscoveryFailover` | `packages/core/src/client/rpc-client.ts:239-307` | The loop returns the outcome, waits the backoff times and advances the cursor as the specification over its attempts says |
| `Failover.DiscoveryClient.TryOnce` | `packages/core/src/client/rpc-client.ts:255-277` | One turn selects the next position of the rotation, and goes on exactly when the attempt throws and the policy, given the error and its context, says yes |
| `Failover.DiscoveryClient.TryAll` | `packages/core/src/client/rpc-client.ts:254-300` | The loop stops at the first attempt that does not go on, keeps the last error, and waits between attempts only |
| `Failover.AttemptsAreDistinct` | `packages/core/src/client/rpc-client.ts:254-255` | No list position is tried twice in one call |
| `Failover.EveryPositionHasATurn` | `packages/core/src/client/rpc-client.ts:254-255` | With as many attempts as endpoints each position has its turn |
| `Failover.FirstDecisiveInRotation` | `packages/core/src/client/rpc-client.ts:254-306` | The call has the outcome of the first attempt, in rotation order, that succeeds or throws what the policy does not retry, after exactly the attempts up to it; else it makes them all and throws the last error |
| `Failover.HealthyEndpointIsFound` | `packages/core/src/client/rpc-client.ts:254-306` | Uncapped, one healthy endpoint among failures that the policy retries makes the call succeed |
| `Failover.DefaultPolicyInRotation` | `packages/core/src/client/retry-policy.ts:18-43` | Under the default policy the first attempt that does not fail with one of the ten transient codes decides |
| `Failover.UncappedWhen` | `packages/core/src/client/rpc-client.ts:335-352` | All endpoints are tried if and only if no finite limit below their number is configured, or there is just one |
| `Failover.MaxAttemptsIs` | `packages/core/src/client/rpc-client.ts:335-352` | The number of attempts is the rule's or else the client's limit, floored, at least one and at most one for each endpoint |
| `Failover.NoEndpoints` | `packages/core/src/client/rpc-client.ts:239-307` | Without endpoints the balancer throws if a finite limit is configured, otherwise the loop is not entered; nothing is waited |
| `Failover.SamePositionExactlyWhen` | `packages/core/src/discovery/round-robin-load-balancer.ts:6-14` | With any selections of any calls in between, two attempts go to one position if and only if the number of endpoints divides the number of the service's selections from the first to just before the second |
| `Failover.KeyIsSharedExactlyWhen` | `packages/core/src/client/rpc-client.ts:214-216` | Some other method has the same key if and only if there is a dot in the service's or the method's name |
| `Retries.EverySendIsFresh` | `packages/core/src/client/rpc-client.ts:254-263` | The send of a call that is between two attempts finds its id pending on no connection |
| `Retries.RetriesKeepIdsFresh` | `packages/core/src/client/rpc-client.ts:226-299` | However calls overlap and retry, the events of every connection keep the promise about ids that exactly-once settlement asks for, and every send is settled once |
| `Retries.RetriesSettleInTime` | `packages/core/src/client/rpc-client.ts:254-299` | Every send of every call is settled by its deadline if due timers fire first |
| `Failover.SleepsAre` | `packages/core/src/client/rpc-client.ts:309-326` | The i-th wait is min(initial * 2^i, maximum), each taken from the rule or else from the client, and 0 without an initial backoff |
| `Failover.BackoffGrows` | `packages/core/src/client/rpc-client.ts:309-326` | One wait between consecutive attempts, none after the last, never shrinking |
| `ConnectionPool.RpcConnectionPool.Create` | `packages/core/src/client/connection-pool.ts:14-18` | Throws exactly when `maxConnections` is not positive |
| `ConnectionPool.RpcConnectionPool.GetConnection` | `packages/core/src/client/connection-pool.ts:37-50` | Call number j gets connection j mod max; the pool only grows, and never past max |
| `ConnectionPool.RpcConnectionPool.GetStats` | `packages/core/src/client/connection-pool.ts:20-36` | Every connection is counted once under its state, so the counts sum to the total |
| `ConnectionPool.UsesAre` | `packages/core/src/client/connection-pool.ts:37-50` | Connection i has been handed out served / max times, plus one if i < served mod max |
| `ConnectionPool.UsesDifferByAtMostOne` | `packages/core/src/client/connection-pool.ts:37-50` | The use counts of existing connections differ by at most one |
| `ClientCalls.RpcClient.CallBegins` | `packages/core/src/client/rpc-client.ts:104-124` | The limiter is asked first and the breaker only if it agrees; the verdict and both new states |
| `ClientCalls.RpcClient.CallEnds` | `packages/core/src/client/rpc-client.ts:126-158` | One breaker record and one metrics record per ending, and both kinds when the success log throws |
| `ClientCalls.RpcClient.RecordMetrics` | `packages/core/src/client/rpc-client.ts:184-212` | The record of the key is updated in place, all other records untouched |
| `ClientCalls.RpcClient.GetMetrics` | `packages/core/src/client/rpc-client.ts:172-178` | A snapshot of every record |
| `ClientCalls.RpcClient.ResetMetrics` | `packages/core/src/client/rpc-client.ts:180-182` | No records are left |
| `CallAccounting.EveryCallIsAccountedFor` | `packages/core/src/client/rpc-client.ts:88-158` | Over every interleaving, calls started = rate limited + refused by the breaker + ended + in flight; the total is successes plus failures; the breaker is asked about each call that passed the limiter and told how each ended |
| `CallAccounting.OneRecordPerCall` | `packages/core/src/client/rpc-client.ts:126-158` | `totalCalls` is the number of ended calls, and the breaker hears of each once, if and only if no logger threw on a success |
| `CallAccounting.MetricsFollowTheEndings` | `packages/core/src/client/rpc-client.ts:184-212` | Total and average duration and last error code, from the endings in order |
| `CallAccounting.BreakerTripsOnTrailingFailures` | `packages/core/src/client/rpc-client.ts:118-143` | A method's breaker is not closed if and only if its last `failureThreshold` calls to end failed, however calls overlapped |
| `CallAccounting.CallsAreLetThroughExactlyWhen` | `packages/core/src/client/rpc-client.ts:104-124` | In every run a call without a token is rate limited; one with a token is turned away by the breaker if and only if its key's trailing failures reach the threshold, no probe is out and the reset timeout has not passed; every other call goes ahead |
| `CallAccounting.LimiterIsAskedOnce` | `packages/core/src/client/rpc-client.ts:104-117` | The limiter is asked once per call: calls started = admissions + rate-limited calls |
| `CallAccounting.CallsThroughTheLimiter` | `packages/core/src/client/rpc-client.ts:104-117` | At most C + R * floor((latest - birth) / I) calls pass the limiter, however calls overlap |
| `CallAccounting.RefusedByBreakerCostsAToken` | `packages/core/src/client/rpc-client.ts:104-124` | A call that the breaker refuses has used up a token |
| `Benchmark.BenchmarkRun.constructor` | `packages/benchmark/src/shared/runner.ts:14-42` | All workers run to their first await, in order |
| `Benchmark.BenchmarkRun.TakeNext` | `packages/benchmark/src/shared/runner.ts:21-27` | The next request number, or the end of the worker |
| `Benchmark.BenchmarkRun.TaskSettles` | `packages/benchmark/src/shared/runner.ts:29-36` | One success or failure, one latency, and round the loop |
| `Benchmark.EveryRunKeepsPoolOk` | `packages/benchmark/src/shared/runner.ts:20-38` | In every interleaving each number taken is with the one worker that took it, until it settles once |
| `Benchmark.WorkIsConserved` | `packages/benchmark/src/shared/runner.ts:20-42` | When all workers have returned, each number below the total settled exactly once, successes + failures = latencies = total, and the counter is total + concurrency |
| `Benchmark.OutcomesAreCounted` | `packages/benchmark/src/shared/runner.ts:26-35` | The two counters are the successes and the failures of the requests, and each latency is the time from a worker's last settlement, or the start, to this one |
| `Benchmark.NoWorkerLeavesEarly` | `packages/benchmark/src/shared/runner.ts:21-27` | No worker returns while there is a number left to take |

## Left out

- Real sockets, timers, `Date.now` and `randomUUID`: events, a clock, and ids that the caller supplies. Which events the
  environment raises, and when, is arbitrary, save that `ConnectionProofs.EverySendSettledInTime` assumes that a due timer
  fires and `Heartbeat.OrderlyRunsDoNotLeak` an order of socket events.
- Liveness of the network: nothing is claimed about whether a connection attempt or a write ever settles.
- JSON, protobuf and gzip: a serializer or compressor is a pair of functions that may fail. Inverse laws are assumed only
  where a theorem names them, and only for the messages concerned; a message that does not come back, such as one with
  empty metadata in the protobuf serializer, takes nothing from the theorems about others.
- Deserialized values that are no well-formed message: the model's deserializers return a message or fail.
- One codec serves a connection across reconnects, so half a packet can survive into the next socket; `EndToEnd` speaks
  about one socket's lifetime, with a codec that starts empty.
- Memory sharing of `Buffer.subarray` and of chunks handed in by the caller: byte strings are values.
- Numbers beyond floor and max: NaN and fractional delays and counts, overflow past 2^53, and Node's clamping of timeouts.
- Loggers, apart from one that throws on a success in `call`; trace ids, metadata generation and error stacks; the number
  of milliseconds in the timeout error's message.
- `createProxy`, `RandomLoadBalancer`, `LeastActiveLoadBalancer`, `StaticRegistry` and `ServiceRegistry`: lookups and
  single loops without a deeper property.
- `getConnectionStats`, the map from endpoints to pools, `close` of pools and clients: plain delegation.
- The attempt inside the failover loop of `Failover` (connecting, sending, waiting) is one function from attempt number and
  endpoint to outcome; `Retries` has the sends as steps on connections, and leaves open which endpoint is selected and
  whether the policy retries.
- `RpcConnection`'s constructor takes limits that have been normalised; `Codec.RpcCodec.Create` models the normalisation.
- Errors of `server.listen` and `server.close`: only their completion is a step.
- Benchmark reports, percentiles, scenario files, warm-up requests and rounds; within one step of a benchmark or of
  `call` the clock is read once.
- ServerResponses.DrainSafety: assumes that nobody calls `listen` during a drain, because the code then breaks the promise,
  as `ListenDuringDrain.SafeExactlyBeforeListen` and `ListenDuringDrain.ListenDuringDrainBreaksSafety` show.
- Failover.DiscoveryClient.CallWithDiscoveryFailover: for a call that no other call of its service interleaves with;
  `Failover.SamePositionExactlyWhen` says what other selections do.
- EndToEnd.Correlation: assumes that a request or success which arrives under the send's own id was sent under it; other
  fields may change on the way, and about other messages nothing is assumed.
- Heartbeat.OrderlyRunsDoNotLeak: the order of connect and close events is the one Node normally gives, and an assumption here.
