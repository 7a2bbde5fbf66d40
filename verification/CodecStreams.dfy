/** What the streaming decoder promises about whole byte streams, whatever the chunk boundaries. */
module CodecStreams {
  import opened Common
  import opened Packet
  import opened Messages
  import opened Codec

  // ----- appending bytes -----

  /** A frame that is decided stays decided when more bytes arrive. */
  lemma NextFrameAppend(a: Bytes, b: Bytes)
    ensures NextFrame(a).BadHeader? ==> NextFrame(a + b) == NextFrame(a)
    ensures NextFrame(a).Whole? ==>
              NextFrame(a + b) == Whole(NextFrame(a).header, NextFrame(a).body, NextFrame(a).rest + b)
  {
    if |a| >= HEADER_LENGTH {
      assert (a + b)[..HEADER_LENGTH] == a[..HEADER_LENGTH];
      if NextFrame(a).Whole? {
        var n := HEADER_LENGTH + NextFrame(a).header.bodyLength;
        assert (a + b)[HEADER_LENGTH..n] == a[HEADER_LENGTH..n];
        assert (a + b)[n..] == a[n..] + b;
      }
    }
  }

  /** Draining two stretches of a stream one after the other is draining them at once. */
  lemma {:induction false} DrainAppend(cfg: CodecConfig, a: Bytes, b: Bytes)
    ensures Drain(cfg, a + b) == match Drain(cfg, a)
                                 case Returned(messages, rest) => Prepend(messages, Drain(cfg, rest + b))
                                 case Threw(e, rest) => Threw(e, rest + b)
    decreases |a|
  {
    NextFrameAppend(a, b);
    match NextFrame(a)
    case NeedMore => PrependNothing(Drain(cfg, a + b));
    case BadHeader(e) =>
    case Whole(header, body, rest) =>
      match DecodeBody(cfg, header, body)
      case Failure(e) =>
      case Success(message) =>
        DrainAppend(cfg, rest, b);
        if Drain(cfg, rest).Returned? {
          PrependTwice([message], Drain(cfg, rest).messages, Drain(cfg, Drain(cfg, rest).rest + b));
        }
  }

  // ----- a run of pushes -----

  /** A run of pushes up to the first one that throws. */
  datatype StreamOutcome = StreamOutcome(
    delivered: seq<RpcMessage>,
    queued: Bytes,
    thrown: Option<CodecError>,
    unread: seq<Bytes>)

  function PushAll(cfg: CodecConfig, queued: Bytes, chunks: seq<Bytes>): StreamOutcome
    decreases |chunks|
  {
    if chunks == [] then StreamOutcome([], queued, None, []) else
    match Drain(cfg, queued + chunks[0])
    case Threw(e, rest) => StreamOutcome([], rest, Some(e), chunks[1..])
    case Returned(messages, rest) =>
      var later := PushAll(cfg, rest, chunks[1..]);
      later.(delivered := messages + later.delivered)
  }

  /**
   * Chunk boundaries do not matter: a run of pushes throws exactly when one push of the whole stream does,
   * with the same error and the same bytes left over; otherwise it delivers the same messages in all.
   */
  lemma {:induction false} ChunkingIndependence(cfg: CodecConfig, queued: Bytes, chunks: seq<Bytes>)
    requires chunks == [] ==> Drain(cfg, queued) == Returned([], queued)
    ensures var run := PushAll(cfg, queued, chunks);
            match Drain(cfg, queued + Flatten(chunks))
            case Returned(messages, rest) => run == StreamOutcome(messages, rest, None, [])
            case Threw(e, rest) => run.thrown == Some(e) && run.queued + Flatten(run.unread) == rest
    decreases |chunks|
  {
    if chunks == [] {
      assert queued + Flatten(chunks) == queued;
    } else {
      assert queued + Flatten(chunks) == (queued + chunks[0]) + Flatten(chunks[1..]);
      DrainAppend(cfg, queued + chunks[0], Flatten(chunks[1..]));
      if Drain(cfg, queued + chunks[0]).Returned? {
        RestIsDrained(cfg, queued + chunks[0]);
        ChunkingIndependence(cfg, Drain(cfg, queued + chunks[0]).rest, chunks[1..]);
      }
    }
  }

  /** What a normal push leaves in the queue holds no further packet. */
  lemma {:induction false} RestIsDrained(cfg: CodecConfig, bytes: Bytes)
    requires Drain(cfg, bytes).Returned?
    ensures NextFrame(Drain(cfg, bytes).rest) == NeedMore
    ensures Drain(cfg, Drain(cfg, bytes).rest) == Returned([], Drain(cfg, bytes).rest)
    decreases |bytes|
  {
    if NextFrame(bytes).Whole? {
      RestIsDrained(cfg, NextFrame(bytes).rest);
    }
  }

  /** The queue never grows past one unfinished packet. */
  lemma QueueBound(cfg: CodecConfig, bytes: Bytes)
    requires Drain(cfg, bytes).Returned?
    ensures |Drain(cfg, bytes).rest| < HEADER_LENGTH + MAX_PACKET_LENGTH
  {
    RestIsDrained(cfg, bytes);
    var rest := Drain(cfg, bytes).rest;
    if |rest| >= HEADER_LENGTH {
      AcceptedHeaderIsReproduced(rest[..HEADER_LENGTH]);
    }
  }

  // ----- streams made of packets -----

  /** `packet` is one whole frame and nothing else. */
  predicate IsFrame(packet: Bytes) {
    NextFrame(packet).Whole? && NextFrame(packet).rest == []
  }

  /** The receiver takes `packet` for `message`. */
  predicate Accepts(cfg: CodecConfig, packet: Bytes, message: RpcMessage) {
    && IsFrame(packet)
    && DecodeBody(cfg, NextFrame(packet).header, NextFrame(packet).body) == Success(message)
  }

  predicate AcceptsAll(cfg: CodecConfig, packets: seq<Bytes>, messages: seq<RpcMessage>) {
    |packets| == |messages| && forall i | 0 <= i < |packets| :: Accepts(cfg, packets[i], messages[i])
  }

  /** How many of the packets are complete within the first `length` bytes of their concatenation. */
  function CompletePackets(packets: seq<Bytes>, length: nat): (k: nat)
    ensures k <= |packets|
    ensures |Flatten(packets[..k])| <= length
    ensures k < |packets| ==> |Flatten(packets[..k + 1])| > length
  {
    if packets == [] || |packets[0]| > length then
      assert packets != [] ==> packets[..1] == [packets[0]] && Flatten(packets[..1]) == packets[0] + Flatten(packets[..1][1..]);
      0
    else
      var k := CompletePackets(packets[1..], length - |packets[0]|);
      assert packets[..k + 1] == [packets[0]] + packets[1..][..k];
      assert packets[..k + 1][1..] == packets[1..][..k];
      assert k + 1 < |packets| ==> packets[..k + 2][1..] == packets[1..][..k + 1];
      1 + k
  }

  /** Every proper prefix of a frame asks for more bytes. */
  lemma FramePrefixNeedsMore(packet: Bytes, n: nat)
    requires IsFrame(packet) && n < |packet|
    ensures NextFrame(packet[..n]) == NeedMore
  {
    NextFrameAppend(packet[..n], packet[n..]);
    assert packet == packet[..n] + packet[n..];
  }

  /** One accepted packet at the front of a stream comes out as its message. */
  lemma SkipOne(cfg: CodecConfig, packet: Bytes, message: RpcMessage, more: Bytes)
    requires Accepts(cfg, packet, message)
    ensures Drain(cfg, packet + more) == Prepend([message], Drain(cfg, more))
  {
    NextFrameAppend(packet, more);
    assert [] + more == more;
  }

  lemma PrependFirst(messages: seq<RpcMessage>, whole: PushOutcome, later: PushOutcome, tail: PushOutcome)
    requires messages != []
    requires whole == Prepend([messages[0]], later) && later == Prepend(messages[1..], tail)
    ensures whole == Prepend(messages, tail)
  {
    PrependTwice([messages[0]], messages[1..], tail);
    assert [messages[0]] + messages[1..] == messages;
  }

  lemma FlattenFront(packets: seq<Bytes>, tail: Bytes)
    requires packets != []
    ensures Flatten(packets) + tail == packets[0] + (Flatten(packets[1..]) + tail)
  {
  }

  /** Accepted packets at the front of a stream come out as their messages. */
  lemma {:induction false} SkipAccepted(cfg: CodecConfig, packets: seq<Bytes>, messages: seq<RpcMessage>, tail: Bytes)
    requires AcceptsAll(cfg, packets, messages)
    ensures Drain(cfg, Flatten(packets) + tail) == Prepend(messages, Drain(cfg, tail))
    decreases |packets|
  {
    if packets == [] {
      assert Flatten(packets) + tail == tail;
      PrependNothing(Drain(cfg, tail));
    } else {
      var more := Flatten(packets[1..]) + tail;
      FlattenFront(packets, tail);
      assert Accepts(cfg, packets[0], messages[0]);
      SkipOne(cfg, packets[0], messages[0], more);
      SkipAccepted(cfg, packets[1..], messages[1..], tail);
      PrependFirst(messages, Drain(cfg, packets[0] + more), Drain(cfg, more), Drain(cfg, tail));
    }
  }

  /** The first `length` bytes are the complete packets, then a proper prefix of the next one. */
  lemma PrefixSplits(packets: seq<Bytes>, length: nat)
    requires length <= |Flatten(packets)|
    ensures var k := CompletePackets(packets, length);
            var part := Flatten(packets)[|Flatten(packets[..k])|..length];
            && Flatten(packets)[..length] == Flatten(packets[..k]) + part
            && (k == |packets| ==> part == [])
            && (k < |packets| ==> |part| < |packets[k]| && part == packets[k][..|part|])
  {
    var k := CompletePackets(packets, length);
    FlattenAppend(packets[..k], packets[k..]);
    assert packets == packets[..k] + packets[k..];
    if k < |packets| {
      FlattenSnoc(packets[..k], packets[k]);
      assert packets[..k + 1] == packets[..k] + [packets[k]];
      CutInside(Flatten(packets[..k]), packets[k], Flatten(packets[k..][1..]), length);
    }
  }

  lemma CutInside(before: Bytes, middle: Bytes, after: Bytes, length: nat)
    requires |before| <= length < |before| + |middle|
    ensures var all := before + (middle + after);
            && all[|before|..length] == middle[..length - |before|]
            && all[..length] == before + all[|before|..length]
  {
  }

  /**
   * After any prefix of a stream of accepted packets, exactly the messages whose packets are complete come out,
   * and exactly the bytes of the unfinished packet stay queued.
   */
  lemma DrainPrefix(cfg: CodecConfig, packets: seq<Bytes>, messages: seq<RpcMessage>, n: nat)
    requires AcceptsAll(cfg, packets, messages) && n <= |Flatten(packets)|
    ensures var k := CompletePackets(packets, n);
            Drain(cfg, Flatten(packets)[..n]) == Returned(messages[..k], Flatten(packets)[|Flatten(packets[..k])|..n])
  {
    var k := CompletePackets(packets, n);
    var part := Flatten(packets)[|Flatten(packets[..k])|..n];
    PrefixSplits(packets, n);
    SkipAccepted(cfg, packets[..k], messages[..k], part);
    if k < |packets| {
      assert Accepts(cfg, packets[k], messages[k]);
      FramePrefixNeedsMore(packets[k], |part|);
    }
    assert Drain(cfg, part) == Returned([], part);
    assert messages[..k] + [] == messages[..k];
  }

  /** Chunks that are a prefix of such a stream come out as that prefix does. */
  lemma ChunksOfPrefix(cfg: CodecConfig, packets: seq<Bytes>, messages: seq<RpcMessage>, chunks: seq<Bytes>, n: nat)
    requires AcceptsAll(cfg, packets, messages) && n <= |Flatten(packets)| && Flatten(chunks) == Flatten(packets)[..n]
    ensures var k := CompletePackets(packets, n);
            PushAll(cfg, [], chunks)
            == StreamOutcome(messages[..k], Flatten(packets)[|Flatten(packets[..k])|..n], None, [])
  {
    assert [] + Flatten(chunks) == Flatten(packets)[..n];
    DrainPrefix(cfg, packets, messages, n);
    assert Drain(cfg, []) == Returned([], []);
    ChunkingIndependence(cfg, [], chunks);
  }

  /**
   * The framing promise: cut the packets of any accepted message list into any chunks (empty ones included) and
   * stop anywhere; the pushes deliver exactly the messages received in full and keep exactly the unfinished bytes.
   */
  lemma StreamDelivery(cfg: CodecConfig, packets: seq<Bytes>, messages: seq<RpcMessage>, chunks: seq<Bytes>)
    requires AcceptsAll(cfg, packets, messages)
    requires Flatten(chunks) <= Flatten(packets)
    ensures var n := |Flatten(chunks)|;
            var k := CompletePackets(packets, n);
            PushAll(cfg, [], chunks)
            == StreamOutcome(messages[..k], Flatten(packets)[|Flatten(packets[..k])|..n], None, [])
    ensures Flatten(chunks) == Flatten(packets) ==> PushAll(cfg, [], chunks) == StreamOutcome(messages, [], None, [])
  {
    var n := |Flatten(chunks)|;
    ChunksOfPrefix(cfg, packets, messages, chunks, n);
    if Flatten(chunks) == Flatten(packets) {
      WholeStreamIsComplete(cfg, packets, messages);
      assert messages[..|packets|] == messages && packets[..|packets|] == packets;
    }
  }

  lemma {:induction false} WholeStreamIsComplete(cfg: CodecConfig, packets: seq<Bytes>, messages: seq<RpcMessage>)
    requires AcceptsAll(cfg, packets, messages)
    ensures CompletePackets(packets, |Flatten(packets)|) == |packets|
    decreases |packets|
  {
    if packets != [] {
      WholeStreamIsComplete(cfg, packets[1..], messages[1..]);
    }
  }

  // ----- errors -----

  /** A bad header consumes none of its own bytes, and every later push throws the same error again. */
  lemma BadHeaderSticks(cfg: CodecConfig, packets: seq<Bytes>, messages: seq<RpcMessage>, bad: Bytes, later: Bytes)
    requires AcceptsAll(cfg, packets, messages)
    requires NextFrame(bad).BadHeader?
    ensures var e := BadPacket(NextFrame(bad).error);
            && Drain(cfg, Flatten(packets) + bad) == Threw(e, bad)
            && Drain(cfg, bad + later) == Threw(e, bad + later)
  {
    NextFrameAppend(bad, later);
    SkipAccepted(cfg, packets, messages, bad);
  }

  lemma BadBodyThrows(cfg: CodecConfig, bad: Bytes, tail: Bytes)
    requires IsFrame(bad) && DecodeBody(cfg, NextFrame(bad).header, NextFrame(bad).body).Failure?
    ensures Drain(cfg, bad + tail) == Threw(DecodeBody(cfg, NextFrame(bad).header, NextFrame(bad).body).error, tail)
  {
    NextFrameAppend(bad, tail);
    assert [] + tail == tail;
  }

  /** Two pushes, of which the second throws. */
  lemma SecondPushThrows(cfg: CodecConfig, first: Bytes, second: Bytes, messages: seq<RpcMessage>, e: CodecError, rest: Bytes)
    requires Drain(cfg, first) == Returned(messages, []) && Drain(cfg, second) == Threw(e, rest)
    ensures PushAll(cfg, [], [first, second]) == StreamOutcome(messages, rest, Some(e), [])
  {
    var chunks := [first, second];
    assert [] + first == first && [] + second == second && chunks[1..] == [second];
    assert PushAll(cfg, [], [second]) == StreamOutcome([], rest, Some(e), []);
  }

  lemma OnePushThrows(cfg: CodecConfig, chunk: Bytes, e: CodecError, rest: Bytes)
    requires Drain(cfg, chunk) == Threw(e, rest)
    ensures PushAll(cfg, [], [chunk]) == StreamOutcome([], rest, Some(e), [])
  {
    var chunks := [chunk];
    assert [] + chunks[0] == chunk;
    assert chunks[1..] == [];
  }

  /** A packet that fails after its header consumes exactly itself; the stream goes on behind it. */
  lemma BodyFailureSkipsOnePacket(cfg: CodecConfig, packets: seq<Bytes>, messages: seq<RpcMessage>, bad: Bytes, tail: Bytes)
    requires AcceptsAll(cfg, packets, messages)
    requires IsFrame(bad) && DecodeBody(cfg, NextFrame(bad).header, NextFrame(bad).body).Failure?
    ensures var e := DecodeBody(cfg, NextFrame(bad).header, NextFrame(bad).body).error;
            && Drain(cfg, Flatten(packets) + (bad + tail)) == Threw(e, tail)
            && PushAll(cfg, [], [Flatten(packets), bad + tail]) == StreamOutcome(messages, tail, Some(e), [])
            && PushAll(cfg, [], [Flatten(packets) + (bad + tail)]) == StreamOutcome([], tail, Some(e), [])
  {
    var e := DecodeBody(cfg, NextFrame(bad).header, NextFrame(bad).body).error;
    BadBodyThrows(cfg, bad, tail);
    SkipAccepted(cfg, packets, messages, bad + tail);
    OnePushThrows(cfg, Flatten(packets) + (bad + tail), e, tail);
    SkipAccepted(cfg, packets, messages, []);
    assert Flatten(packets) + [] == Flatten(packets) && messages + [] == messages;
    SecondPushThrows(cfg, Flatten(packets), bad + tail, messages, e, tail);
  }

  // ----- encode, then push -----

  /** The serializer registered under the default one's name gives `message` back. */
  predicate SerializerRoundTrips(cfg: CodecConfig, message: RpcMessage) {
    var serialized := cfg.defaultSerializer.serialize(message);
    && serialized.Success?
    && cfg.defaultSerializer.name in cfg.serializers
    && cfg.serializers[cfg.defaultSerializer.name].deserialize(serialized.value) == Success(message)
  }

  predicate CompressorRoundTrips(cfg: CodecConfig, serialized: Bytes) {
    ShouldCompress(cfg, serialized) ==>
      var sent := SentBody(cfg, serialized);
      sent.Success? && cfg.compression.value.compressor.decompress(sent.value) == Success(serialized)
  }

  /** What `encode` sends is always one whole frame with the header it intended. */
  lemma EncodedIsFrame(cfg: CodecConfig, message: RpcMessage)
    requires Encoded(cfg, message).Success?
    ensures IsFrame(Encoded(cfg, message).value)
    ensures var serialized := cfg.defaultSerializer.serialize(message).value;
            var header := PacketHeader(MAGIC_NUMBER, PROTOCOL_VERSION, cfg.defaultSerializer.name, TypeOf(message),
                                       if ShouldCompress(cfg, serialized) then 1 else 0,
                                       |SentBody(cfg, serialized).value|);
            NextFrame(Encoded(cfg, message).value) == Whole(header, SentBody(cfg, serialized).value, [])
  {
    var serialized := cfg.defaultSerializer.serialize(message).value;
    var body := SentBody(cfg, serialized).value;
    var header := PacketHeader(MAGIC_NUMBER, PROTOCOL_VERSION, cfg.defaultSerializer.name, TypeOf(message),
                               if ShouldCompress(cfg, serialized) then 1 else 0, |body|);
    var packet := Encoded(cfg, message).value;
    assert packet == HeaderBytes(header) + body;
    assert packet[..HEADER_LENGTH] == HeaderBytes(header) + [];
    HeaderRoundTrip(header, []);
    assert packet[HEADER_LENGTH..HEADER_LENGTH + |body|] == body;
  }

  /** `encode` succeeds exactly within the two length limits that it checks. */
  lemma EncodeSucceedsWithinLimits(cfg: CodecConfig, message: RpcMessage)
    requires SerializerRoundTrips(cfg, message)
    requires CompressorRoundTrips(cfg, cfg.defaultSerializer.serialize(message).value)
    ensures var serialized := cfg.defaultSerializer.serialize(message).value;
            Encoded(cfg, message).Success? <==>
              |serialized| <= cfg.maxBodyLength && |SentBody(cfg, serialized).value| <= MAX_PACKET_LENGTH
  {
  }

  /**
   * The round trip, exactly: pushing an encoded message back under the same configuration returns it alone if and
   * only if the body as sent is within `maxBodyLength` and the body as serialized is within
   * `maxDecompressedBodyLength`. Otherwise the push throws a length error and drops the packet.
   */
  lemma CodecRoundTrip(cfg: CodecConfig, message: RpcMessage)
    requires SerializerRoundTrips(cfg, message)
    requires CompressorRoundTrips(cfg, cfg.defaultSerializer.serialize(message).value)
    requires Encoded(cfg, message).Success?
    ensures var serialized := cfg.defaultSerializer.serialize(message).value;
            var packet := Encoded(cfg, message).value;
            var fits := |SentBody(cfg, serialized).value| <= cfg.maxBodyLength
                        && |serialized| <= cfg.maxDecompressedBodyLength;
            && (Accepts(cfg, packet, message) <==> fits)
            && (fits ==> Drain(cfg, packet) == Returned([message], []))
            && (!fits ==> Drain(cfg, packet).Threw? && Drain(cfg, packet).error.BodyTooLong?
                          && Drain(cfg, packet).rest == [])
  {
    EncodedIsFrame(cfg, message);
    assert Drain(cfg, []) == Returned([], []);
    assert [message] + [] == [message];
  }

  /** Without compression and with the default limits, whatever `encode` sends is received. */
  lemma DefaultLimitsAlwaysRoundTrip(cfg: CodecConfig, message: RpcMessage)
    requires cfg.compression.None? && cfg.maxBodyLength <= cfg.maxDecompressedBodyLength
    requires SerializerRoundTrips(cfg, message) && Encoded(cfg, message).Success?
    ensures Drain(cfg, Encoded(cfg, message).value) == Returned([message], [])
  {
    CodecRoundTrip(cfg, message);
  }

  /**
   * A compressor that grows its input defeats the round trip even though `encode` succeeds: the serialized length
   * is what `encode` checks, the compressed one is what `push` checks.
   */
  lemma GrowingCompressorBreaksRoundTrip(message: RpcMessage)
    ensures var serializer := Serializer(Json, (m: RpcMessage) => Success([7]), (b: Bytes) => Success(message));
            var compressor := Compressor((b: Bytes) => Success(b + [0]),
                                         (b: Bytes) => if |b| > 0 then Success(b[..|b| - 1]) else Failure(CompressorFailed));
            var cfg := CodecConfig(serializer, map[Json := serializer], Some(Compression(compressor, 0)), 1, 1);
            && SerializerRoundTrips(cfg, message) && CompressorRoundTrips(cfg, [7])
            && Encoded(cfg, message).Success?
            && Drain(cfg, Encoded(cfg, message).value) == Threw(BodyTooLong(2, 1), [])
  {
    var serializer := Serializer(Json, (m: RpcMessage) => Success([7]), (b: Bytes) => Success(message));
    var compressor := Compressor((b: Bytes) => Success(b + [0]),
                                 (b: Bytes) => if |b| > 0 then Success(b[..|b| - 1]) else Failure(CompressorFailed));
    var cfg := CodecConfig(serializer, map[Json := serializer], Some(Compression(compressor, 0)), 1, 1);
    assert cfg.defaultSerializer.serialize(message).value == [7];
    var seven: Bytes := [7];
    assert seven + [0] == [7, 0];
    assert SentBody(cfg, [7]) == Success([7, 0]);
    assert [7, 0][..1] == [7];
    EncodedIsFrame(cfg, message);
  }

  // ----- the bytes on the wire -----

  /** The packet of a message, byte by byte: magic, version, serializer, type, flags, big-endian body length, body. */
  lemma EncodedOnTheWire(cfg: CodecConfig, m: RpcMessage)
    requires Encoded(cfg, m).Success?
    ensures var packet, serialized := Encoded(cfg, m).value, cfg.defaultSerializer.serialize(m).value;
            var compressed := cfg.compression.Some? && |serialized| >= cfg.compression.value.thresholdBytes;
            && |packet| >= 10
            && packet[..3] == [0xca, 0xfe, 1]
            && packet[3] == (if cfg.defaultSerializer.name == Json then 1 else 2)
            && packet[4] == (if m.Request? then 1 else if m.Response? then 2 else if m.Ping? then 3 else 4)
            && packet[5] == (if compressed then 1 else 0)
            && packet[6] as int * 0x100_0000 + packet[7] as int * 0x1_0000 + packet[8] as int * 0x100 + packet[9] as int
               == |packet| - 10
            && |serialized| <= cfg.maxBodyLength
            && (!compressed ==> packet[10..] == serialized)
            && (compressed ==> cfg.compression.value.compressor.compress(serialized) == Success(packet[10..]))
  {
    var serialized := cfg.defaultSerializer.serialize(m).value;
    var body := SentBody(cfg, serialized).value;
    var header := PacketHeader(MAGIC_NUMBER, PROTOCOL_VERSION, cfg.defaultSerializer.name, TypeOf(m),
                               if ShouldCompress(cfg, serialized) then 1 else 0, |body|);
    var packet := Encoded(cfg, m).value;
    assert packet == HeaderBytes(header) + body;
    assert packet[10..] == body;
    FourBytes(|body|);
  }

  lemma FourBytes(n: nat)
    requires n <= MAX_PACKET_LENGTH
    ensures n / 0x100_0000 * 0x100_0000 + n / 0x1_0000 % 0x100 * 0x1_0000 + n / 0x100 % 0x100 * 0x100 + n % 0x100 == n
  {
  }

  /** What a packet's body says it is: the payload, decompressed when the lowest flag is set. */
  predicate Unpacks(cfg: CodecConfig, flags: int, body: Bytes, payload: Bytes) {
    if flags % 2 == 1 then
      cfg.compression.Some? && cfg.compression.value.compressor.decompress(body) == Success(payload)
    else payload == body
  }

  predicate HasType(m: RpcMessage, messageType: MessageType) {
    match messageType
    case RequestType => m.Request?
    case ResponseType => m.Response?
    case PingType => m.Ping?
    case PongType => m.Pong?
  }

  /**
   * A packet is taken for a message exactly when its body is within the limit, before and after decompression, its
   * serializer is registered and reads that message, and the header announces the message's type.
   */
  lemma DecodesExactlyWhen(cfg: CodecConfig, header: PacketHeader, body: Bytes, m: RpcMessage)
    ensures DecodeBody(cfg, header, body) == Success(m) <==>
            && |body| <= cfg.maxBodyLength
            && header.serializer in cfg.serializers
            && HasType(m, header.messageType)
            && exists payload :: Unpacks(cfg, header.flags, body, payload)
                                 && |payload| <= cfg.maxDecompressedBodyLength
                                 && cfg.serializers[header.serializer].deserialize(payload) == Success(m)
  {
    if DecodeBody(cfg, header, body).Success? {
      var payload := if header.flags % 2 == 1 then Decompress(cfg, body).value else body;
      assert Unpacks(cfg, header.flags, body, payload);
    }
  }
}
