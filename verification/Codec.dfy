/** Encoding and streaming decoding of messages (packages/protocol/src/codec.ts). */
module Codec {
  import opened Common
  import opened Packet
  import opened Messages
  import BufferQueue

  datatype CodecError =
    | BadPacket(packetError: PacketError)
    | BodyTooLong(length: nat, limit: nat)
    | SerializerNotRegistered(name: SerializerName)
    | NoCompressor
    | MessageTypeMismatch(expected: MessageType, actual: MessageType)
    | InvalidLimit
    | SerializerFailed
    | CompressorFailed

  /** A serializer is any pair of functions that may throw; which messages it round-trips is said where it matters. */
  datatype Serializer = Serializer(
    name: SerializerName,
    serialize: RpcMessage -> Result<Bytes, CodecError>,
    deserialize: Bytes -> Result<RpcMessage, CodecError>)

  datatype Compressor = Compressor(
    compress: Bytes -> Result<Bytes, CodecError>,
    decompress: Bytes -> Result<Bytes, CodecError>)

  datatype Compression = Compression(compressor: Compressor, thresholdBytes: int)

  datatype CodecOptions = CodecOptions(
    serializer: Serializer,
    serializers: seq<Serializer>,
    compression: Option<Compression>,
    maxBodyLength: Option<JsNumber>,
    maxDecompressedBodyLength: Option<JsNumber>)

  /** What the constructor makes of the options. */
  datatype CodecConfig = CodecConfig(
    defaultSerializer: Serializer,
    serializers: map<SerializerName, Serializer>,
    compression: Option<Compression>,
    maxBodyLength: nat,
    maxDecompressedBodyLength: nat)

  // ----- construction -----

  function NormalizeLimit(value: Option<JsNumber>, fallback: nat): (r: Result<nat, CodecError>)
    ensures r.Success? <==> value.None? || (value.value.Finite? && value.value.value > 0.0)
    ensures value.None? ==> r == Success(fallback)
    ensures r.Success? && value.Some? ==> r.value as real <= value.value.value < r.value as real + 1.0
  {
    match value
    case None => Success(fallback)
    case Some(NonFinite) => Failure(InvalidLimit)
    case Some(Finite(v)) => if v <= 0.0 then Failure(InvalidLimit) else Success(v.Floor)
  }

  /**
   * The constructor's message asks for a limit "greater than 0", yet a limit of 0 gets through:
   * exactly when the option is a fraction between 0 and 1, which is floored after the test.
   */
  lemma ZeroLimitAccepted(value: JsNumber, fallback: nat)
    ensures NormalizeLimit(Some(value), fallback) == Success(0) <==> value.Finite? && 0.0 < value.value < 1.0
  {
    if value.Finite? && value.value > 0.0 {
      var limit := NormalizeLimit(Some(value), fallback).value;
      assert limit == 0 || limit >= 1;
    }
  }

  /** `serializers` in registration order: the default first, then the others, each replacing its namesake. */
  function Registered(list: seq<Serializer>): map<SerializerName, Serializer> {
    if list == [] then map[] else
    var last := list[|list| - 1];
    Registered(list[..|list| - 1])[last.name := last]
  }

  function Configure(options: CodecOptions): Result<CodecConfig, CodecError> {
    match NormalizeLimit(options.maxBodyLength, MAX_PACKET_LENGTH)
    case Failure(e) => Failure(e)
    case Success(maxBodyLength) =>
      match NormalizeLimit(options.maxDecompressedBodyLength, maxBodyLength)
      case Failure(e) => Failure(e)
      case Success(maxDecompressedBodyLength) =>
        Success(CodecConfig(options.serializer, Registered([options.serializer] + options.serializers),
                            options.compression, maxBodyLength, maxDecompressedBodyLength))
  }

  // ----- one packet -----

  /** What the front of a byte stream holds. */
  datatype Frame =
    | NeedMore
    | BadHeader(error: PacketError)
    | Whole(header: PacketHeader, body: Bytes, rest: Bytes)

  function NextFrame(bytes: Bytes): (f: Frame)
    ensures f.Whole? ==> |bytes| == HEADER_LENGTH + |f.body| + |f.rest|
  {
    if |bytes| < HEADER_LENGTH then NeedMore else
    match DecodePacketHeader(bytes[..HEADER_LENGTH])
    case Failure(e) => BadHeader(e)
    case Success(header) =>
      if |bytes| < HEADER_LENGTH + header.bodyLength then NeedMore else
      Whole(header, bytes[HEADER_LENGTH..HEADER_LENGTH + header.bodyLength], bytes[HEADER_LENGTH + header.bodyLength..])
  }

  function CheckLength(length: nat, limit: nat): Option<CodecError> {
    if length > limit then Some(BodyTooLong(length, limit)) else None
  }

  function Decompress(cfg: CodecConfig, payload: Bytes): Result<Bytes, CodecError> {
    if cfg.compression.None? then Failure(NoCompressor) else cfg.compression.value.compressor.decompress(payload)
  }

  /** The checks and conversions that a complete packet goes through, in order. */
  function DecodeBody(cfg: CodecConfig, header: PacketHeader, body: Bytes): Result<RpcMessage, CodecError> {
    if CheckLength(|body|, cfg.maxBodyLength).Some? then Failure(CheckLength(|body|, cfg.maxBodyLength).value)
    else if header.serializer !in cfg.serializers then Failure(SerializerNotRegistered(header.serializer))
    else
      var payload := if header.flags % 2 == 1 then Decompress(cfg, body) else Success(body);
      if payload.Failure? then Failure(payload.error)
      else if CheckLength(|payload.value|, cfg.maxDecompressedBodyLength).Some? then
        Failure(CheckLength(|payload.value|, cfg.maxDecompressedBodyLength).value)
      else
        var message := cfg.serializers[header.serializer].deserialize(payload.value);
        if message.Failure? then Failure(message.error)
        else if TypeOf(message.value) != header.messageType then
          Failure(MessageTypeMismatch(header.messageType, TypeOf(message.value)))
        else Success(message.value)
  }

  // ----- encoding -----

  predicate ShouldCompress(cfg: CodecConfig, serialized: Bytes) {
    cfg.compression.Some? && |serialized| >= cfg.compression.value.thresholdBytes
  }

  /** The body that goes on the wire. */
  function SentBody(cfg: CodecConfig, serialized: Bytes): Result<Bytes, CodecError> {
    if ShouldCompress(cfg, serialized) then cfg.compression.value.compressor.compress(serialized) else Success(serialized)
  }

  function Encoded(cfg: CodecConfig, message: RpcMessage): Result<Bytes, CodecError> {
    match cfg.defaultSerializer.serialize(message)
    case Failure(e) => Failure(e)
    case Success(serialized) =>
      if |serialized| > cfg.maxBodyLength then Failure(BodyTooLong(|serialized|, cfg.maxBodyLength)) else
      match SentBody(cfg, serialized)
      case Failure(e) => Failure(e)
      case Success(body) =>
        var flags := if ShouldCompress(cfg, serialized) then PACKET_FLAG_COMPRESSED else 0;
        match PacketBytes(body, cfg.defaultSerializer.name, TypeOf(message), Some(flags))
        case Failure(e) => Failure(BadPacket(e))
        case Success(packet) => Success(packet)
  }

  // ----- the streaming decoder -----

  /** One `push`: the messages it returns, or the error it throws, and in both cases what is left in the queue. */
  datatype PushOutcome =
    | Returned(messages: seq<RpcMessage>, rest: Bytes)
    | Threw(error: CodecError, rest: Bytes)

  /** The outcome of a push that leaves `bytes` in the queue before decoding starts. */
  function Drain(cfg: CodecConfig, bytes: Bytes): (r: PushOutcome)
    decreases |bytes|
  {
    match NextFrame(bytes)
    case NeedMore => Returned([], bytes)
    case BadHeader(e) => Threw(BadPacket(e), bytes)
    case Whole(header, body, rest) =>
      match DecodeBody(cfg, header, body)
      case Failure(e) => Threw(e, rest)
      case Success(message) => Prepend([message], Drain(cfg, rest))
  }

  function Prepend(messages: seq<RpcMessage>, outcome: PushOutcome): PushOutcome {
    match outcome
    case Returned(more, rest) => Returned(messages + more, rest)
    case Threw(e, rest) => outcome
  }

  lemma PrependNothing(outcome: PushOutcome)
    ensures Prepend([], outcome) == outcome
  {
    if outcome.Returned? {
      assert [] + outcome.messages == outcome.messages;
    }
  }

  lemma PrependTwice(a: seq<RpcMessage>, b: seq<RpcMessage>, outcome: PushOutcome)
    ensures Prepend(a, Prepend(b, outcome)) == Prepend(a + b, outcome)
  {
    if outcome.Returned? {
      assert a + (b + outcome.messages) == (a + b) + outcome.messages;
    }
  }

  /** What one turn of the decoding loop finds. */
  datatype NextMessage = Incomplete | Undecodable(error: CodecError) | Decoded(message: RpcMessage)

  class RpcCodec {
    const queue: BufferQueue.BufferQueue
    const defaultSerializer: Serializer
    var serializers: map<SerializerName, Serializer>
    const compression: Option<Compression>
    const maxBodyLength: nat
    const maxDecompressedBodyLength: nat

    ghost function Config(): CodecConfig
      reads this
    {
      CodecConfig(defaultSerializer, serializers, compression, maxBodyLength, maxDecompressedBodyLength)
    }

    ghost predicate Valid()
      reads this, queue
    {
      queue.Valid()
    }

    constructor (serializer: Serializer, compression: Option<Compression>, maxBodyLength: nat,
                 maxDecompressedBodyLength: nat)
      ensures Valid() && fresh(queue) && queue.Contents() == []
      ensures Config() == CodecConfig(serializer, map[serializer.name := serializer], compression, maxBodyLength,
                                      maxDecompressedBodyLength)
    {
      queue := new BufferQueue.BufferQueue();
      this.defaultSerializer := serializer;
      this.compression := compression;
      this.maxBodyLength := maxBodyLength;
      this.maxDecompressedBodyLength := maxDecompressedBodyLength;
      this.serializers := map[serializer.name := serializer];
    }

    /** Construction from options; invalid limits throw before anything is registered. */
    static method Create(options: CodecOptions) returns (r: Result<RpcCodec, CodecError>)
      ensures Configure(options).Failure? ==> r == Failure(Configure(options).error)
      ensures Configure(options).Success? ==>
                && r.Success? && fresh(r.value) && fresh(r.value.queue) && r.value.Valid()
                && r.value.Config() == Configure(options).value
                && r.value.queue.Contents() == []
    {
      var maxBodyLength := NormalizeLimit(options.maxBodyLength, MAX_PACKET_LENGTH);
      if maxBodyLength.Failure? {
        return Failure(maxBodyLength.error);
      }
      var maxDecompressedBodyLength := NormalizeLimit(options.maxDecompressedBodyLength, maxBodyLength.value);
      if maxDecompressedBodyLength.Failure? {
        return Failure(maxDecompressedBodyLength.error);
      }
      var codec := new RpcCodec(options.serializer, options.compression, maxBodyLength.value,
                                maxDecompressedBodyLength.value);
      ghost var all := [options.serializer] + options.serializers;
      assert all[..1] == [options.serializer] && all[..1][..0] == [];
      for i := 0 to |options.serializers|
        invariant codec.Valid() && codec.queue.Contents() == [] && fresh(codec) && fresh(codec.queue)
        invariant codec.Config() == Configure(options).value.(serializers := Registered(all[..i + 1]))
      {
        codec.RegisterSerializer(options.serializers[i]);
        assert all[..i + 2][..i + 1] == all[..i + 1];
      }
      assert all[..|options.serializers| + 1] == all;
      r := Success(codec);
    }

    method RegisterSerializer(serializer: Serializer)
      modifies this
      ensures serializers == old(serializers)[serializer.name := serializer]
    {
      serializers := serializers[serializer.name := serializer];
    }

    method Encode(message: RpcMessage) returns (r: Result<Bytes, CodecError>)
      ensures r == Encoded(Config(), message)
    {
      var serialized := defaultSerializer.serialize(message);
      if serialized.Failure? {
        return Failure(serialized.error);
      }
      if |serialized.value| > maxBodyLength {
        return Failure(BodyTooLong(|serialized.value|, maxBodyLength));
      }
      var shouldCompress := compression.Some? && |serialized.value| >= compression.value.thresholdBytes;
      var payload := serialized;
      if shouldCompress {
        payload := compression.value.compressor.compress(serialized.value);
        if payload.Failure? {
          return Failure(payload.error);
        }
      }
      var packet := EncodePacket(payload.value, defaultSerializer.name, TypeOf(message),
                                 Some(if shouldCompress then PACKET_FLAG_COMPRESSED else 0));
      match packet {
        case Failure(e) => r := Failure(BadPacket(e));
        case Success(bytes) => r := Success(bytes);
      }
    }

    /** Messages decoded earlier in a push that throws are lost: they sit in a local list. */
    method Push(chunk: Bytes) returns (r: Result<seq<RpcMessage>, CodecError>)
      requires Valid()
      modifies queue
      ensures Valid()
      ensures queue.Contents() == Drain(Config(), old(queue.Contents()) + chunk).rest
      ensures r == match Drain(Config(), old(queue.Contents()) + chunk)
                   case Returned(messages, _) => Success(messages)
                   case Threw(e, _) => Failure(e)
    {
      queue.Push(chunk);
      ghost var start := queue.Contents();
      var messages: seq<RpcMessage> := [];
      PrependNothing(Drain(Config(), start));
      while queue.totalLength >= HEADER_LENGTH
        invariant Valid()
        invariant Drain(Config(), start) == Prepend(messages, Drain(Config(), queue.Contents()))
        decreases queue.totalLength
      {
        ghost var later := Drain(Config(), queue.Contents());
        var next := DecodeNext();
        match next {
          case Incomplete =>
            break;
          case Undecodable(e) =>
            return Failure(e);
          case Decoded(message) =>
            PrependTwice(messages, [message], Drain(Config(), queue.Contents()));
            messages := messages + [message];
        }
      }
      assert Prepend(messages, Returned([], queue.Contents())) == Returned(messages, queue.Contents());
      r := Success(messages);
    }

    /** One turn of the loop in `push`: peek at the header, and take the packet if all of it is there. */
    method DecodeNext() returns (next: NextMessage)
      requires Valid() && |queue.Contents()| >= HEADER_LENGTH
      modifies queue
      ensures Valid()
      ensures match NextFrame(old(queue.Contents()))
              case NeedMore => next == Incomplete && unchanged(queue)
              case BadHeader(e) => next == Undecodable(BadPacket(e)) && unchanged(queue)
              case Whole(header, body, rest) =>
                && queue.Contents() == rest
                && next == match DecodeBody(Config(), header, body)
                           case Failure(e) => Undecodable(e)
                           case Success(message) => Decoded(message)
    {
      ghost var bytes := queue.Contents();
      var header := queue.Peek(HEADER_LENGTH);
      var packetHeader := DecodePacketHeader(header.value);
      if packetHeader.Failure? {
        return Undecodable(BadPacket(packetHeader.error));
      }
      if queue.totalLength < HEADER_LENGTH + packetHeader.value.bodyLength {
        return Incomplete;
      }
      AcceptedHeaderIsReproduced(header.value);
      ReadsTakeOneFrame(bytes, packetHeader.value);
      var _ := queue.Read(HEADER_LENGTH);
      var body := queue.Read(packetHeader.value.bodyLength);
      var message := DecodePacketBody(packetHeader.value, body.value);
      match message {
        case Failure(e) => next := Undecodable(e);
        case Success(m) => next := Decoded(m);
      }
    }

    /** The part of that turn after both reads. */
    method DecodePacketBody(header: PacketHeader, body: Bytes) returns (r: Result<RpcMessage, CodecError>)
      ensures r == DecodeBody(Config(), header, body)
    {
      if |body| > maxBodyLength {
        return Failure(BodyTooLong(|body|, maxBodyLength));
      }
      if header.serializer !in serializers {
        return Failure(SerializerNotRegistered(header.serializer));
      }
      var payload := Success(body);
      if header.flags % 2 == 1 {
        if compression.None? {
          return Failure(NoCompressor);
        }
        payload := compression.value.compressor.decompress(body);
        if payload.Failure? {
          return Failure(payload.error);
        }
      }
      if |payload.value| > maxDecompressedBodyLength {
        return Failure(BodyTooLong(|payload.value|, maxDecompressedBodyLength));
      }
      var message := serializers[header.serializer].deserialize(payload.value);
      if message.Failure? {
        return Failure(message.error);
      }
      if TypeOf(message.value) != header.messageType {
        return Failure(MessageTypeMismatch(header.messageType, TypeOf(message.value)));
      }
      r := message;
    }
  }

  lemma ReadsTakeOneFrame(bytes: Bytes, header: PacketHeader)
    requires |bytes| >= HEADER_LENGTH && DecodePacketHeader(bytes[..HEADER_LENGTH]) == Success(header)
    requires 0 <= header.bodyLength && |bytes| >= HEADER_LENGTH + header.bodyLength
    ensures NextFrame(bytes) == Whole(header, bytes[HEADER_LENGTH..][..header.bodyLength],
                                      bytes[HEADER_LENGTH..][header.bodyLength..])
  {
    assert bytes[HEADER_LENGTH..][..header.bodyLength] == bytes[HEADER_LENGTH..HEADER_LENGTH + header.bodyLength];
    assert bytes[HEADER_LENGTH..][header.bodyLength..] == bytes[HEADER_LENGTH + header.bodyLength..];
  }

  // ----- what the options come to -----

  /** Of several serializers with one name the last one registered counts. */
  lemma {:induction false} LastRegisteredCounts(list: seq<Serializer>, i: nat)
    requires i < |list| && forall j | i < j < |list| :: list[j].name != list[i].name
    ensures list[i].name in Registered(list) && Registered(list)[list[i].name] == list[i]
    decreases |list|
  {
    if i < |list| - 1 {
      LastRegisteredCounts(list[..|list| - 1], i);
    }
  }

  /** The limits: 16 MiB without an option for the body, the body's limit without one for the decompressed body. */
  lemma ConfiguredLimits(options: CodecOptions)
    ensures Configure(options).Success? <==>
              && (options.maxBodyLength.Some? ==>
                    options.maxBodyLength.value.Finite? && options.maxBodyLength.value.value > 0.0)
              && (options.maxDecompressedBodyLength.Some? ==>
                    options.maxDecompressedBodyLength.value.Finite? && options.maxDecompressedBodyLength.value.value > 0.0)
    ensures Configure(options).Success? ==>
              var cfg := Configure(options).value;
              && (if options.maxBodyLength.None? then cfg.maxBodyLength == 16 * 1024 * 1024
                  else FlooredFrom(0, options.maxBodyLength.value.value, cfg.maxBodyLength))
              && (if options.maxDecompressedBodyLength.None? then cfg.maxDecompressedBodyLength == cfg.maxBodyLength
                  else FlooredFrom(0, options.maxDecompressedBodyLength.value.value, cfg.maxDecompressedBodyLength))
              && cfg.defaultSerializer == options.serializer && cfg.compression == options.compression
  {
  }
}
