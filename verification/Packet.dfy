/** The 10-byte packet header of packages/protocol/src/packet.ts. */
module Packet {
  import opened Common

  const MAGIC_NUMBER: int := 0xcafe
  const PROTOCOL_VERSION: int := 1
  const HEADER_LENGTH: int := 10
  const MAX_PACKET_LENGTH: int := 16 * 1024 * 1024
  const PACKET_FLAG_COMPRESSED: int := 1

  datatype SerializerName = Json | Protobuf

  datatype MessageType = RequestType | ResponseType | PingType | PongType

  datatype PacketHeader = PacketHeader(
    magic: int,
    version: int,
    serializer: SerializerName,
    messageType: MessageType,
    flags: int,
    bodyLength: int)

  datatype PacketError =
    | HeaderTooShort
    | InvalidMagic(magic: int)
    | UnsupportedVersion(version: int)
    | UnsupportedSerializer(id: int)
    | UnsupportedMessageType(id: int)
    | PacketTooLong(length: int)
    | FlagsOutOfRange(flags: int)

  // ----- identifiers on the wire -----

  function SerializerId(name: SerializerName): Byte {
    match name
    case Json => 1
    case Protobuf => 2
  }

  function GetSerializerName(id: Byte): Result<SerializerName, PacketError> {
    if id == 1 then Success(Json)
    else if id == 2 then Success(Protobuf)
    else Failure(UnsupportedSerializer(id))
  }

  function MessageTypeId(messageType: MessageType): Byte {
    match messageType
    case RequestType => 1
    case ResponseType => 2
    case PingType => 3
    case PongType => 4
  }

  function GetMessageType(id: Byte): Result<MessageType, PacketError> {
    if id == 1 then Success(RequestType)
    else if id == 2 then Success(ResponseType)
    else if id == 3 then Success(PingType)
    else if id == 4 then Success(PongType)
    else Failure(UnsupportedMessageType(id))
  }

  // ----- big-endian integers -----

  function ReadUInt16BE(b: Bytes, offset: nat): int
    requires offset + 2 <= |b|
  {
    b[offset] as int * 0x100 + b[offset + 1] as int
  }

  function ReadUInt32BE(b: Bytes, offset: nat): int
    requires offset + 4 <= |b|
  {
    b[offset] as int * 0x100_0000 + b[offset + 1] as int * 0x1_0000 + b[offset + 2] as int * 0x100 + b[offset + 3] as int
  }

  method WriteUInt16BE(header: array<Byte>, value: int, offset: nat)
    requires 0 <= value < 0x1_0000 && offset + 2 <= header.Length
    modifies header
    ensures ReadUInt16BE(header[..], offset) == value
    ensures forall i | 0 <= i < header.Length && !(offset <= i < offset + 2) :: header[i] == old(header[i])
  {
    header[offset] := value / 0x100;
    header[offset + 1] := value % 0x100;
  }

  method WriteUInt32BE(header: array<Byte>, value: int, offset: nat)
    requires 0 <= value < 0x1_0000_0000 && offset + 4 <= header.Length
    modifies header
    ensures ReadUInt32BE(header[..], offset) == value
    ensures forall i | 0 <= i < header.Length && !(offset <= i < offset + 4) :: header[i] == old(header[i])
  {
    header[offset] := value / 0x100_0000;
    header[offset + 1] := value / 0x1_0000 % 0x100;
    header[offset + 2] := value / 0x100 % 0x100;
    header[offset + 3] := value % 0x100;
  }

  // ----- the header -----

  /** Headers the sender can produce and the receiver accepts. */
  predicate WellFormed(h: PacketHeader) {
    && h.magic == MAGIC_NUMBER
    && h.version == PROTOCOL_VERSION
    && 0 <= h.flags < 0x100
    && 0 <= h.bodyLength <= MAX_PACKET_LENGTH
  }

  /** The ten bytes that stand for a header. */
  function HeaderBytes(h: PacketHeader): (r: Bytes)
    requires WellFormed(h)
    ensures |r| == HEADER_LENGTH
  {
    [0xca, 0xfe, 1, SerializerId(h.serializer), MessageTypeId(h.messageType), h.flags,
     h.bodyLength / 0x100_0000, h.bodyLength / 0x1_0000 % 0x100, h.bodyLength / 0x100 % 0x100, h.bodyLength % 0x100]
  }

  function DecodePacketHeader(header: Bytes): Result<PacketHeader, PacketError> {
    if |header| < HEADER_LENGTH then Failure(HeaderTooShort) else
    var magic := ReadUInt16BE(header, 0);
    if magic != MAGIC_NUMBER then Failure(InvalidMagic(magic)) else
    var version: int := header[2];
    if version != PROTOCOL_VERSION then Failure(UnsupportedVersion(version)) else
    match GetSerializerName(header[3])
    case Failure(e) => Failure(e)
    case Success(serializer) =>
      match GetMessageType(header[4])
      case Failure(e) => Failure(e)
      case Success(messageType) =>
        var bodyLength := ReadUInt32BE(header, 6);
        if bodyLength > MAX_PACKET_LENGTH then Failure(PacketTooLong(bodyLength)) else
        Success(PacketHeader(magic, version, serializer, messageType, header[5], bodyLength))
  }

  /** The outcome of `encodePacket`: a missing `flags` option means 0, and a flag byte out of range throws. */
  function PacketBytes(payload: Bytes, serializer: SerializerName, messageType: MessageType, flags: Option<int>)
    : Result<Bytes, PacketError>
  {
    var flagByte := if flags.None? then 0 else flags.value;
    if |payload| > MAX_PACKET_LENGTH then Failure(PacketTooLong(|payload|))
    else if !(0 <= flagByte < 0x100) then Failure(FlagsOutOfRange(flagByte))
    else
      Success(HeaderBytes(PacketHeader(MAGIC_NUMBER, PROTOCOL_VERSION, serializer, messageType, flagByte, |payload|))
              + payload)
  }

  method EncodePacket(payload: Bytes, serializer: SerializerName, messageType: MessageType, flags: Option<int>)
    returns (r: Result<Bytes, PacketError>)
    ensures r == PacketBytes(payload, serializer, messageType, flags)
  {
    if |payload| > MAX_PACKET_LENGTH {
      return Failure(PacketTooLong(|payload|));
    }
    var header := new Byte[HEADER_LENGTH];
    WriteUInt16BE(header, MAGIC_NUMBER, 0);
    header[2] := PROTOCOL_VERSION;
    header[3] := SerializerId(serializer);
    header[4] := MessageTypeId(messageType);
    var flagByte := if flags.None? then 0 else flags.value;
    if !(0 <= flagByte < 0x100) {
      return Failure(FlagsOutOfRange(flagByte));
    }
    header[5] := flagByte;
    WriteUInt32BE(header, |payload|, 6);
    ghost var h := PacketHeader(MAGIC_NUMBER, PROTOCOL_VERSION, serializer, messageType, flagByte, |payload|);
    assert DecodePacketHeader(header[..]) == Success(h);
    AcceptedHeaderIsReproduced(header[..]);
    assert header[..] == HeaderBytes(h);
    r := Success(header[..] + payload);
  }

  // ----- round trips -----

  /** Printing and then parsing gives the header back, whatever follows it in the buffer. */
  lemma HeaderRoundTrip(h: PacketHeader, suffix: Bytes)
    requires WellFormed(h)
    ensures DecodePacketHeader(HeaderBytes(h) + suffix) == Success(h)
  {
    var bytes := HeaderBytes(h) + suffix;
    assert bytes[..10] == HeaderBytes(h);
    assert forall i | 0 <= i < 10 :: bytes[i] == HeaderBytes(h)[i];
    assert ReadUInt16BE(bytes, 0) == MAGIC_NUMBER;
    assert ReadUInt32BE(bytes, 6) == h.bodyLength;
  }

  /** An accepted header is reproduced byte for byte by the writer. */
  lemma AcceptedHeaderIsReproduced(header: Bytes)
    requires DecodePacketHeader(header).Success?
    ensures WellFormed(DecodePacketHeader(header).value)
    ensures HeaderBytes(DecodePacketHeader(header).value) == header[..HEADER_LENGTH]
  {
    var h := DecodePacketHeader(header).value;
    var n := h.bodyLength;
    var b6: int, b7: int, b8: int := header[6], header[7], header[8];
    assert n / 0x100 == b6 * 0x1_0000 + b7 * 0x100 + b8;
    assert n / 0x1_0000 == b6 * 0x100 + b7;
    assert n / 0x100_0000 == b6;
  }

  /** The parser accepts a buffer exactly when its first ten bytes are the printed form of some well-formed header. */
  lemma AcceptsExactlyPrintedHeaders(header: Bytes)
    ensures DecodePacketHeader(header).Success? <==>
            |header| >= HEADER_LENGTH && exists h :: WellFormed(h) && HeaderBytes(h) == header[..HEADER_LENGTH]
  {
    if DecodePacketHeader(header).Success? {
      AcceptedHeaderIsReproduced(header);
    }
    if h :| |header| >= HEADER_LENGTH && WellFormed(h) && HeaderBytes(h) == header[..HEADER_LENGTH] {
      HeaderRoundTrip(h, header[HEADER_LENGTH..]);
      assert header == HeaderBytes(h) + header[HEADER_LENGTH..];
    }
  }
}
