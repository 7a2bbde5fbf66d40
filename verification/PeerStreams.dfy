/**
 * A byte stream from one peer to the other: what the receiver makes of the packets that the sender has encoded, however
 * they are fragmented. Nothing is assumed of the serializers and compressors until a message is to come back unchanged.
 */
module PeerStreams {
  import opened Common
  import opened Messages
  import opened Codec
  import opened CodecStreams

  // ----- what arrives -----

  /** What `receiver` takes `sender`'s packet of a message for; a packet that it rejects arrives as nothing else. */
  function Arrival(sender: CodecConfig, receiver: CodecConfig, m: RpcMessage): RpcMessage {
    if Encoded(sender, m).Failure? then m else
    match NextFrame(Encoded(sender, m).value)
    case Whole(header, body, _) =>
      var decoded := DecodeBody(receiver, header, body);
      if decoded.Success? then decoded.value else m
    case _ => m
  }

  function Arrivals(sender: CodecConfig, receiver: CodecConfig, sent: seq<RpcMessage>): (arrived: seq<RpcMessage>)
    ensures |arrived| == |sent|
    ensures forall i | 0 <= i < |sent| :: arrived[i] == Arrival(sender, receiver, sent[i])
  {
    seq(|sent|, i requires 0 <= i < |sent| => Arrival(sender, receiver, sent[i]))
  }

  lemma ArrivalsAppend(sender: CodecConfig, receiver: CodecConfig, a: seq<RpcMessage>, b: seq<RpcMessage>)
    ensures Arrivals(sender, receiver, a + b) == Arrivals(sender, receiver, a) + Arrivals(sender, receiver, b)
  {
  }

  /** The message is taken for itself, or rejected. */
  predicate Survives(sender: CodecConfig, receiver: CodecConfig, m: RpcMessage) {
    Arrival(sender, receiver, m) == m
  }

  /** The receiver takes the packet for this message or rejects it. */
  predicate Honest(receiver: CodecConfig, packet: Bytes, message: RpcMessage) {
    && IsFrame(packet)
    && var decoded := DecodeBody(receiver, NextFrame(packet).header, NextFrame(packet).body);
       decoded.Success? ==> decoded.value == message
  }

  lemma EncodedArrives(sender: CodecConfig, receiver: CodecConfig, m: RpcMessage)
    requires Encoded(sender, m).Success?
    ensures Honest(receiver, Encoded(sender, m).value, Arrival(sender, receiver, m))
  {
    EncodedIsFrame(sender, m);
  }

  /** The receiver's serializer gives this message back unchanged, or fails. */
  predicate SerializerReturns(sender: CodecConfig, receiver: CodecConfig, m: RpcMessage) {
    var serialized := sender.defaultSerializer.serialize(m);
    serialized.Success? && sender.defaultSerializer.name in receiver.serializers ==>
      var back := receiver.serializers[sender.defaultSerializer.name].deserialize(serialized.value);
      back.Success? ==> back.value == m
  }

  /** The receiver's compressor gives the serialized bytes of this message back unchanged, or fails. */
  predicate CompressorReturns(sender: CodecConfig, receiver: CodecConfig, m: RpcMessage) {
    var serialized := sender.defaultSerializer.serialize(m);
    serialized.Success? && ShouldCompress(sender, serialized.value) && SentBody(sender, serialized.value).Success? ==>
      var back := Decompress(receiver, SentBody(sender, serialized.value).value);
      back.Success? ==> back.value == serialized.value
  }

  /** The receiver undoes what the sender has done to this message, or fails. */
  predicate Undone(sender: CodecConfig, receiver: CodecConfig, m: RpcMessage) {
    SerializerReturns(sender, receiver, m) && CompressorReturns(sender, receiver, m)
  }

  /** A message survives when serializer and compressor undo what was done to it, or fail; others do not matter. */
  lemma InverseLawsLetSurvive(sender: CodecConfig, receiver: CodecConfig, m: RpcMessage)
    requires Undone(sender, receiver, m)
    ensures Survives(sender, receiver, m)
  {
    if Encoded(sender, m).Success? {
      EncodedIsFrame(sender, m);
      var serialized := sender.defaultSerializer.serialize(m).value;
      var body := SentBody(sender, serialized).value;
      if DecodeBody(receiver, NextFrame(Encoded(sender, m).value).header, body).Success?
         && ShouldCompress(sender, serialized) {
        assert Decompress(receiver, body).Success?;
        assert Decompress(receiver, body).value == serialized;
      }
    }
  }

  // ----- streams -----

  ghost predicate AllHonest(receiver: CodecConfig, packets: seq<Bytes>, messages: seq<RpcMessage>) {
    |packets| == |messages| && forall i | 0 <= i < |packets| :: Honest(receiver, packets[i], messages[i])
  }

  /** The receiver's queue and the bytes still under way start at a packet boundary of the stream. */
  ghost predicate Aligned(packets: seq<Bytes>, read: nat, queue: Bytes) {
    && read <= |Flatten(packets)|
    && exists j | 0 <= j <= |packets| :: StartsAt(packets, read, queue, j)
  }

  predicate StartsAt(packets: seq<Bytes>, read: nat, queue: Bytes, j: nat)
    requires j <= |packets| && read <= |Flatten(packets)|
  {
    queue + Flatten(packets)[read..] == Flatten(packets[j..])
  }

  /** One push on an aligned stream keeps it aligned, and delivers only messages that were sent. */
  lemma {:induction false} DrainHonest(cfg: CodecConfig, bytes: Bytes, more: Bytes, packets: seq<Bytes>,
                                       messages: seq<RpcMessage>) returns (j: nat)
    requires AllHonest(cfg, packets, messages)
    requires bytes + more == Flatten(packets)
    ensures j <= |packets| && Drain(cfg, bytes).rest + more == Flatten(packets[j..])
    ensures Drain(cfg, bytes).Returned? ==> forall m <- Drain(cfg, bytes).messages :: m in messages
    decreases |packets|
  {
    if packets == [] {
      assert bytes == [] && Drain(cfg, bytes) == Returned([], []);
      return 0;
    }
    var first, tail := packets[0], Flatten(packets[1..]);
    assert Honest(cfg, first, messages[0]);
    if |bytes| < |first| {
      assert bytes == (bytes + more)[..|bytes|] == first[..|bytes|];
      FramePrefixNeedsMore(first, |bytes|);
      assert packets[0..] == packets;
      return 0;
    }
    var rest := bytes[|first|..];
    assert bytes == first + rest && rest + more == tail by {
      assert (bytes + more)[..|first|] == first;
      assert (bytes + more)[|first|..] == rest + more;
    }
    NextFrameAppend(first, rest);
    assert [] + rest == rest;
    if DecodeBody(cfg, NextFrame(first).header, NextFrame(first).body).Failure? {
      return 1;
    }
    var k := DrainHonest(cfg, rest, more, packets[1..], messages[1..]);
    j := k + 1;
    assert packets[1..][k..] == packets[j..];
    assert forall m <- messages[1..] :: m in messages;
  }

  /** `queue` is `before` with the next bytes of the stream behind it, as many as have come. */
  predicate Pushed(packets: seq<Bytes>, read: nat, before: Bytes, queue: Bytes) {
    && read <= |Flatten(packets)|
    && before <= queue && queue[|before|..] <= Flatten(packets)[read..]
  }

  /** How much of the stream has been read once `before` has grown to `queue`. */
  function ReadAfter(read: nat, before: Bytes, queue: Bytes): nat {
    if |before| <= |queue| then read + (|queue| - |before|) else read
  }

  lemma PushKeepsAligned(packets: seq<Bytes>, read: nat, before: Bytes, queue: Bytes)
    requires Aligned(packets, read, before) && Pushed(packets, read, before, queue)
    ensures Aligned(packets, ReadAfter(read, before, queue), queue)
  {
    var stream, chunk, after := Flatten(packets), queue[|before|..], ReadAfter(read, before, queue);
    var j :| 0 <= j <= |packets| && StartsAt(packets, read, before, j);
    assert stream[read..] == chunk + stream[after..];
    assert queue + stream[after..] == before + stream[read..];
    assert StartsAt(packets, after, queue, j);
  }

  /** The codec leaves a queue that is in line with the packets, and returns only messages that were sent. */
  ghost predicate Fits(packets: seq<Bytes>, messages: seq<RpcMessage>, read: nat, outcome: PushOutcome) {
    Aligned(packets, read, outcome.rest) && (outcome.Returned? ==> forall m <- outcome.messages :: m in messages)
  }

  /** Decoding what has arrived, wherever it was cut, keeps the stream aligned and delivers only messages that were sent. */
  lemma DrainKeepsAligned(cfg: CodecConfig, packets: seq<Bytes>, messages: seq<RpcMessage>, read: nat, queue: Bytes)
    requires AllHonest(cfg, packets, messages) && Aligned(packets, read, queue)
    ensures Fits(packets, messages, read, Drain(cfg, queue))
  {
    var j :| 0 <= j <= |packets| && StartsAt(packets, read, queue, j);
    var k := DrainHonest(cfg, queue, Flatten(packets)[read..], packets[j..], messages[j..]);
    assert packets[j..][k..] == packets[j + k..];
    assert StartsAt(packets, read, Drain(cfg, queue).rest, j + k);
    assert forall m <- messages[j..] :: m in messages;
  }

  lemma SendKeepsAligned(packets: seq<Bytes>, more: seq<Bytes>, read: nat, queue: Bytes)
    requires Aligned(packets, read, queue)
    ensures Aligned(packets + more, read, queue)
  {
    var j :| 0 <= j <= |packets| && StartsAt(packets, read, queue, j);
    FlattenAppend(packets, more);
    FlattenAppend(packets[j..], more);
    assert (packets + more)[j..] == packets[j..] + more;
    MoreBehind(queue, Flatten(packets), Flatten(more), read);
    assert StartsAt(packets + more, read, queue, j);
  }

  lemma MoreBehind(queue: Bytes, stream: Bytes, more: Bytes, read: nat)
    requires read <= |stream|
    ensures queue + (stream + more)[read..] == (queue + stream[read..]) + more
  {
    assert (stream + more)[read..] == stream[read..] + more;
  }
}
