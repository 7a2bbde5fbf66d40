/**
 * Streams of good packets with a failing one behind them: which messages come out, which bytes stay, and how both depend
 * on the chunk boundaries. Messages decoded in the push that throws are lost; those of earlier pushes are not.
 */
module StreamFailures {
  import opened Common
  import opened Packet
  import opened Messages
  import opened Codec
  import opened CodecStreams

  /** Exactly the bytes that it takes to fail: a whole packet whose body does, or the ten bytes of a bad header. */
  predicate Fails(cfg: CodecConfig, bad: Bytes, e: CodecError) {
    || (IsFrame(bad) && DecodeBody(cfg, NextFrame(bad).header, NextFrame(bad).body) == Failure(e))
    || (|bad| == HEADER_LENGTH && NextFrame(bad).BadHeader? && e == BadPacket(NextFrame(bad).error))
  }

  /** What the failure leaves queued: everything from a bad header on, or what is behind a failed packet. */
  function Left(bad: Bytes, tail: Bytes): Bytes {
    if NextFrame(bad).BadHeader? then bad + tail else tail
  }

  lemma FailingThrows(cfg: CodecConfig, bad: Bytes, e: CodecError, tail: Bytes)
    requires Fails(cfg, bad, e)
    ensures Drain(cfg, bad + tail) == Threw(e, Left(bad, tail))
  {
    NextFrameAppend(bad, tail);
    assert [] + tail == tail;
  }

  lemma FailingNeedsAll(cfg: CodecConfig, bad: Bytes, e: CodecError, n: nat)
    requires Fails(cfg, bad, e) && n < |bad|
    ensures Drain(cfg, bad[..n]) == Returned([], bad[..n])
  {
    if IsFrame(bad) {
      FramePrefixNeedsMore(bad, n);
    }
  }

  lemma {:induction false} AllComplete(packets: seq<Bytes>, n: nat)
    requires n >= |Flatten(packets)|
    ensures CompletePackets(packets, n) == |packets|
    decreases |packets|
  {
    if packets != [] {
      AllComplete(packets[1..], n - |packets[0]|);
    }
  }

  /** Bytes that end before the failing ones are complete come out as if these were good. */
  lemma DrainBeforeFailure(cfg: CodecConfig, packets: seq<Bytes>, messages: seq<RpcMessage>, bad: Bytes, e: CodecError,
                           bytes: Bytes, missing: Bytes)
    requires AcceptsAll(cfg, packets, messages) && Fails(cfg, bad, e)
    requires bytes + missing == Flatten(packets) + bad && missing != []
    ensures var k := CompletePackets(packets, |bytes|);
            Drain(cfg, bytes).Returned? && Drain(cfg, bytes).messages == messages[..k]
  {
    var good, k := Flatten(packets), CompletePackets(packets, |bytes|);
    if |bytes| <= |good| {
      EndsInFront(bytes, missing, good, bad);
      DrainPrefix(cfg, packets, messages, |bytes|);
    } else {
      AllComplete(packets, |bytes|);
      assert messages[..k] == messages;
      var n := EndsBehind(bytes, missing, good, bad);
      FailingNeedsAll(cfg, bad, e, n);
      GoodThenPart(cfg, packets, messages, bad[..n]);
    }
  }

  lemma GoodThenPart(cfg: CodecConfig, packets: seq<Bytes>, messages: seq<RpcMessage>, part: Bytes)
    requires AcceptsAll(cfg, packets, messages) && Drain(cfg, part) == Returned([], part)
    ensures Drain(cfg, Flatten(packets) + part) == Returned(messages, part)
  {
    SkipAccepted(cfg, packets, messages, part);
    assert messages + [] == messages;
  }

  lemma EndsInFront(bytes: Bytes, missing: Bytes, a: Bytes, b: Bytes)
    requires bytes + missing == a + b && |bytes| <= |a|
    ensures bytes == a[..|bytes|]
  {
    assert bytes == (bytes + missing)[..|bytes|] && (a + b)[..|bytes|] == a[..|bytes|];
  }

  lemma EndsBehind(bytes: Bytes, missing: Bytes, a: Bytes, b: Bytes) returns (n: nat)
    requires bytes + missing == a + b && |bytes| > |a| && missing != []
    ensures n < |b| && bytes == a + b[..n]
  {
    n := |bytes| - |a|;
    assert |bytes| + |missing| == |a| + |b|;
    assert bytes == (bytes + missing)[..|bytes|] && (a + b)[..|bytes|] == a + b[..n];
  }

  // ----- the push that throws -----

  /** The number of the push that completes the first `need` bytes. */
  function CompletingPush(chunks: seq<Bytes>, need: nat): (t: nat)
    requires 0 < need <= |Flatten(chunks)|
    ensures t < |chunks|
    ensures |Flatten(chunks[..t])| < need <= |Flatten(chunks[..t + 1])|
    decreases |chunks|
  {
    if |chunks[0]| >= need then
      FlattenTake(chunks, 0);
      0
    else
      var t := CompletingPush(chunks[1..], need - |chunks[0]|);
      FlattenTake(chunks, t);
      FlattenTake(chunks, t + 1);
      t + 1
  }

  lemma FlattenTake(chunks: seq<Bytes>, t: nat)
    requires t < |chunks|
    ensures Flatten(chunks[..t + 1]) == chunks[0] + Flatten(chunks[1..][..t])
  {
    assert chunks[..t + 1][1..] == chunks[1..][..t];
  }

  lemma FlattenUpTo(chunks: seq<Bytes>, t: nat)
    requires t < |chunks|
    ensures Flatten(chunks[..t + 1]) == Flatten(chunks[..t]) + chunks[t]
  {
    FlattenSnoc(chunks[..t], chunks[t]);
    assert chunks[..t + 1] == chunks[..t] + [chunks[t]];
  }

  lemma FlattenPrefix(chunks: seq<Bytes>, j: nat)
    requires j <= |chunks|
    ensures Flatten(chunks[..j]) <= Flatten(chunks)
  {
    FlattenAppend(chunks[..j], chunks[j..]);
    assert chunks == chunks[..j] + chunks[j..];
  }

  lemma {:induction false} PushAllSplit(cfg: CodecConfig, queued: Bytes, a: seq<Bytes>, b: seq<Bytes>)
    requires PushAll(cfg, queued, a).thrown == None
    ensures var first := PushAll(cfg, queued, a);
            var second := PushAll(cfg, first.queued, b);
            PushAll(cfg, queued, a + b) == second.(delivered := first.delivered + second.delivered)
    decreases |a|
  {
    if a == [] {
      assert a + b == b;
      var second := PushAll(cfg, queued, b);
      assert [] + second.delivered == second.delivered;
    } else {
      assert (a + b)[0] == a[0] && (a + b)[1..] == a[1..] + b;
      var pushed := Drain(cfg, queued + a[0]);
      PushAllSplit(cfg, pushed.rest, a[1..], b);
      var first, second := PushAll(cfg, pushed.rest, a[1..]), PushAll(cfg, PushAll(cfg, queued, a).queued, b);
      assert pushed.messages + (first.delivered + second.delivered)
          == (pushed.messages + first.delivered) + second.delivered;
    }
  }

  lemma GoodThenFailing(cfg: CodecConfig, packets: seq<Bytes>, messages: seq<RpcMessage>, bad: Bytes, e: CodecError,
                        more: Bytes)
    requires AcceptsAll(cfg, packets, messages) && Fails(cfg, bad, e)
    ensures Drain(cfg, Flatten(packets) + (bad + more)) == Threw(e, Left(bad, more))
  {
    SkipAccepted(cfg, packets, messages, bad + more);
    FailingThrows(cfg, bad, e, more);
  }

  lemma PushesBefore(cfg: CodecConfig, before: seq<Bytes>)
    requires Drain(cfg, Flatten(before)).Returned?
    ensures var drained := Drain(cfg, Flatten(before));
            PushAll(cfg, [], before) == StreamOutcome(drained.messages, drained.rest, None, [])
  {
    assert Drain(cfg, []) == Returned([], []);
    assert [] + Flatten(before) == Flatten(before);
    ChunkingIndependence(cfg, [], before);
  }

  /** The push that throws, and the pushes before it. */
  lemma RunThatThrows(cfg: CodecConfig, before: seq<Bytes>, chunk: Bytes, unread: seq<Bytes>)
    requires Drain(cfg, Flatten(before)).Returned? && Drain(cfg, Flatten(before) + chunk).Threw?
    ensures var failed := Drain(cfg, Flatten(before) + chunk);
            PushAll(cfg, [], before + ([chunk] + unread))
            == StreamOutcome(Drain(cfg, Flatten(before)).messages, failed.rest, Some(failed.error), unread)
  {
    var drained, failed := Drain(cfg, Flatten(before)), Drain(cfg, Flatten(before) + chunk);
    PushesBefore(cfg, before);
    DrainAppend(cfg, Flatten(before), chunk);
    PushAllSplit(cfg, [], before, [chunk] + unread);
    OnePush(cfg, drained.rest, chunk, unread, failed.error, failed.rest);
    assert drained.messages + [] == drained.messages;
  }

  lemma OnePush(cfg: CodecConfig, queued: Bytes, chunk: Bytes, unread: seq<Bytes>, e: CodecError, rest: Bytes)
    requires Drain(cfg, queued + chunk) == Threw(e, rest)
    ensures PushAll(cfg, queued, [chunk] + unread) == StreamOutcome([], rest, Some(e), unread)
  {
    var chunks := [chunk] + unread;
    assert chunks[0] == chunk && chunks[1..] == unread;
  }

  /** Where a chunk completes a stream: what is still missing before it, and what it brings more. */
  lemma CutAtChunk(stream: Bytes, tail: Bytes, before: Bytes, chunk: Bytes, later: Bytes)
    returns (missing: Bytes, more: Bytes)
    requires before + chunk + later == stream + tail
    requires |before| < |stream| <= |before + chunk|
    ensures before + missing == stream && missing != []
    ensures before + chunk == stream + more && more + later == tail
  {
    missing, more := stream[|before|..], (before + chunk)[|stream|..];
    var all := stream + tail;
    assert stream == all[..|stream|] && before == all[..|before|] && before + chunk == all[..|before + chunk|];
    assert tail == all[|stream|..] && later == all[|before + chunk|..];
  }

  /** A run that is known up to the chunks that it does not read. */
  predicate Delivers(run: StreamOutcome, delivered: seq<RpcMessage>, e: CodecError, unread: seq<Bytes>, left: Bytes) {
    run.delivered == delivered && run.thrown == Some(e) && run.unread == unread && run.queued + Flatten(unread) == left
  }

  lemma FailingRun(cfg: CodecConfig, packets: seq<Bytes>, messages: seq<RpcMessage>, bad: Bytes, e: CodecError,
                   tail: Bytes, before: seq<Bytes>, chunk: Bytes, unread: seq<Bytes>)
    requires AcceptsAll(cfg, packets, messages) && Fails(cfg, bad, e)
    requires Flatten(before) + chunk + Flatten(unread) == Flatten(packets) + bad + tail
    requires |Flatten(before)| < |Flatten(packets) + bad| <= |Flatten(before) + chunk|
    ensures Delivers(PushAll(cfg, [], before + ([chunk] + unread)), messages[..CompletePackets(packets, |Flatten(before)|)],
                     e, unread, Left(bad, tail))
  {
    var missing, more := CutAtChunk(Flatten(packets) + bad, tail, Flatten(before), chunk, Flatten(unread));
    DrainBeforeFailure(cfg, packets, messages, bad, e, Flatten(before), missing);
    GoodThenFailing(cfg, packets, messages, bad, e, more);
    Reassociate(Flatten(packets), bad, more);
    RunThatThrows(cfg, before, chunk, unread);
    Reassociate(bad, more, Flatten(unread));
  }

  lemma SplitAt(chunks: seq<Bytes>, t: nat)
    requires t < |chunks|
    ensures chunks == chunks[..t] + ([chunks[t]] + chunks[t + 1..])
  {
  }

  lemma TakeAndDrop(chunks: seq<Bytes>, n: nat)
    requires n <= |chunks|
    ensures chunks[..n] + chunks[n..] == chunks
  {
  }

  lemma FlattenAround(chunks: seq<Bytes>, t: nat)
    requires t < |chunks|
    ensures Flatten(chunks) == Flatten(chunks[..t]) + chunks[t] + Flatten(chunks[t + 1..])
  {
    calc {
      Flatten(chunks);
      { TakeAndDrop(chunks, t + 1); }
      Flatten(chunks[..t + 1] + chunks[t + 1..]);
      { FlattenAppend(chunks[..t + 1], chunks[t + 1..]); }
      Flatten(chunks[..t + 1]) + Flatten(chunks[t + 1..]);
      { FlattenUpTo(chunks, t); }
      Flatten(chunks[..t]) + chunks[t] + Flatten(chunks[t + 1..]);
    }
  }

  /**
   * What a stream with a failing packet comes to, for every chunking: the push that completes the failing bytes throws;
   * delivered are exactly the messages whose packets were complete in the pushes before that one, and left are the bytes
   * behind a failed packet, or everything from a bad header on.
   */
  lemma FailingStream(cfg: CodecConfig, packets: seq<Bytes>, messages: seq<RpcMessage>, bad: Bytes, e: CodecError,
                      tail: Bytes, chunks: seq<Bytes>)
    requires AcceptsAll(cfg, packets, messages) && Fails(cfg, bad, e)
    requires Flatten(chunks) == Flatten(packets) + bad + tail
    ensures var t := CompletingPush(chunks, |Flatten(packets) + bad|);
            Delivers(PushAll(cfg, [], chunks), messages[..CompletePackets(packets, |Flatten(chunks[..t])|)],
                     e, chunks[t + 1..], Left(bad, tail))
  {
    var t := CompletingPush(chunks, |Flatten(packets) + bad|);
    SplitAt(chunks, t);
    FlattenUpTo(chunks, t);
    FlattenAround(chunks, t);
    FailingRun(cfg, packets, messages, bad, e, tail, chunks[..t], chunks[t], chunks[t + 1..]);
  }

  /**
   * No good message is lost if and only if some chunk ends at or behind the last good packet and before the failing bytes
   * are complete.
   */
  lemma AllDeliveredExactlyWhen(cfg: CodecConfig, packets: seq<Bytes>, messages: seq<RpcMessage>, bad: Bytes, e: CodecError,
                                tail: Bytes, chunks: seq<Bytes>)
    requires AcceptsAll(cfg, packets, messages) && Fails(cfg, bad, e)
    requires Flatten(chunks) == Flatten(packets) + bad + tail
    ensures PushAll(cfg, [], chunks).delivered == messages <==>
            exists j | 0 <= j <= |chunks| ::
              |Flatten(packets)| <= |Flatten(chunks[..j])| < |Flatten(packets) + bad|
  {
    var need := |Flatten(packets) + bad|;
    var n := |Flatten(chunks[..CompletingPush(chunks, need)])|;
    FailingStream(cfg, packets, messages, bad, e, tail, chunks);
    AllWhenComplete(packets, messages, n);
    SomeChunkEnds(chunks, |Flatten(packets)|, need);
  }

  lemma AllWhenComplete(packets: seq<Bytes>, messages: seq<RpcMessage>, n: nat)
    requires |packets| == |messages|
    ensures messages[..CompletePackets(packets, n)] == messages <==> n >= |Flatten(packets)|
  {
    var k := CompletePackets(packets, n);
    assert |messages[..k]| == k;
    if k == |packets| {
      assert packets[..k] == packets && messages[..k] == messages;
    }
    if n >= |Flatten(packets)| {
      AllComplete(packets, n);
    }
  }

  lemma SomeChunkEnds(chunks: seq<Bytes>, good: nat, need: nat)
    requires 0 < need <= |Flatten(chunks)|
    ensures (exists j | 0 <= j <= |chunks| :: good <= |Flatten(chunks[..j])| < need)
            <==> good <= |Flatten(chunks[..CompletingPush(chunks, need)])|
  {
    var t := CompletingPush(chunks, need);
    if j :| 0 <= j <= |chunks| && good <= |Flatten(chunks[..j])| < need {
      if j > t {
        LongerPrefix(chunks, t + 1, j);
      } else {
        LongerPrefix(chunks, j, t);
      }
    }
  }

  lemma LongerPrefix(chunks: seq<Bytes>, i: nat, j: nat)
    requires i <= j <= |chunks|
    ensures |Flatten(chunks[..i])| <= |Flatten(chunks[..j])|
  {
    FlattenPrefix(chunks[..j], i);
    assert chunks[..j][..i] == chunks[..i];
  }
}
