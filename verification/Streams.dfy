/**
 * What streaming a packet means: the callbacks each registered sink gets, and
 * how a buffer is split into packets.
 */
module Streams {
  import opened Bytes
  import opened Wire
  import opened Sinks
  import opened Packets

  type SinkId = nat   // a registered (sink, context) pair

  /** A callback made to one sink. */
  datatype Event = Event(sink: SinkId, call: Call)

  // ---- What streaming means for the trace of callbacks ----

  /** The registered sinks in slot order. */
  function Captured(slots: seq<Option<SinkId>>): seq<SinkId> {
    if slots == [] then []
    else Captured(slots[..|slots| - 1]) + (match slots[|slots| - 1] case None => [] case Some(s) => [s])
  }

  /** The first slot with the given contents, or the number of slots. */
  function FirstSlot(slots: seq<Option<SinkId>>, wanted: Option<SinkId>): (i: nat)
    ensures i <= |slots| && wanted !in slots[..i] && (i < |slots| ==> slots[i] == wanted)
    ensures i == |slots| <==> wanted !in slots
  {
    if slots == [] || slots[0] == wanted then 0 else 1 + FirstSlot(slots[1..], wanted)
  }

  function ToAll(sinks: seq<SinkId>, call: Call): seq<Event> {
    seq(|sinks|, i requires 0 <= i < |sinks| => Event(sinks[i], call))
  }

  function Broadcast(sinks: seq<SinkId>, calls: seq<Call>): seq<Event> {
    if calls == [] then [] else ToAll(sinks, calls[0]) + Broadcast(sinks, calls[1..])
  }

  lemma {:induction false} BroadcastAppend(sinks: seq<SinkId>, a: seq<Call>, b: seq<Call>)
    ensures Broadcast(sinks, a + b) == Broadcast(sinks, a) + Broadcast(sinks, b)
  {
    hide ToAll;
    if a == [] {
      assert a + b == b;
    } else {
      assert (a + b)[1..] == a[1..] + b;
      BroadcastAppend(sinks, a[1..], b);
    }
  }

  lemma BroadcastOne(sinks: seq<SinkId>, call: Call)
    ensures Broadcast(sinks, [call]) == ToAll(sinks, call)
  {
    hide ToAll;
    assert [call][1..] == [];
    assert ToAll(sinks, call) + Broadcast(sinks, []) == ToAll(sinks, call);
  }

  /** Captured sinks are in the order of their slots. */
  lemma {:induction false} CapturedInOrder(before: seq<Option<SinkId>>, slot: Option<SinkId>, after: seq<Option<SinkId>>)
    ensures Captured([]) == []
    ensures Captured(before + [slot] + after)
            == Captured(before) + (if slot.Some? then [slot.value] else []) + Captured(after)
    decreases after
  {
    hide Captured;
    assert Captured([]) == [] by { CapturedNone(); }
    if after == [] {
      assert before + [slot] + after == before + [slot];
      CapturedLast(before, slot);
    } else {
      var n := |after| - 1;
      var last := after[n];
      CapturedInOrder(before, slot, after[..n]);
      CapturedLast(after[..n], last);
      CapturedLast(before + [slot] + after[..n], last);
      assert after[..n] + [last] == after;
      assert before + [slot] + after[..n] + [last] == before + [slot] + after;
    }
  }

  lemma CapturedNone()
    ensures Captured([]) == []
  {
  }

  lemma CapturedLast(slots: seq<Option<SinkId>>, last: Option<SinkId>)
    ensures Captured(slots + [last]) == Captured(slots) + (if last.Some? then [last.value] else [])
  {
    assert (slots + [last])[..|slots|] == slots;
  }

  /** Every call goes to all sinks, in their order, before the next call is made. */
  lemma {:induction false} CallToEach(sinks: seq<SinkId>, calls: seq<Call>, i: nat, j: nat)
    requires i < |calls| && j < |sinks|
    ensures |Broadcast(sinks, calls)| == |calls| * |sinks| && 0 <= i * |sinks| + j < |calls| * |sinks|
    ensures Broadcast(sinks, calls)[i * |sinks| + j] == Event(sinks[j], calls[i])
    decreases calls
  {
    hide ToAll;
    var n, all := |sinks|, Broadcast(sinks, calls);
    BroadcastSize(sinks, calls);
    var first := ToAll(sinks, calls[0]);
    assert |first| == n && first[j] == Event(sinks[j], calls[0]) by { OneToEach(sinks, calls[0], j); }
    Multiples(i, |calls|, n);
    if i > 0 {
      CallToEach(sinks, calls[1..], i - 1, j);
      Multiples(i - 1, |calls| - 1, n);
      assert all == first + Broadcast(sinks, calls[1..]);
      assert all[n + ((i - 1) * n + j)] == Broadcast(sinks, calls[1..])[(i - 1) * n + j];
    }
  }

  lemma OneToEach(sinks: seq<SinkId>, call: Call, j: nat)
    requires j < |sinks|
    ensures |ToAll(sinks, call)| == |sinks| && ToAll(sinks, call)[j] == Event(sinks[j], call)
  {
  }

  lemma {:induction false} BroadcastSize(sinks: seq<SinkId>, calls: seq<Call>)
    ensures |Broadcast(sinks, calls)| == |calls| * |sinks|
    decreases calls
  {
    if calls != [] {
      BroadcastSize(sinks, calls[1..]);
      Multiples(0, |calls|, |sinks|);
    }
  }

  lemma Multiples(i: nat, m: nat, n: nat)
    requires i < m
    ensures i * n + n <= m * n && m * n == n + (m - 1) * n && i * n >= 0
    ensures i > 0 ==> i * n == n + (i - 1) * n
  {
    assert m * n == i * n + (m - i) * n;
    assert (m - i) * n == n + (m - i - 1) * n;
  }

  /** Payload callbacks for a list of chunks. */
  function Sent(sinks: seq<SinkId>, chunks: seq<seq<Byte>>): seq<Event> {
    Broadcast(sinks, PayloadCalls(chunks))
  }

  lemma {:induction false} PayloadCallsAppend(a: seq<seq<Byte>>, b: seq<seq<Byte>>)
    ensures PayloadCalls(a + b) == PayloadCalls(a) + PayloadCalls(b)
  {
    if a == [] {
      assert a + b == b;
    } else {
      assert (a + b)[1..] == a[1..] + b;
      PayloadCallsAppend(a[1..], b);
    }
  }

  lemma SentAppend(sinks: seq<SinkId>, a: seq<seq<Byte>>, b: seq<seq<Byte>>)
    ensures Sent(sinks, a + b) == Sent(sinks, a) + Sent(sinks, b)
  {
    hide Broadcast, PayloadCalls;
    PayloadCallsAppend(a, b);
    BroadcastAppend(sinks, PayloadCalls(a), PayloadCalls(b));
  }

  lemma SentOne(sinks: seq<SinkId>, chunk: seq<Byte>)
    ensures Sent(sinks, [chunk]) == ToAll(sinks, Payload(Data(chunk)))
  {
    hide Broadcast, ToAll;
    assert [chunk][1..] == [];
    assert PayloadCalls([chunk]) == [Payload(Data(chunk))] + PayloadCalls([]);
    assert PayloadCalls([chunk]) == [Payload(Data(chunk))];
    BroadcastOne(sinks, Payload(Data(chunk)));
  }

  /** All callbacks of one packet: every sink's start, then every chunk to every sink, then every sink's end. */
  function PacketEvents(sinks: seq<SinkId>, header: seq<Byte>, chunks: seq<seq<Byte>>): seq<Event> {
    ToAll(sinks, Start(Data(header))) + Sent(sinks, chunks) + ToAll(sinks, End)
  }

  lemma PacketEventsAreCalls(sinks: seq<SinkId>, header: seq<Byte>, chunks: seq<seq<Byte>>)
    ensures PacketEvents(sinks, header, chunks) == Broadcast(sinks, PacketCalls(header, chunks))
  {
    hide Broadcast, ToAll;
    BroadcastAppend(sinks, [Start(Data(header))] + PayloadCalls(chunks), [End]);
    BroadcastAppend(sinks, [Start(Data(header))], PayloadCalls(chunks));
    BroadcastOne(sinks, Start(Data(header)));
    BroadcastOne(sinks, End);
  }

  /** The events of one packet streamed with a given number and time. */
  function Streamed(sinks: seq<SinkId>, p: Outgoing, max: MaxString, seqNo: nat, time: U32): seq<Event>
    requires p.Valid(max)
  {
    PacketEvents(sinks, HeaderFor(p, max, seqNo % 0x1_0000, time), Chunks(p, max))
  }

  // ---- Buffers in chunks ----

  /** Not a NULL pointer with a length, and a length that fits 32 bits. */
  predicate Acceptable(buffer: Buffer) {
    match buffer
    case Null(len) => len == 0
    case Data(bytes) => |bytes| < 0x1_0000_0000
  }

  /** Data bytes in one packet: the chunk size less the inline tag, but at least one. */
  function ChunkMax(tagSize: nat, chunkSize: nat): (r: nat)
    requires chunkSize >= 1
    ensures r >= 1
  {
    if tagSize < chunkSize then chunkSize - tagSize else 1
  }

  predicate BufferFits(tag: CString, max: MaxString, chunkSize: nat)
    requires ValidString(tag, max) && chunkSize >= 1
  {
    var tagSize := |WireStrBytes(tag, max)|;
    tagSize + 12 + ChunkMax(tagSize, chunkSize) <= PAYLOAD_LEN_MAX
  }

  /** The packets for the buffer from offset on. */
  function PartsFrom(level: Nibble, tag: CString, buffer: seq<Byte>, chunkMax: nat, offset: nat): seq<Outgoing>
    requires |buffer| < 0x1_0000_0000 && offset <= |buffer| && chunkMax >= 1
    decreases |buffer| - offset
  {
    if offset == |buffer| then []
    else
      var next := offset + Min(|buffer| - offset, chunkMax);
      [BufferPart(level, tag, |buffer|, offset, buffer[offset..next])] + PartsFrom(level, tag, buffer, chunkMax, next)
  }

  function BufferParts(level: Nibble, tag: CString, buffer: seq<Byte>, max: MaxString, chunkSize: nat): seq<Outgoing>
    requires |buffer| < 0x1_0000_0000 && ValidString(tag, max) && chunkSize >= 1
  {
    if buffer == [] then [BufferPart(level, tag, 0, 0, [])]
    else PartsFrom(level, tag, buffer, ChunkMax(|WireStrBytes(tag, max)|, chunkSize), 0)
  }

  function Reassembled(parts: seq<Outgoing>): seq<Byte> {
    if parts == [] then []
    else (if parts[0].BufferPart? then parts[0].data else []) + Reassembled(parts[1..])
  }

  lemma {:induction false} PartsShape(level: Nibble, tag: CString, buffer: seq<Byte>, chunkMax: nat, offset: nat)
    requires |buffer| < 0x1_0000_0000 && offset <= |buffer| && chunkMax >= 1
    ensures forall p :: p in PartsFrom(level, tag, buffer, chunkMax, offset) ==>
              p.BufferPart? && p.tag == tag && p.total == |buffer| && 0 < |p.data| <= chunkMax
    decreases |buffer| - offset
  {
    if offset < |buffer| {
      PartsShape(level, tag, buffer, chunkMax, offset + Min(|buffer| - offset, chunkMax));
    }
  }

  lemma {:induction false} PartsCover(level: Nibble, tag: CString, buffer: seq<Byte>, chunkMax: nat, offset: nat)
    requires |buffer| < 0x1_0000_0000 && offset <= |buffer| && chunkMax >= 1
    ensures Reassembled(PartsFrom(level, tag, buffer, chunkMax, offset)) == buffer[offset..]
    decreases |buffer| - offset
  {
    if offset < |buffer| {
      var next := offset + Min(|buffer| - offset, chunkMax);
      PartsCover(level, tag, buffer, chunkMax, next);
      assert PartsFrom(level, tag, buffer, chunkMax, offset)[1..] == PartsFrom(level, tag, buffer, chunkMax, next);
      assert buffer[offset..] == buffer[offset..next] + buffer[next..];
    }
  }

  lemma ReassembledFirst(parts: seq<Outgoing>, i: nat)
    requires parts != [] && parts[0].BufferPart? && 0 < i <= |parts|
    ensures |Reassembled(parts[..i])| == |parts[0].data| + |Reassembled(parts[1..][..i - 1])|
  {
    assert parts[..i][1..] == parts[1..][..i - 1];
  }

  lemma {:induction false} PartsAreContiguous(level: Nibble, tag: CString, buffer: seq<Byte>, chunkMax: nat, offset: nat, i: nat)
    requires |buffer| < 0x1_0000_0000 && offset <= |buffer| && chunkMax >= 1
    requires i < |PartsFrom(level, tag, buffer, chunkMax, offset)|
    ensures var parts := PartsFrom(level, tag, buffer, chunkMax, offset);
            parts[i].BufferPart? && parts[i].offset == offset + |Reassembled(parts[..i])|
    decreases |buffer| - offset
  {
    hide Reassembled;
    var parts := PartsFrom(level, tag, buffer, chunkMax, offset);
    if i == 0 {
      NothingReassembled();
      assert parts[..0] == [];
    } else {
      var next := offset + Min(|buffer| - offset, chunkMax);
      assert parts[1..] == PartsFrom(level, tag, buffer, chunkMax, next);
      assert parts[i] == parts[1..][i - 1];
      PartsAreContiguous(level, tag, buffer, chunkMax, next, i - 1);
      ReassembledFirst(parts, i);
    }
  }

  lemma NothingReassembled()
    ensures Reassembled([]) == []
  {
  }

  /**
   * A buffer that is not refused arrives whole: the parts are contiguous from
   * offset 0, none is empty unless the buffer is, together they are the
   * buffer, and every payload can be described by a header. With a tag that
   * leaves room for data, no payload is longer than the configured chunk and
   * its 12 bytes of lengths.
   */
  lemma BufferArrivesWhole(level: Nibble, tag: CString, buffer: seq<Byte>, max: MaxString, chunkSize: nat)
    requires |buffer| < 0x1_0000_0000 && ValidString(tag, max) && chunkSize >= 1
    requires BufferFits(tag, max, chunkSize)
    ensures var parts := BufferParts(level, tag, buffer, max, chunkSize);
            && Reassembled(parts) == buffer
            && (forall i :: 0 <= i < |parts| ==> parts[i].BufferPart? && parts[i].total == |buffer|
                                                  && parts[i].offset == |Reassembled(parts[..i])|)
            && (forall p :: p in parts ==> p.BufferPart? && p.tag == tag && p.Valid(max) && (p.data == [] <==> buffer == []))
            && (|WireStrBytes(tag, max)| < chunkSize ==>
                  forall p :: p in parts ==> |WireStrBytes(tag, max)| + 12 + |p.data| <= chunkSize + 12)
  {
    hide WireStrBytes, Reassembled;
    var parts := BufferParts(level, tag, buffer, max, chunkSize);
    if buffer == [] {
      SinglePart(parts[0]);
      assert parts[..0] == [];
      NothingReassembled();
    } else {
      var chunkMax := ChunkMax(|WireStrBytes(tag, max)|, chunkSize);
      PartsShape(level, tag, buffer, chunkMax, 0);
      PartsCover(level, tag, buffer, chunkMax, 0);
      assert buffer[0..] == buffer;
      forall i | 0 <= i < |parts|
        ensures parts[i].BufferPart? && parts[i].total == |buffer| && parts[i].offset == |Reassembled(parts[..i])|
      {
        PartsAreContiguous(level, tag, buffer, chunkMax, 0, i);
        assert parts[i] in parts;
      }
    }
  }

  /** Which buffers are refused, and how much of a buffer goes into each packet. */
  lemma PartsAreFull(level: Nibble, tag: CString, buffer: seq<Byte>, max: MaxString, chunkSize: nat)
    requires |buffer| < 0x1_0000_0000 && ValidString(tag, max) && chunkSize >= 1
    ensures var tagSize, parts := |WireStrBytes(tag, max)|, BufferParts(level, tag, buffer, max, chunkSize);
            var full := if tagSize < chunkSize then chunkSize - tagSize else 1;
            && (BufferFits(tag, max, chunkSize) <==> tagSize + 12 + full <= 0xfffe)
            && parts != []
            && (forall i :: 0 <= i < |parts| ==> parts[i].BufferPart? && parts[i].level == level && |parts[i].data| <= full)
            && (forall i :: 0 <= i < |parts| - 1 ==> |parts[i].data| == full)
  {
    hide WireStrBytes;
    if buffer != [] {
      PartsFromAreFull(level, tag, buffer, ChunkMax(|WireStrBytes(tag, max)|, chunkSize), 0);
    }
  }

  lemma {:induction false} PartsFromAreFull(level: Nibble, tag: CString, buffer: seq<Byte>, chunkMax: nat, offset: nat)
    requires |buffer| < 0x1_0000_0000 && offset <= |buffer| && chunkMax >= 1
    ensures var parts := PartsFrom(level, tag, buffer, chunkMax, offset);
            && (forall i :: 0 <= i < |parts| ==> parts[i].BufferPart? && parts[i].level == level && |parts[i].data| <= chunkMax)
            && (forall i :: 0 <= i < |parts| - 1 ==> |parts[i].data| == chunkMax)
            && (parts == [] <==> offset == |buffer|)
    decreases |buffer| - offset
  {
    if offset < |buffer| {
      PartsFromAreFull(level, tag, buffer, chunkMax, offset + Min(|buffer| - offset, chunkMax));
    }
  }

  lemma SinglePart(p: Outgoing)
    requires p.BufferPart? && p.data == []
    ensures Reassembled([p]) == []
  {
    assert [p][1..] == [];
  }
}
