/**
 * The logger's core, one call at a time: the sink table, streams, sequence
 * numbers, the drop counter and the entry points that write packets. The
 * verdict of the level filter is a parameter; interleavings of calls are the
 * subject of EmissionProtocol.
 */
module Logger {
  import opened Bytes
  import opened Wire
  import opened Sinks
  import opened Packets
  import opened Streams
  import Encoder

  /** A sink argument: NULL, or a (sink, context) pair whose descriptor lacks a callback or is complete. */
  datatype SinkArg = NullSink | Incomplete(id: SinkId) | Ready(id: SinkId)

  class Logger {
    const max: MaxString
    const chunkSize: nat
    const clock: nat -> U32          // the k-th reading of the clock
    const slots: array<Option<SinkId>>
    var seqNo: nat                   // the header carries its low 16 bits
    var dropped: U32
    var readings: nat
    var trace: seq<Event>            // every callback made so far
    var queue: seq<seq<Byte>>        // packets from interrupts, to be dispatched by the drain task

    ghost predicate Valid()
      reads this
    {
      chunkSize >= 1
    }

    constructor (max: MaxString, chunkSize: nat, maxSinks: nat, clock: nat -> U32)
      requires chunkSize >= 1
      ensures Valid() && this.max == max && this.chunkSize == chunkSize && this.clock == clock
      ensures fresh(slots) && slots.Length == maxSinks && (forall i :: 0 <= i < maxSinks ==> slots[i] == None)
      ensures seqNo == 0 && dropped == 0 && readings == 0 && trace == [] && queue == []
    {
      this.max := max;
      this.chunkSize := chunkSize;
      this.clock := clock;
      slots := new Option<SinkId>[maxSinks](i => None);
      seqNo := 0;
      dropped := 0;
      readings := 0;
      trace := [];
      queue := [];
    }

    ghost function Sinks(): seq<SinkId>
      reads slots
    {
      Captured(slots[..])
    }

    /** The events of p as the next packet. */
    ghost function Next(p: Outgoing): seq<Event>
      requires p.Valid(max)
      reads this, slots
    {
      Streamed(Sinks(), p, max, seqNo, clock(readings))
    }

    // ---- The sink table ----

    method FindSink(wanted: Option<SinkId>) returns (i: nat)
      ensures i == FirstSlot(slots[..], wanted)
    {
      i := 0;
      while i < slots.Length && slots[i] != wanted
        invariant i <= slots.Length && wanted !in slots[..i]
      {
        i := i + 1;
      }
      FirstSlotIs(slots[..], wanted, i);
    }

    method AddSink(sink: SinkArg) returns (status: Status)
      modifies slots
      ensures status == INVALID_ARG <==> !sink.Ready?
      ensures status == OK ==> Some(sink.id) in slots[..]
      ensures status == NO_MEM ==> Some(sink.id) !in old(slots[..]) && None !in old(slots[..])
      ensures status != NOT_FOUND
      ensures slots[..] == old(slots[..]) ||
              (status == OK && Some(sink.id) !in old(slots[..]) &&
               var i := FirstSlot(old(slots[..]), None); i < slots.Length && slots[..] == old(slots[..])[i := Some(sink.id)])
    {
      if !sink.Ready? {
        return INVALID_ARG;
      }
      status := OK;
      var i := FindSink(Some(sink.id));
      if i == slots.Length {
        assert old(slots[..])[..i] == old(slots[..]);
        var free := FindSink(None);
        if free < slots.Length {
          slots[free] := Some(sink.id);
          assert slots[..][free] == Some(sink.id);
        } else {
          assert old(slots[..])[..free] == old(slots[..]);
          status := NO_MEM;
        }
      } else {
        assert slots[..][i] == Some(sink.id);
      }
    }

    method RemoveSink(sink: SinkArg) returns (status: Status)
      modifies slots
      ensures status == if !sink.NullSink? && Some(sink.id) in old(slots[..]) then OK else NOT_FOUND
      ensures status == NOT_FOUND ==> slots[..] == old(slots[..])
      ensures status == OK ==>
                var i := FirstSlot(old(slots[..]), Some(sink.id)); i < slots.Length && slots[..] == old(slots[..])[i := None]
    {
      if sink.NullSink? {
        return NOT_FOUND;
      }
      status := NOT_FOUND;
      var i := FindSink(Some(sink.id));
      if i < slots.Length {
        assert old(slots[..])[i] == Some(sink.id);
        slots[i] := None;
        status := OK;
      } else {
        assert old(slots[..])[..i] == old(slots[..]);
      }
    }

    // ---- Streams ----

    method StreamOpen() returns (stream: seq<SinkId>)
      ensures stream == Sinks()
    {
      stream := [];
      for i := 0 to slots.Length
        invariant stream == Captured(slots[..i])
      {
        assert slots[..i + 1][..i] == slots[..i];
        if slots[i].Some? {
          stream := stream + [slots[i].value];
        }
      }
      assert slots[..slots.Length] == slots[..];
    }

    method CallAll(stream: seq<SinkId>, call: Call)
      modifies this`trace
      ensures trace == old(trace) + ToAll(stream, call)
    {
      for i := 0 to |stream|
        invariant trace == old(trace) + ToAll(stream, call)[..i]
      {
        trace := trace + [Event(stream[i], call)];
      }
    }

    method StreamPayload(stream: seq<SinkId>, payload: seq<Byte>)
      modifies this`trace
      ensures trace == old(trace) + Streams.Sent(stream, NonEmpty(payload))
    {
      hide ToAll;
      if payload == [] {
        return;
      }
      CallAll(stream, Payload(Data(payload)));
      SentOne(stream, payload);
    }

    /** The header gets the next number and a clock reading, both taken after the sinks are captured. */
    method EmitHeader(p: Outgoing, payloadLen: U16) returns (stream: seq<SinkId>)
      requires p.Valid(max) && !p.Prebuilt? && payloadLen == |Packets.Payload(p, max)|
      modifies this`trace, this`seqNo, this`readings
      ensures stream == Sinks() && seqNo == old(seqNo) + 1 && readings == old(readings) + 1
      ensures trace == old(trace)
                       + ToAll(stream, Start(Data(HeaderFor(p, max, old(seqNo) % 0x1_0000, clock(old(readings))))))
    {
      hide HeaderFor, HeaderFields, ToAll, Packets.Payload;
      stream := StreamOpen();
      var header := HeaderBytes(HeaderFields(p, max, seqNo % 0x1_0000, clock(readings), payloadLen));
      HeaderIsRight(p, max, seqNo % 0x1_0000, clock(readings), payloadLen);
      seqNo := seqNo + 1;
      readings := readings + 1;
      CallAll(stream, Start(Data(header)));
    }

    method EmitU32(stream: seq<SinkId>, v: U32)
      modifies this`trace
      ensures trace == old(trace) + Streams.Sent(stream, [Le32(v)])
    {
      hide Le32, Streams.Sent;
      StreamPayload(stream, Le32(v));
    }

    method EmitText(stream: seq<SinkId>, text: seq<Byte>, n: U32)
      requires n != NULL_LEN ==> n <= |text|
      modifies this`trace
      ensures trace == old(trace) + Streams.Sent(stream, TextChunks(text, n))
    {
      hide Le32, Streams.Sent;
      EmitU32(stream, n);
      if n != NULL_LEN && n != 0 {
        StreamPayload(stream, text[..n]);
        SentAppend(stream, [Le32(n)], [text[..n]]);
        assert TextChunks(text, n) == [Le32(n)] + [text[..n]];
      }
    }

    method EmitWireStr(stream: seq<SinkId>, s: CString)
      requires ValidString(s, max)
      modifies this`trace
      ensures trace == old(trace) + Streams.Sent(stream, WireStrChunks(s, max))
    {
      hide TextChunks;
      var w := Locate(s, max);
      if w.id == ID_INLINE {
        EmitText(stream, s.mem.sent, w.len);
      }
    }

    /** The second pass over the arguments, with the string lengths the first one recorded. */
    method EmitPayloadArgs(stream: seq<SinkId>, c: LogCall, lens: array<U32>)
      requires c.Valid(max) && lens.Length == MAX_ARGS && Recorded(c, max, lens[..], |c.args|)
      modifies this`trace
      ensures c.Valid(max) && trace == old(trace) + Streams.Sent(stream, ArgsChunks(c.args, c.mask, max, 0))
    {
      hide ArgChunks, Streams.Sent, ValidArg, Recorded;
      for idx := 0 to |c.args|
        invariant Recorded(c, max, lens[..], |c.args|)
        invariant trace + Streams.Sent(stream, ArgsChunks(c.args, c.mask, max, idx))
                  == old(trace) + Streams.Sent(stream, ArgsChunks(c.args, c.mask, max, 0))
      {
        EmitArg(stream, c, lens, idx);
        SentAppend(stream, ArgChunks(c.args, c.mask, max, idx), ArgsChunks(c.args, c.mask, max, idx + 1));
      }
      assert Streams.Sent(stream, []) == [] by {
        SentNothing(stream);
      }
    }

    method EmitArg(stream: seq<SinkId>, c: LogCall, lens: array<U32>, idx: nat)
      requires c.Valid(max) && idx < |c.args| && lens.Length == MAX_ARGS && Recorded(c, max, lens[..], |c.args|)
      requires ValidArg(c.args[idx], max)
      modifies this`trace
      ensures trace == old(trace) + Streams.Sent(stream, ArgChunks(c.args, c.mask, max, idx))
    {
      hide Streams.Sent, LogCall.Valid, TextChunks, SentLen, Le32, Le64, ValidArg;
      match c.args[idx] {
        case Int32(v) => EmitU32(stream, v);
        case Int64(w) => StreamPayload(stream, Le64(w));
        case Pointer(p) => EmitU32(stream, p % 0x1_0000_0000);
        case Str(_) => EmitText(stream, SentText(c.args[idx]), lens[..][idx]);
        case StrView(_) => EmitText(stream, SentText(c.args[idx]), lens[..][idx]);
        case Unknown(_) => SentNothing(stream);
      }
    }

    // ---- Packets ----

    method EmitDropped(count: U32)
      modifies this`trace, this`seqNo, this`readings
      ensures trace == old(trace) + old(Next(Dropped(count)))
      ensures seqNo == old(seqNo) + 1 && readings == old(readings) + 1
    {
      hide Streams.Sent, ToAll, HeaderFor;
      var stream := EmitHeader(Dropped(count), 4);
      EmitU32(stream, count);
      CallAll(stream, End);
    }

    method EmitLog(c: LogCall, payloadLen: U16, lens: array<U32>)
      requires c.Valid(max) && Fits(c, max) && payloadLen == |LogPayload(c, max)|
      requires lens.Length == MAX_ARGS && Recorded(c, max, lens[..], |c.args|)
      modifies this`trace, this`seqNo, this`readings
      ensures trace == old(trace) + old(Next(Log(c)))
      ensures seqNo == old(seqNo) + 1 && readings == old(readings) + 1
    {
      hide Streams.Sent, ToAll, HeaderFor, ArgsChunks, PreambleChunks, LogPayload, ValidArg;
      PayloadOfLog(Log(c), max);
      var stream := EmitHeader(Log(c), payloadLen);
      EmitPreamble(stream, c);
      EmitPayloadArgs(stream, c, lens);
      SentAppend(stream, PreambleChunks(c, max), ArgsChunks(c.args, c.mask, max, 0));
      LogChunksSplit(c, max);
      CallAll(stream, End);
    }

    /** Inline strings, argument count and type table. */
    method EmitPreamble(stream: seq<SinkId>, c: LogCall)
      requires c.Valid(max)
      modifies this`trace
      ensures c.Valid(max) && trace == old(trace) + Streams.Sent(stream, PreambleChunks(c, max))
    {
      hide Streams.Sent, WireStrChunks, Types, ValidArg;
      EmitWireStr(stream, c.tag);
      EmitWireStr(stream, c.format);
      ghost var t, f := WireStrChunks(c.tag, max), WireStrChunks(c.format, max);
      SentAppend(stream, t, f);
      var count: seq<Byte> := [|c.args|];
      StreamPayload(stream, count);
      SentAppend(stream, t + f, [count]);
      ghost var types := if c.args == [] then [] else [Types(c.args)];
      if |c.args| != 0 {
        StreamPayload(stream, Types(c.args));
      } else {
        SentNothing(stream);
      }
      SentAppend(stream, t + f + [count], types);
    }

    /** Take the pending drop count and report it, if there is one. */
    method ReportDrops()
      modifies this`trace, this`seqNo, this`readings, this`dropped
      ensures dropped == 0
      ensures old(dropped) == 0 ==> trace == old(trace) && seqNo == old(seqNo) && readings == old(readings)
      ensures old(dropped) != 0 ==> trace == old(trace) + old(Next(Dropped(dropped)))
                                    && seqNo == old(seqNo) + 1 && readings == old(readings) + 1
    {
      var count := dropped;
      dropped := 0;
      if count != 0 {
        EmitDropped(count);
      }
    }

    method CountDrop()
      modifies this`dropped
      ensures dropped == (old(dropped) + 1) % 0x1_0000_0000
    {
      dropped := if dropped == 0xffff_ffff then 0 else dropped + 1;
    }

    /**
     * A log call: report drops, measure, then stream the packet or count the call as dropped. Where the scan of a string
     * would leave its readable bytes, `inside` is false and the call does not get beyond the report.
     */
    method Write(enabled: bool, c: LogCall) returns (inside: bool)
      requires c.Shaped(max)
      modifies this`trace, this`seqNo, this`readings, this`dropped
      ensures inside <==> !enabled || |c.args| > MAX_ARGS || c.Valid(max)
      ensures !enabled ==> trace == old(trace) && seqNo == old(seqNo) && readings == old(readings) && dropped == old(dropped)
      ensures enabled ==>
                var k := if old(dropped) == 0 then 0 else 1;
                var report := if k == 0 then [] else old(Next(Dropped(dropped)));
                var sent := c.Valid(max) && Fits(c, max);
                && dropped == (if inside && !sent then 1 else 0)
                && seqNo == old(seqNo) + k + (if sent then 1 else 0)
                && readings == old(readings) + k + (if sent then 1 else 0)
                && trace == old(trace) + report
                            + (if sent then Streamed(Sinks(), Log(c), max, old(seqNo) + k, clock(old(readings) + k)) else [])
    {
      hide Streamed, Fits, LogCall.Valid, LogCall.Shaped, HeaderFor, Chunks;
      if !enabled {
        return true;
      }
      ReportDrops();
      inside := WritePacket(c);
    }

    /** The part of a log call after the drop report: measure, then stream the packet or count the call as dropped. */
    method WritePacket(c: LogCall) returns (inside: bool)
      requires c.Shaped(max)
      modifies this`trace, this`seqNo, this`readings, this`dropped
      ensures inside <==> |c.args| > MAX_ARGS || c.Valid(max)
      ensures c.Valid(max) && Fits(c, max) ==>
                trace == old(trace) + old(Next(Log(c))) && seqNo == old(seqNo) + 1
                && readings == old(readings) + 1 && dropped == old(dropped)
      ensures !(c.Valid(max) && Fits(c, max)) ==>
                trace == old(trace) && seqNo == old(seqNo) && readings == old(readings)
                && dropped == if inside then (old(dropped) + 1) % 0x1_0000_0000 else old(dropped)
    {
      hide Streamed, LogPayload, LogCall.Valid, LogCall.Shaped, HeaderFor, Chunks;
      var lens := new U32[MAX_ARGS](i => 0);
      var prefix := PrefixLen(c);
      var fits, payloadLen;
      inside, fits, payloadLen := MeasurePayload(c, max, prefix, lens);
      if !inside {
        return;
      }
      if !fits {
        CountDrop();
        return;
      }
      EmitLog(c, payloadLen, lens);
    }

    method PrefixLen(c: LogCall) returns (n: nat)
      requires c.Shaped(max)
      ensures ValidString(c.tag, max) && ValidString(c.format, max)
      ensures n == |WireStrBytes(c.tag, max)| + |WireStrBytes(c.format, max)|
    {
      n := WireStrSize(Locate(c.tag, max)) + WireStrSize(Locate(c.format, max));
    }

    method EmitBoot(bootId: U32, reason: Byte, idKind: Byte, id: seq<Byte>)
      requires |id| <= IMAGE_ID_MAX_LEN
      modifies this`trace, this`seqNo, this`readings
      ensures trace == old(trace) + old(Next(Boot(bootId, reason, idKind, id)))
      ensures seqNo == old(seqNo) + 1 && readings == old(readings) + 1
    {
      hide Streams.Sent, ToAll, HeaderFor, Chunks;
      var stream := EmitHeader(Boot(bootId, reason, idKind, id), 8 + |id|);
      EmitBootFields(stream, bootId, reason, idKind, id);
      CallAll(stream, End);
    }

    method EmitBootFields(stream: seq<SinkId>, bootId: U32, reason: Byte, idKind: Byte, id: seq<Byte>)
      requires |id| <= IMAGE_ID_MAX_LEN
      modifies this`trace
      ensures trace == old(trace) + Streams.Sent(stream, Chunks(Boot(bootId, reason, idKind, id), max))
    {
      hide Streams.Sent, Le32, NonEmpty, Chunks;
      var fields: seq<Byte> := [reason, WIRE_FORMAT_VERSION, idKind, |id|];
      EmitU32(stream, bootId);
      StreamPayload(stream, fields);
      OneChunk(fields);
      SentAppend(stream, [Le32(bootId)], [fields]);
      StreamPayload(stream, id);
      SentAppend(stream, [Le32(bootId)] + [fields], NonEmpty(id));
      BootChunks(bootId, reason, idKind, id, max);
    }

    method EmitBufferPart(level: Nibble, tag: CString, total: U32, offset: U32, data: seq<Byte>)
      requires BufferPart(level, tag, total, offset, data).Valid(max)
      modifies this`trace, this`seqNo, this`readings
      ensures trace == old(trace) + old(Next(BufferPart(level, tag, total, offset, data)))
      ensures seqNo == old(seqNo) + 1 && readings == old(readings) + 1
    {
      hide Streams.Sent, ToAll, HeaderFor, Chunks, WireStrBytes;
      PayloadSize(BufferPart(level, tag, total, offset, data), max);
      var stream := EmitHeader(BufferPart(level, tag, total, offset, data), TagSize(tag, max) + 12 + |data|);
      EmitBufferFields(stream, level, tag, total, offset, data);
      CallAll(stream, End);
    }

    /** Inline tag, the three lengths and the data. */
    method EmitBufferFields(stream: seq<SinkId>, level: Nibble, tag: CString, total: U32, offset: U32, data: seq<Byte>)
      requires BufferPart(level, tag, total, offset, data).Valid(max)
      modifies this`trace
      ensures trace == old(trace) + Streams.Sent(stream, Chunks(BufferPart(level, tag, total, offset, data), max))
    {
      hide Streams.Sent, Le32, WireStrChunks, WireStrBytes, NonEmpty;
      EmitWireStr(stream, tag);
      ghost var t := WireStrChunks(tag, max);
      EmitU32(stream, total);
      SentAppend(stream, t, [Le32(total)]);
      EmitU32(stream, offset);
      SentAppend(stream, t + [Le32(total)], [Le32(offset)]);
      EmitU32(stream, |data|);
      SentAppend(stream, t + [Le32(total)] + [Le32(offset)], [Le32(|data|)]);
      StreamPayload(stream, data);
      SentAppend(stream, t + [Le32(total)] + [Le32(offset)] + [Le32(|data|)], NonEmpty(data));
      assert t + [Le32(total)] + [Le32(offset)] + [Le32(|data|)] == t + [Le32(total), Le32(offset), Le32(|data|)];
    }

    /**
     * A log call from an interrupt: the packet is built on the stack and queued, or the call is counted as dropped.
     * Whether the queue is there and whether it takes the packet is up to the port.
     */
    method WriteIsr(enabled: bool, ready: bool, c: LogCall, cap: nat, time: U32, granted: bool) returns (ok: bool)
      requires c.Valid(max) && 32 <= cap <= 3072
      modifies this`queue, this`dropped
      ensures !enabled || !ready ==> ok && queue == old(queue) && dropped == old(dropped)
      ensures enabled && ready ==>
                (ok <==> granted && Encoder.IsrSafe(c.args) && HEADER_LEN + |LogPayload(c, max)| <= cap)
      ensures enabled && ready && ok ==> queue == old(queue) + [Encoder.IsrPacket(c, max, time)] && dropped == old(dropped)
      ensures !ok ==> queue == old(queue) && dropped == (old(dropped) + 1) % 0x1_0000_0000
    {
      hide LogPayload, ValidArg, Encoder.IsrSafe, Encoder.IsrPacket;
      if !enabled || !ready {
        return true;
      }
      var safe := Encoder.ArgTypesAreIsrSafe(c.args);
      if !safe {
        CountDrop();
        return false;
      }
      var packet := new Byte[cap](i => 0);
      var len;
      ok, len := Encoder.EncodeIsrLogPacket(packet, c, max, time);
      if !ok || !granted {
        CountDrop();
        return false;
      }
      queue := queue + [packet[..len]];
    }

    /** The oldest packet of the queue. */
    method Receive() returns (packet: seq<Byte>)
      requires queue != []
      modifies this`queue
      ensures packet == old(queue)[0] && queue == old(queue)[1..]
    {
      packet := queue[0];
      queue := queue[1..];
    }

    /** Hand a serialised packet to the sinks, numbering it now; its time stays. */
    method DispatchPacket(packet: Option<seq<Byte>>) returns (status: Status)
      modifies this`trace, this`seqNo, this`readings, this`dropped
      ensures status == (if packet.Some? && |packet.value| >= 18 && packet.value[0] == 0x9a then OK else INVALID_ARG)
      ensures status == INVALID_ARG ==>
                trace == old(trace) && seqNo == old(seqNo) && readings == old(readings) && dropped == old(dropped)
      ensures status == OK ==>
                var k := if old(dropped) == 0 then 0 else 1;
                var p := Prebuilt(packet.value);
                && dropped == 0
                && seqNo == old(seqNo) + k + (if p.Numbered() then 1 else 0)
                && readings == old(readings) + k
                && trace == old(trace) + (if k == 0 then [] else old(Next(Dropped(dropped))))
                            + Streamed(Sinks(), p, max, old(seqNo) + k, 0)
    {
      hide Streamed, HeaderFor, Chunks;
      if packet.None? || |packet.value| < HEADER_LEN || packet.value[0] != MAGIC {
        return INVALID_ARG;
      }
      ReportDrops();
      EmitPrebuilt(packet.value);
      status := OK;
    }

    /** Only a packet that is not TIME_SYNC uses up a number. */
    method EmitPrebuilt(packet: seq<Byte>)
      requires Prebuilt(packet).Valid(max)
      modifies this`trace, this`seqNo
      ensures seqNo == old(seqNo) + (if Prebuilt(packet).Numbered() then 1 else 0)
      ensures trace == old(trace) + Streamed(Sinks(), Prebuilt(packet), max, old(seqNo), 0)
    {
      hide Streams.Sent, ToAll, HeaderFor, Chunks, NonEmpty;
      PrebuiltChunks(packet, max);
      var stream := StreamOpen();
      var header := NumberHeader(packet);
      CallAll(stream, Start(Data(header)));
      StreamPayload(stream, packet[HEADER_LEN..]);
      CallAll(stream, End);
    }

    method NumberHeader(packet: seq<Byte>) returns (header: seq<Byte>)
      requires Prebuilt(packet).Valid(max)
      modifies this`seqNo
      ensures header == HeaderFor(Prebuilt(packet), max, old(seqNo) % 0x1_0000, 0)
      ensures seqNo == old(seqNo) + (if Prebuilt(packet).Numbered() then 1 else 0)
    {
      header := packet[..HEADER_LEN];
      if header[1] / 16 != PKT_TIME_SYNC {
        var number := seqNo % 0x1_0000;
        header := header[2 := number % 0x100][3 := number / 0x100];
        seqNo := seqNo + 1;
      }
    }

    /** Events of a list of packets, numbered and timed one after the other. */
    ghost function StreamedAll(ps: seq<Outgoing>, firstSeq: nat, firstReading: nat): seq<Event>
      requires forall p :: p in ps ==> p.Valid(max)
      reads slots
      decreases |ps|
    {
      if ps == [] then []
      else Streamed(Sinks(), ps[0], max, firstSeq, clock(firstReading)) + StreamedAll(ps[1..], firstSeq + 1, firstReading + 1)
    }

    /** A raw buffer becomes the packets of BufferParts, or is counted as dropped. */
    method WriteBuffer(enabled: bool, level: Nibble, tag: CString, buffer: Buffer)
      requires Valid() && ValidString(tag, max)
      modifies this`trace, this`seqNo, this`readings, this`dropped
      ensures Valid()
      ensures !enabled ==> trace == old(trace) && seqNo == old(seqNo) && readings == old(readings) && dropped == old(dropped)
      ensures enabled && (if buffer.Null? then buffer.len != 0 else |buffer.bytes| > 0xffff_ffff) ==>
                trace == old(trace) && seqNo == old(seqNo) && readings == old(readings)
                && dropped == (old(dropped) + 1) % 0x1_0000_0000
      ensures enabled && (if buffer.Null? then buffer.len == 0 else |buffer.bytes| <= 0xffff_ffff) ==>
                var k := if old(dropped) == 0 then 0 else 1;
                var report := if k == 0 then [] else old(Next(Dropped(dropped)));
                if BufferFits(tag, max, chunkSize) then
                  var parts := BufferParts(level, tag, Readable(buffer), max, chunkSize);
                  && (forall p :: p in parts ==> p.Valid(max))
                  && dropped == 0 && seqNo == old(seqNo) + k + |parts| && readings == old(readings) + k + |parts|
                  && trace == old(trace) + report + StreamedAll(parts, old(seqNo) + k, old(readings) + k)
                else
                  && dropped == 1 && trace == old(trace) + report
                  && seqNo == old(seqNo) + k && readings == old(readings) + k
    {
      hide Streamed, WireStrBytes, BufferParts, Outgoing.Valid, BufferFits, StreamedAll;
      if !enabled {
        return;
      }
      if (buffer.Null? && buffer.len != 0) || (buffer.Data? && |buffer.bytes| > 0xffff_ffff) {
        CountDrop();
        return;
      }
      ReportDrops();
      WriteAccepted(level, tag, Readable(buffer));
    }

    /** The part of a buffer call after the drop report. */
    method WriteAccepted(level: Nibble, tag: CString, bytes: seq<Byte>)
      requires Valid() && ValidString(tag, max) && |bytes| < 0x1_0000_0000
      modifies this`trace, this`seqNo, this`readings, this`dropped
      ensures Valid()
      ensures !BufferFits(tag, max, chunkSize) ==>
                trace == old(trace) && seqNo == old(seqNo) && readings == old(readings)
                && dropped == (old(dropped) + 1) % 0x1_0000_0000
      ensures BufferFits(tag, max, chunkSize) ==>
                var parts := BufferParts(level, tag, bytes, max, chunkSize);
                && (forall p :: p in parts ==> p.Valid(max))
                && dropped == old(dropped) && seqNo == old(seqNo) + |parts| && readings == old(readings) + |parts|
                && trace == old(trace) + StreamedAll(parts, old(seqNo), old(readings))
    {
      hide Streamed, WireStrBytes, BufferParts, Outgoing.Valid, Reassembled;
      var tagSize := TagSize(tag, max);
      var chunkMax := if tagSize < chunkSize then chunkSize - tagSize else 1;
      if tagSize + 12 + chunkMax > PAYLOAD_LEN_MAX {
        CountDrop();
        return;
      }
      BufferArrivesWhole(level, tag, bytes, max, chunkSize);
      WriteParts(level, tag, bytes, chunkMax);
    }

    lemma StreamedAllFirst(ps: seq<Outgoing>, firstSeq: nat, firstReading: nat)
      requires (forall p :: p in ps ==> p.Valid(max)) && ps != []
      ensures ps[0] in ps && forall p :: p in ps[1..] ==> p in ps
      ensures StreamedAll(ps, firstSeq, firstReading)
              == Streamed(Sinks(), ps[0], max, firstSeq, clock(firstReading)) + StreamedAll(ps[1..], firstSeq + 1, firstReading + 1)
    {
      hide Streamed, Outgoing.Valid;
    }

    method WriteParts(level: Nibble, tag: CString, bytes: seq<Byte>, chunkMax: nat)
      requires Valid() && ValidString(tag, max) && |bytes| < 0x1_0000_0000
      requires BufferFits(tag, max, chunkSize) && chunkMax == ChunkMax(|WireStrBytes(tag, max)|, chunkSize)
      requires forall p :: p in BufferParts(level, tag, bytes, max, chunkSize) ==> p.Valid(max)
      modifies this`trace, this`seqNo, this`readings
      ensures Valid()
      ensures var parts := BufferParts(level, tag, bytes, max, chunkSize);
              && seqNo == old(seqNo) + |parts| && readings == old(readings) + |parts|
              && trace == old(trace) + StreamedAll(parts, old(seqNo), old(readings))
    {
      hide Streamed, WireStrBytes, Outgoing.Valid, Captured, ChunkMax;
      ghost var parts := BufferParts(level, tag, bytes, max, chunkSize);
      if bytes == [] {
        assert parts[0] in parts && parts[1..] == [];
        EmitBufferPart(level, tag, 0, 0, []);
        return;
      }
      var offset := 0;
      while offset < |bytes|
        invariant offset <= |bytes|
        invariant forall p :: p in PartsFrom(level, tag, bytes, chunkMax, offset) ==> p.Valid(max)
        invariant seqNo + |PartsFrom(level, tag, bytes, chunkMax, offset)| == old(seqNo) + |parts|
        invariant readings - old(readings) == seqNo - old(seqNo)
        invariant trace + StreamedAll(PartsFrom(level, tag, bytes, chunkMax, offset), seqNo, readings)
                  == old(trace) + StreamedAll(parts, old(seqNo), old(readings))
        decreases |bytes| - offset
      {
        offset := WriteNextPart(level, tag, bytes, chunkMax, offset);
      }
    }

    /** Streams the part at offset; what is still to be streamed shrinks by exactly its events. */
    method WriteNextPart(level: Nibble, tag: CString, bytes: seq<Byte>, chunkMax: nat, offset: nat) returns (next: nat)
      requires ValidString(tag, max) && offset < |bytes| < 0x1_0000_0000 && chunkMax >= 1
      requires forall p :: p in PartsFrom(level, tag, bytes, chunkMax, offset) ==> p.Valid(max)
      modifies this`trace, this`seqNo, this`readings
      ensures offset < next <= |bytes| && next == offset + Min(|bytes| - offset, chunkMax)
      ensures forall p :: p in PartsFrom(level, tag, bytes, chunkMax, next) ==> p.Valid(max)
      ensures seqNo == old(seqNo) + 1 && readings == old(readings) + 1
      ensures |PartsFrom(level, tag, bytes, chunkMax, offset)| == |PartsFrom(level, tag, bytes, chunkMax, next)| + 1
      ensures trace + StreamedAll(PartsFrom(level, tag, bytes, chunkMax, next), seqNo, readings)
              == old(trace) + StreamedAll(PartsFrom(level, tag, bytes, chunkMax, offset), old(seqNo), old(readings))
    {
      hide Streamed, WireStrBytes, Outgoing.Valid, Captured, PartsFrom, StreamedAll, HeaderFor, Chunks;
      ghost var rest := PartsFrom(level, tag, bytes, chunkMax, offset);
      var chunkLen := Min(|bytes| - offset, chunkMax);
      next := offset + chunkLen;
      FirstPart(level, tag, bytes, chunkMax, offset);
      StreamedAllFirst(rest, seqNo, readings);
      EmitBufferPart(level, tag, |bytes|, offset, bytes[offset..next]);
    }
  }

  function PreambleChunks(c: LogCall, max: MaxString): seq<seq<Byte>>
    requires c.Valid(max)
  {
    WireStrChunks(c.tag, max) + WireStrChunks(c.format, max) + [[|c.args|]] + (if c.args == [] then [] else [Types(c.args)])
  }

  lemma BootChunks(bootId: U32, reason: Byte, idKind: Byte, id: seq<Byte>, max: MaxString)
    requires |id| <= IMAGE_ID_MAX_LEN
    ensures Chunks(Boot(bootId, reason, idKind, id), max)
            == [Le32(bootId)] + [[reason, WIRE_FORMAT_VERSION, idKind, |id|]] + NonEmpty(id)
  {
    hide Le32, NonEmpty;
  }

  lemma PrebuiltChunks(packet: seq<Byte>, max: MaxString)
    requires Prebuilt(packet).Valid(max)
    ensures Chunks(Prebuilt(packet), max) == NonEmpty(packet[HEADER_LEN..])
  {
  }

  lemma LogChunksSplit(c: LogCall, max: MaxString)
    requires c.Valid(max)
    ensures LogChunks(c, max) == PreambleChunks(c, max) + ArgsChunks(c.args, c.mask, max, 0)
  {
  }

  function TagSize(tag: CString, max: MaxString): (n: nat)
    requires ValidString(tag, max)
    ensures n == |WireStrBytes(tag, max)|
  {
    WireStrSize(Locate(tag, max))
  }

  lemma FirstPart(level: Nibble, tag: CString, buffer: seq<Byte>, chunkMax: nat, offset: nat)
    requires |buffer| < 0x1_0000_0000 && offset < |buffer| && chunkMax >= 1
    ensures var next, parts := offset + Min(|buffer| - offset, chunkMax), PartsFrom(level, tag, buffer, chunkMax, offset);
            && parts != [] && parts[0] == BufferPart(level, tag, |buffer|, offset, buffer[offset..next])
            && parts[1..] == PartsFrom(level, tag, buffer, chunkMax, next)
  {
  }

  lemma OneChunk(chunk: seq<Byte>)
    requires chunk != []
    ensures NonEmpty(chunk) == [chunk]
  {
  }

  lemma SentNothing(sinks: seq<SinkId>)
    ensures Streams.Sent(sinks, []) == []
  {
  }

  lemma FirstSlotIs(slots: seq<Option<SinkId>>, wanted: Option<SinkId>, i: nat)
    requires i <= |slots| && wanted !in slots[..i] && (i < |slots| ==> slots[i] == wanted)
    ensures i == FirstSlot(slots, wanted)
  {
  }
}
