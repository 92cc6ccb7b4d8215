/** Every kind of packet the logger streams: its header, its payload chunks, and what it decodes to. */
module Packets {
  import opened Bytes
  import opened Wire
  import opened PacketDecoder

  const WIRE_FORMAT_VERSION: Byte := 1
  const IMAGE_ID_MAX_LEN: nat := 32

  datatype Outgoing =
    | Log(call: LogCall)
    | Dropped(count: U32)
    | Boot(bootId: U32, reason: Byte, idKind: Byte, id: seq<Byte>)
    | BufferPart(level: Nibble, tag: CString, total: U32, offset: U32, data: seq<Byte>)
    | Prebuilt(packet: seq<Byte>)     // serialised earlier, numbered when dispatched
  {
    /** Everything the callers guarantee before a packet is streamed. */
    ghost predicate Valid(max: MaxString) {
      match this
      case Log(c) => c.Valid(max) && Fits(c, max)
      case Dropped(_) => true
      case Boot(_, _, _, id) => |id| <= IMAGE_ID_MAX_LEN
      case BufferPart(_, tag, _, _, data) =>
        ValidString(tag, max) && |WireStrBytes(tag, max)| + 12 + |data| <= PAYLOAD_LEN_MAX
      case Prebuilt(packet) => |packet| >= HEADER_LEN && packet[0] == MAGIC
    }

    /** The packet takes a sequence number; TIME_SYNC does not. */
    predicate Numbered()
      requires Prebuilt? ==> |packet| >= HEADER_LEN
    {
      Prebuilt? ==> packet[1] / 16 != PKT_TIME_SYNC
    }
  }

  // ---- Chunks, in the order the payload callbacks get them ----

  function TextChunks(text: seq<Byte>, n: U32): seq<seq<Byte>>
    requires n != NULL_LEN ==> n <= |text|
  {
    if n == NULL_LEN then [Le32(NULL_LEN)] else if n == 0 then [Le32(0)] else [Le32(n), text[..n]]
  }

  function WireStrChunks(s: CString, max: MaxString): seq<seq<Byte>>
    requires ValidString(s, max)
  {
    var w := Locate(s, max);
    if w.id == ID_INLINE then TextChunks(s.mem.sent, w.len) else []
  }

  function ArgChunks(args: seq<Arg>, mask: set<nat>, max: MaxString, i: nat): seq<seq<Byte>>
    requires i < |args| && ValidArg(args[i], max)
  {
    match args[i]
    case Int32(v) => [Le32(v)]
    case Int64(w) => [Le64(w)]
    case Pointer(p) => [Le32(p % 0x1_0000_0000)]
    case Str(_) => TextChunks(SentText(args[i]), SentLen(args, mask, max, i))
    case StrView(_) => TextChunks(SentText(args[i]), SentLen(args, mask, max, i))
    case Unknown(_) => []
  }

  function ArgsChunks(args: seq<Arg>, mask: set<nat>, max: MaxString, i: nat): seq<seq<Byte>>
    requires i <= |args| && forall a :: a in args ==> ValidArg(a, max)
    decreases |args| - i
  {
    if i == |args| then [] else ArgChunks(args, mask, max, i) + ArgsChunks(args, mask, max, i + 1)
  }

  function LogChunks(c: LogCall, max: MaxString): seq<seq<Byte>>
    requires c.Valid(max)
  {
    WireStrChunks(c.tag, max) + WireStrChunks(c.format, max) + [[|c.args|]]
    + (if c.args == [] then [] else [Types(c.args)]) + ArgsChunks(c.args, c.mask, max, 0)
  }

  function NonEmpty(chunk: seq<Byte>): seq<seq<Byte>> {
    if chunk == [] then [] else [chunk]
  }

  function Chunks(p: Outgoing, max: MaxString): seq<seq<Byte>>
    requires p.Valid(max)
  {
    match p
    case Log(c) => LogChunks(c, max)
    case Dropped(n) => [Le32(n)]
    case Boot(bootId, reason, idKind, id) =>
      [Le32(bootId), [reason, WIRE_FORMAT_VERSION, idKind, |id|]] + NonEmpty(id)
    case BufferPart(_, tag, total, offset, data) =>
      WireStrChunks(tag, max) + [Le32(total), Le32(offset), Le32(|data|)] + NonEmpty(data)
    case Prebuilt(packet) => NonEmpty(packet[HEADER_LEN..])
  }

  function Payload(p: Outgoing, max: MaxString): seq<Byte>
    requires p.Valid(max)
  {
    match p
    case Log(c) => LogPayload(c, max)
    case Dropped(n) => Le32(n)
    case Boot(bootId, reason, idKind, id) => Le32(bootId) + [reason, WIRE_FORMAT_VERSION, idKind, |id|] + id
    case BufferPart(_, tag, total, offset, data) =>
      WireStrBytes(tag, max) + Le32(total) + Le32(offset) + Le32(|data|) + data
    case Prebuilt(packet) => packet[HEADER_LEN..]
  }

  /** The header as streamed: number and time are taken under the emit lock, except the time of a prebuilt packet. */
  function HeaderFor(p: Outgoing, max: MaxString, seqNo: U16, time: U32): (r: seq<Byte>)
    requires p.Valid(max)
    ensures |r| == HEADER_LEN
  {
    match p
    case Log(c) => HeaderBytes(LogHeader(c, max, seqNo, time))
    case Dropped(_) => HeaderBytes(Header(PKT_DROPPED, 0, seqNo, time, 0, 0, 4))
    case Boot(_, _, _, id) => HeaderBytes(Header(PKT_BOOT, 0, seqNo, time, 0, 0, 8 + |id|))
    case BufferPart(level, tag, _, _, data) =>
      HeaderBytes(Header(PKT_BUFFER, level, seqNo, time, Locate(tag, max).id, 0, |WireStrBytes(tag, max)| + 12 + |data|))
    case Prebuilt(packet) =>
      if p.Numbered() then packet[..HEADER_LEN][2 := seqNo % 0x100][3 := seqNo / 0x100] else packet[..HEADER_LEN]
  }

  /** The header fields of a packet that is not prebuilt, with its payload length as given. */
  function HeaderFields(p: Outgoing, max: MaxString, seqNo: U16, time: U32, payloadLen: U16): Header
    requires p.Valid(max) && !p.Prebuilt?
  {
    match p
    case Log(c) => Header(PKT_LOG, c.level, seqNo, time, Locate(c.tag, max).id, Locate(c.format, max).id, payloadLen)
    case Dropped(_) => Header(PKT_DROPPED, 0, seqNo, time, 0, 0, payloadLen)
    case Boot(_, _, _, _) => Header(PKT_BOOT, 0, seqNo, time, 0, 0, payloadLen)
    case BufferPart(level, tag, _, _, _) => Header(PKT_BUFFER, level, seqNo, time, Locate(tag, max).id, 0, payloadLen)
  }

  /** The header is right exactly for the length of the payload that follows. */
  lemma HeaderIsRight(p: Outgoing, max: MaxString, seqNo: U16, time: U32, payloadLen: U16)
    requires p.Valid(max) && !p.Prebuilt?
    ensures payloadLen == |Payload(p, max)|
            ==> HeaderFor(p, max, seqNo, time) == HeaderBytes(HeaderFields(p, max, seqNo, time, payloadLen))
  {
    hide HeaderBytes, Payload, WireStrBytes, LogPayload, Locate;
    if !p.Log? { PayloadSize(p, max); } else { PayloadOfLog(p, max); }
  }

  function WholePacket(p: Outgoing, max: MaxString, seqNo: U16, time: U32): seq<Byte>
    requires p.Valid(max)
  {
    HeaderFor(p, max, seqNo, time) + Payload(p, max)
  }

  // ---- The chunks carry the payload ----

  lemma FlattenOne(a: seq<Byte>)
    ensures Flatten([a]) == a
  {
    assert [a][1..] == [];
    assert a + Flatten([]) == a;
  }

  lemma FlattenTwo(a: seq<Byte>, b: seq<Byte>)
    ensures Flatten([a, b]) == a + b
  {
    assert [a, b][1..] == [b];
    FlattenOne(b);
  }

  lemma FlattenText(text: seq<Byte>, n: U32)
    requires n != NULL_LEN ==> n <= |text|
    ensures Flatten(TextChunks(text, n)) == TextBytes(text, n)
  {
    hide Le32, Flatten;
    if n == NULL_LEN {
      FlattenOne(Le32(NULL_LEN));
    } else if n == 0 {
      FlattenOne(Le32(0));
      assert text[..n] == [];
    } else {
      FlattenTwo(Le32(n), text[..n]);
    }
  }

  lemma FlattenWireStr(s: CString, max: MaxString)
    requires ValidString(s, max)
    ensures Flatten(WireStrChunks(s, max)) == WireStrBytes(s, max)
  {
    hide Locate, TextChunks;
    var w := Locate(s, max);
    if w.id == ID_INLINE {
      FlattenText(s.mem.sent, w.len);
    }
  }

  lemma FlattenArg(args: seq<Arg>, mask: set<nat>, max: MaxString, i: nat)
    requires i < |args| && ValidArg(args[i], max)
    ensures Flatten(ArgChunks(args, mask, max, i)) == ArgBytes(args, mask, max, i)
  {
    hide Le32, Le64, TextChunks, TextBytes, SentText, SentLen;
    match args[i]
    case Int32(v) => FlattenOne(Le32(v));
    case Int64(w) => FlattenOne(Le64(w));
    case Pointer(p) => FlattenOne(Le32(p % 0x1_0000_0000));
    case Str(_) => FlattenText(SentText(args[i]), SentLen(args, mask, max, i));
    case StrView(_) => FlattenText(SentText(args[i]), SentLen(args, mask, max, i));
    case Unknown(_) =>
  }

  lemma {:induction false} FlattenArgs(args: seq<Arg>, mask: set<nat>, max: MaxString, i: nat)
    requires i <= |args| && forall a :: a in args ==> ValidArg(a, max)
    ensures Flatten(ArgsChunks(args, mask, max, i)) == ArgsBytes(args, mask, max, i)
    decreases |args| - i
  {
    hide ArgChunks, ArgBytes, ValidArg;
    if i < |args| {
      assert args[i] in args;
      FlattenArg(args, mask, max, i);
      FlattenArgs(args, mask, max, i + 1);
      FlattenAppend(ArgChunks(args, mask, max, i), ArgsChunks(args, mask, max, i + 1));
    }
  }

  lemma FlattenLog(c: LogCall, max: MaxString)
    requires c.Valid(max)
    ensures Flatten(LogChunks(c, max)) == LogPayload(c, max)
  {
    hide WireStrChunks, WireStrBytes, ArgsChunks, ArgsBytes, Flatten, Types;
    var t, f, v := WireStrChunks(c.tag, max), WireStrChunks(c.format, max), ArgsChunks(c.args, c.mask, max, 0);
    var types := if c.args == [] then [] else [Types(c.args)];
    var count: seq<Byte> := [|c.args|];
    FlattenAppend(t + f + [count] + types, v);
    FlattenAppend(t + f + [count], types);
    FlattenAppend(t + f, [count]);
    FlattenAppend(t, f);
    FlattenWireStr(c.tag, max);
    FlattenWireStr(c.format, max);
    FlattenArgs(c.args, c.mask, max, 0);
    FlattenOne(count);
    FlattenTypes(c.args);
  }

  lemma FlattenTypes(args: seq<Arg>)
    ensures Flatten(if args == [] then [] else [Types(args)]) == Types(args)
  {
    if args != [] {
      FlattenOne(Types(args));
    }
  }

  lemma FlattenNonEmpty(a: seq<Byte>)
    ensures Flatten(NonEmpty(a)) == a
  {
    if a != [] {
      FlattenOne(a);
    }
  }

  lemma FlattenThree(a: seq<Byte>, b: seq<Byte>, c: seq<Byte>)
    ensures Flatten([a, b, c]) == a + b + c
  {
    assert [a, b, c][1..] == [b, c];
    FlattenTwo(b, c);
  }

  /** The chunks handed to the payload callbacks are exactly the packet's payload. */
  lemma ChunksAreThePayload(p: Outgoing, max: MaxString)
    requires p.Valid(max)
    ensures Flatten(Chunks(p, max)) == Payload(p, max)
  {
    hide Le32, Flatten, LogChunks, LogPayload, WireStrChunks, WireStrBytes, NonEmpty;
    match p
    case Log(c) => FlattenLog(c, max);
    case Dropped(n) => FlattenOne(Le32(n));
    case Boot(bootId, reason, idKind, id) =>
      var fields: seq<Byte> := [reason, WIRE_FORMAT_VERSION, idKind, |id|];
      FlattenAppend([Le32(bootId), fields], NonEmpty(id));
      FlattenTwo(Le32(bootId), fields);
      FlattenNonEmpty(id);
    case BufferPart(_, tag, total, offset, data) =>
      FlattenBuffer(tag, max, total, offset, data);
    case Prebuilt(packet) => FlattenNonEmpty(packet[HEADER_LEN..]);
  }

  lemma FlattenBuffer(tag: CString, max: MaxString, total: U32, offset: U32, data: seq<Byte>)
    requires ValidString(tag, max) && |data| < 0x1_0000_0000
    ensures Flatten(WireStrChunks(tag, max) + [Le32(total), Le32(offset), Le32(|data|)] + NonEmpty(data))
            == WireStrBytes(tag, max) + Le32(total) + Le32(offset) + Le32(|data|) + data
  {
    hide Le32, Flatten, WireStrChunks, WireStrBytes, NonEmpty;
    var t, fields := WireStrChunks(tag, max), [Le32(total), Le32(offset), Le32(|data|)];
    FlattenAppend(t + fields, NonEmpty(data));
    FlattenAppend(t, fields);
    FlattenThree(Le32(total), Le32(offset), Le32(|data|));
    FlattenNonEmpty(data);
    FlattenWireStr(tag, max);
  }

  // ---- Round trip ----

  /** What a receiver should get for a packet. */
  function Expected(p: Outgoing, max: MaxString, seqNo: U16, time: U32): Option<Packet>
    requires p.Valid(max)
  {
    match p
    case Log(c) => Some(Packet(LogHeader(c, max, seqNo, time), LogBodyOf(c, max)))
    case Dropped(n) => Some(Packet(Header(PKT_DROPPED, 0, seqNo, time, 0, 0, 4), DroppedBody(n)))
    case Boot(bootId, reason, idKind, id) =>
      Some(Packet(Header(PKT_BOOT, 0, seqNo, time, 0, 0, 8 + |id|), BootBody(bootId, reason, WIRE_FORMAT_VERSION, idKind, id)))
    case BufferPart(level, tag, total, offset, data) =>
      Some(Packet(Header(PKT_BUFFER, level, seqNo, time, Locate(tag, max).id, 0, |WireStrBytes(tag, max)| + 12 + |data|),
                  BufferBody(RefOf(tag, max), total, offset, data)))
    case Prebuilt(packet) =>
      match DecodePacket(packet)
      case None => None
      case Some(q) => Some(if p.Numbered() then Packet(q.header.(seqNo := seqNo), q.body) else q)
  }

  lemma DecodeBootOf(bootId: U32, reason: Byte, idKind: Byte, id: seq<Byte>)
    requires |id| <= IMAGE_ID_MAX_LEN
    ensures DecodeBoot(Le32(bootId) + [reason, WIRE_FORMAT_VERSION, idKind, |id|] + id)
            == Some(BootBody(bootId, reason, WIRE_FORMAT_VERSION, idKind, id))
  {
    hide Le32, FromLe32;
    var s := Le32(bootId) + [reason, WIRE_FORMAT_VERSION, idKind, |id|] + id;
    assert s[..4] == Le32(bootId) && s[8..] == id;
    Le32RoundTrip(bootId);
  }

  lemma BufferTailOf(tag: StrRef, total: U32, offset: U32, data: seq<Byte>)
    requires |data| < 0x1_0000_0000
    ensures BufferTail(tag, Le32(total) + Le32(offset) + Le32(|data|) + data) == Some(BufferBody(tag, total, offset, data))
  {
    hide Le32, FromLe32;
    var s := Le32(total) + Le32(offset) + Le32(|data|) + data;
    assert s[..4] == Le32(total) && s[4..8] == Le32(offset) && s[8..12] == Le32(|data|) && s[12..] == data;
    Le32RoundTrip(total);
    Le32RoundTrip(offset);
    Le32RoundTrip(|data|);
  }

  lemma DecodeBufferOf(h: Header, tag: CString, max: MaxString, total: U32, offset: U32, data: seq<Byte>)
    requires ValidString(tag, max) && |data| < 0x1_0000_0000 && h.tagId == Locate(tag, max).id
    ensures DecodeBuffer(h, WireStrBytes(tag, max) + Le32(total) + Le32(offset) + Le32(|data|) + data)
            == Some(BufferBody(RefOf(tag, max), total, offset, data))
  {
    hide Le32, TakeRef, BufferTail, Locate, RefOf, WireStrBytes;
    var rest := Le32(total) + Le32(offset) + Le32(|data|) + data;
    assert WireStrBytes(tag, max) + Le32(total) + Le32(offset) + Le32(|data|) + data == WireStrBytes(tag, max) + rest;
    TakeRefOf(tag, max, rest);
    BufferTailOf(RefOf(tag, max), total, offset, data);
  }

  /** Numbering a serialised packet changes its decoded sequence number and nothing else. */
  lemma RenumberedDecodes(packet: seq<Byte>, seqNo: U16)
    requires |packet| >= HEADER_LEN
    ensures DecodePacket(packet[..HEADER_LEN][2 := seqNo % 0x100][3 := seqNo / 0x100] + packet[HEADER_LEN..])
            == match DecodePacket(packet)
               case None => None
               case Some(q) => Some(Packet(q.header.(seqNo := seqNo), q.body))
  {
    hide DecodeBody, FromLe32;
    var head := packet[..HEADER_LEN];
    var head' := head[2 := seqNo % 0x100][3 := seqNo / 0x100];
    var s := head' + packet[HEADER_LEN..];
    assert s[..HEADER_LEN] == head' && s[HEADER_LEN..] == packet[HEADER_LEN..];
    assert head'[4..8] == head[4..8] && head'[8..12] == head[8..12];
    assert head'[12..16] == head[12..16] && head'[16..18] == head[16..18];
    if DecodeHeader(head).Some? {
      BodyIgnoresSeq(DecodeHeader(head).value, seqNo, packet[HEADER_LEN..]);
    }
  }

  lemma BodyIgnoresSeq(h: Header, seqNo: U16, s: seq<Byte>)
    ensures DecodeBody(h.(seqNo := seqNo), s) == DecodeBody(h, s)
  {
  }

  lemma PayloadDecodes(p: Outgoing, max: MaxString, h: Header)
    requires p.Valid(max) && !p.Log? && !p.Prebuilt?
    requires h.typ == (match p case Dropped(_) => PKT_DROPPED case Boot(_, _, _, _) => PKT_BOOT case _ => PKT_BUFFER)
    requires p.BufferPart? ==> h.tagId == Locate(p.tag, max).id
    ensures DecodeBody(h, Payload(p, max))
            == Some(match p
                    case Dropped(n) => DroppedBody(n)
                    case Boot(bootId, reason, idKind, id) => BootBody(bootId, reason, WIRE_FORMAT_VERSION, idKind, id)
                    case BufferPart(_, tag, total, offset, data) => BufferBody(RefOf(tag, max), total, offset, data))
  {
    hide Le32, FromLe32, DecodeBoot, DecodeBuffer, WireStrBytes, Locate, RefOf;
    match p
    case Dropped(n) => Le32RoundTrip(n);
    case Boot(bootId, reason, idKind, id) => DecodeBootOf(bootId, reason, idKind, id);
    case BufferPart(_, tag, total, offset, data) => DecodeBufferOf(h, tag, max, total, offset, data);
  }

  lemma PayloadSize(p: Outgoing, max: MaxString)
    requires p.Valid(max) && !p.Log? && !p.Prebuilt?
    ensures |Payload(p, max)| == match p
                                 case Dropped(_) => 4
                                 case Boot(_, _, _, id) => 8 + |id|
                                 case BufferPart(_, tag, _, _, data) => |WireStrBytes(tag, max)| + 12 + |data|
  {
    hide WireStrBytes;
  }

  /** Every packet is decoded to exactly what was logged. */
  lemma PacketRoundTrip(p: Outgoing, max: MaxString, seqNo: U16, time: U32)
    requires p.Valid(max)
    ensures DecodePacket(WholePacket(p, max, seqNo, time)) == Expected(p, max, seqNo, time)
  {
    hide HeaderBytes, DecodePacket, DecodeBody, LogHeader, LogPayload, LogBodyOf, Locate, RefOf, WireStrBytes, Payload;
    if !p.Log? && !p.Prebuilt? {
      PayloadSize(p, max);
    }
    match p
    case Log(c) =>
      LogRoundTrip(c, max, seqNo, time);
      assert Payload(p, max) == LogPayload(c, max) by { PayloadOfLog(p, max); }
    case Prebuilt(packet) =>
      PayloadOfPrebuilt(p, max);
      RenumberedDecodes(packet, seqNo);
      assert packet[..HEADER_LEN] + packet[HEADER_LEN..] == packet;
    case Dropped(_) =>
      SimpleRoundTrip(p, max, Header(PKT_DROPPED, 0, seqNo, time, 0, 0, 4));
    case Boot(_, _, _, id) =>
      SimpleRoundTrip(p, max, Header(PKT_BOOT, 0, seqNo, time, 0, 0, 8 + |id|));
    case BufferPart(level, tag, _, _, data) =>
      SimpleRoundTrip(p, max, Header(PKT_BUFFER, level, seqNo, time, Locate(tag, max).id, 0,
                                     |WireStrBytes(tag, max)| + 12 + |data|));
  }

  lemma PayloadOfLog(p: Outgoing, max: MaxString)
    requires p.Valid(max) && p.Log?
    ensures Payload(p, max) == LogPayload(p.call, max)
  {
  }

  lemma PayloadOfPrebuilt(p: Outgoing, max: MaxString)
    requires p.Valid(max) && p.Prebuilt?
    ensures Payload(p, max) == p.packet[HEADER_LEN..]
  {
  }

  lemma SimpleRoundTrip(p: Outgoing, max: MaxString, h: Header)
    requires p.Valid(max) && !p.Log? && !p.Prebuilt?
    requires h.typ == (match p case Dropped(_) => PKT_DROPPED case Boot(_, _, _, _) => PKT_BOOT case _ => PKT_BUFFER)
    requires p.BufferPart? ==> h.tagId == Locate(p.tag, max).id
    requires h.len == |Payload(p, max)|
    ensures DecodePacket(HeaderBytes(h) + Payload(p, max))
            == Some(Packet(h, match p
                    case Dropped(n) => DroppedBody(n)
                    case Boot(bootId, reason, idKind, id) => BootBody(bootId, reason, WIRE_FORMAT_VERSION, idKind, id)
                    case BufferPart(_, tag, total, offset, data) => BufferBody(RefOf(tag, max), total, offset, data)))
  {
    hide HeaderBytes, DecodePacket, DecodeBody, Locate, RefOf, WireStrBytes, Payload;
    PayloadDecodes(p, max, h);
    DecodePacketOf(h, Payload(p, max));
  }
}
