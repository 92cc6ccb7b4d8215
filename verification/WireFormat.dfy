/**
 * The wire format as it is documented for receivers in other languages: every
 * field at its offset, numbers with the least significant byte first. Nothing
 * here refers to the constants or the encoding functions of the logger.
 */
module WireFormat {
  import opened Bytes
  import opened Wire
  import opened PacketDecoder
  import opened Packets
  import Encoder
  import Crc16
  import Slip

  /** Two bytes of s from an offset on are the number v. */
  predicate Has16(s: seq<Byte>, at: nat, v: int) {
    at + 2 <= |s| && v == s[at] as int + 256 * (s[at + 1] as int)
  }

  predicate Has32(s: seq<Byte>, at: nat, v: int) {
    at + 4 <= |s|
    && v == s[at] as int + 256 * (s[at + 1] as int) + 65536 * (s[at + 2] as int) + 16777216 * (s[at + 3] as int)
  }

  lemma Le16Has(v: U16)
    ensures Has16(Le16(v), 0, v)
  {
  }

  lemma Le32Has(v: U32)
    ensures Has32(Le32(v), 0, v)
  {
    Le32RoundTrip(v);
  }

  /** A number keeps its meaning inside a longer sequence. */
  lemma Inside32(s: seq<Byte>, at: nat, v: U32)
    requires at + 4 <= |s| && s[at..at + 4] == Le32(v)
    ensures Has32(s, at, v)
  {
    hide Le32;
    Le32Has(v);
    var four := s[at..at + 4];
    assert four[0] == s[at] && four[1] == s[at + 1] && four[2] == s[at + 2] && four[3] == s[at + 3];
  }

  /** The documented header. */
  predicate HeaderLaidOut(s: seq<Byte>, h: Header) {
    && |s| >= 18 && s[0] == 0x9a && s[1] == 16 * h.typ + h.level
    && Has16(s, 2, h.seqNo) && Has32(s, 4, h.time) && Has32(s, 8, h.tagId) && Has32(s, 12, h.fmtId)
    && Has16(s, 16, h.len)
  }

  lemma HeaderLayout(h: Header)
    ensures HeaderLaidOut(HeaderBytes(h), h)
  {
    hide Le32, Has32;
    var s := HeaderBytes(h);
    Le16Has(h.seqNo);
    Le16Has(h.len);
    Inside32(s, 4, h.time);
    Inside32(s, 8, h.tagId);
    Inside32(s, 12, h.fmtId);
  }

  /** The documented packet types. */
  function KindOf(p: Outgoing): nat
    requires !p.Prebuilt?
  {
    match p
    case Log(_) => 0
    case Dropped(_) => 1
    case Boot(_, _, _, _) => 3
    case BufferPart(_, _, _, _, _) => 4
  }

  function LevelOf(p: Outgoing): nat {
    match p
    case Log(c) => c.level
    case BufferPart(level, _, _, _, _) => level
    case _ => 0
  }

  /** What a tag or format is known by: 0 for NULL, its address if the image has it, otherwise the inline marker. */
  function IdOf(s: CString): int {
    match s
    case NullString => 0
    case Chars(addr, inImage, _) => if inImage then addr % 0x1_0000_0000 else 0xffff_ffff
  }

  function TagOf(p: Outgoing): CString {
    match p
    case Log(c) => c.tag
    case BufferPart(_, tag, _, _, _) => tag
    case _ => NullString
  }

  function FormatOf(p: Outgoing): CString {
    if p.Log? then p.call.format else NullString
  }

  lemma HeaderInside(header: seq<Byte>, payload: seq<Byte>, h: Header)
    requires HeaderLaidOut(header, h)
    ensures HeaderLaidOut(header + payload, h)
  {
  }

  /** Every packet the logger builds, sent with a number at a time, starts with the documented header. */
  lemma PacketLayout(p: Outgoing, max: MaxString, seqNo: U16, time: U32)
    requires p.Valid(max) && !p.Prebuilt?
    ensures var s := WholePacket(p, max, seqNo, time);
            && |s| >= 18 && s[0] == 0x9a && s[1] == 16 * KindOf(p) + LevelOf(p)
            && Has16(s, 2, seqNo) && Has32(s, 4, time)
            && Has32(s, 8, IdOf(TagOf(p))) && Has32(s, 12, IdOf(FormatOf(p))) && Has16(s, 16, |s| - 18)
  {
    hide HeaderBytes, Packets.Payload, Has32, Has16, WireStrBytes, LogPayload;
    if !p.Log? { PayloadSize(p, max); } else { PayloadOfLog(p, max); }
    var payload := Packets.Payload(p, max);
    HeaderIsRight(p, max, seqNo, time, |payload|);
    var h := HeaderFields(p, max, seqNo, time, |payload|);
    HeaderLayout(h);
    HeaderInside(HeaderBytes(h), payload, h);
  }

  // ---- Payloads ----

  /** Length and bytes of a text, as strings, views and inline tags travel. */
  predicate IsText(s: seq<Byte>, text: seq<Byte>) {
    |s| == 4 + |text| && Has32(s, 0, |text|) && s[4..] == text
  }

  lemma TextLayout(text: seq<Byte>)
    requires |text| < 0x1_0000_0000
    ensures IsText(Le32(|text|) + text, text)
  {
    hide Le32, Has32;
    Inside32(Le32(|text|) + text, 0, |text|);
  }

  /** A tag or format known by the inline marker travels with the packet, up to its NUL or max bytes. */
  predicate IsInline(s: seq<Byte>, text: seq<Byte>, str: CString, max: nat) {
    if IdOf(str) != 0xffff_ffff then s == []
    else IsText(s, text) && (if str.inImage then text == [] else IsCut(text, str.mem, None, max))
  }

  lemma InlineLayout(str: CString, max: MaxString) returns (text: seq<Byte>)
    requires ValidString(str, max)
    ensures IsInline(WireStrBytes(str, max), text, str, max)
  {
    hide IsText, Le32, StrLen;
    text := [];
    if IdOf(str) == 0xffff_ffff {
      var n := Locate(str, max).len;
      text := str.mem.sent[..n];
      TextLayout(text);
    }
  }

  /** The documented type codes. */
  function CodeOf(a: Arg): Byte {
    match a
    case Int32(_) => 1
    case Int64(_) => 2
    case Pointer(_) => 3
    case Str(_) => 4
    case StrView(_) => 5
    case Unknown(code) => code
  }

  /** The bytes of a value. */
  predicate Carries(s: seq<Byte>, w: WireArg) {
    match w
    case W32(v) => |s| == 4 && Has32(s, 0, v)
    case W64(v) => |s| == 8 && Has32(s, 0, v % 0x1_0000_0000) && Has32(s, 4, v / 0x1_0000_0000)
    case WPointer(low) => |s| == 4 && Has32(s, 0, low)
    case WText(t) => if t.None? then s == [0xff, 0xff, 0xff, 0xff] else IsText(s, t.value)
    case WView(t) => if t.None? then s == [0xff, 0xff, 0xff, 0xff] else IsText(s, t.value)
    case WUnknown(_) => s == []
  }

  lemma ValueLayout(c: LogCall, max: MaxString, i: nat)
    requires c.Valid(max) && i < |c.args| && ValidArg(c.args[i], max)
    ensures Carries(ArgBytes(c.args, c.mask, max, i), WireArgOf(c.args, c.mask, max, i))
  {
    hide LogCall.Valid, Le32, Has32, SentLen;
    match c.args[i]
    case Int32(v) => Le32Has(v);
    case Int64(v) =>
      Inside32(Le64(v), 0, v % 0x1_0000_0000);
      Inside32(Le64(v), 4, v / 0x1_0000_0000);
    case Pointer(p) => Le32Has(p % 0x1_0000_0000);
    case Str(_) =>
      TextIsSent(c, max, i);
      var text := WireArgOf(c.args, c.mask, max, i).text;
      if text.Some? { TextLayout(text.value); }
    case StrView(_) =>
      TextIsSent(c, max, i);
      var text := WireArgOf(c.args, c.mask, max, i).view;
      if text.Some? { TextLayout(text.value); }
    case Unknown(_) =>
  }

  /** The values of all arguments from i on. */
  lemma {:induction false} ValuesLayout(c: LogCall, max: MaxString, i: nat) returns (values: seq<seq<Byte>>)
    requires c.Valid(max) && i <= |c.args|
    ensures |values| == |c.args| - i && Flatten(values) == ArgsBytes(c.args, c.mask, max, i)
    ensures forall j :: i <= j < |c.args| ==>
              ValidArg(c.args[j], max) && Carries(values[j - i], WireArgOf(c.args, c.mask, max, j))
    decreases |c.args| - i
  {
    hide LogCall.Valid, ArgBytes, WireArgOf, Carries, ValidArg;
    AllValid(c, max);
    values := [];
    if i < |c.args| {
      ValueLayout(c, max, i);
      var rest := ValuesLayout(c, max, i + 1);
      values := [ArgBytes(c.args, c.mask, max, i)] + rest;
      assert values[1..] == rest;
    }
  }

  lemma AllValid(c: LogCall, max: MaxString)
    requires c.Valid(max)
    ensures forall a :: a in c.args ==> ValidArg(a, max)
  {
  }

  /**
   * The payload of a log packet: inline tag and format where they are needed, the number of arguments, their type
   * codes, and for every argument the bytes of what it conveys.
   */
  lemma LogLayout(c: LogCall, max: MaxString)
    returns (tag: seq<Byte>, format: seq<Byte>, texts: (seq<Byte>, seq<Byte>), codes: seq<Byte>, values: seq<seq<Byte>>)
    requires c.Valid(max)
    ensures LogPayload(c, max) == tag + format + [|c.args|] + codes + Flatten(values)
    ensures IsInline(tag, texts.0, c.tag, max) && IsInline(format, texts.1, c.format, max)
    ensures |codes| == |values| == |c.args| == |LogBodyOf(c, max).args|
    ensures forall i :: 0 <= i < |c.args| ==>
              var w := LogBodyOf(c, max).args[i];
              codes[i] == CodeOf(c.args[i]) && Carries(values[i], w) && Conveys(w, c.args[i], BoundOf(c, i), max)
  {
    hide ValidArg, WireStrBytes, IsInline, Carries, Conveys, WireArgOf, ArgsBytes, WireArgsOf, RefOf;
    tag, format := WireStrBytes(c.tag, max), WireStrBytes(c.format, max);
    var t := InlineLayout(c.tag, max);
    var f := InlineLayout(c.format, max);
    texts := (t, f);
    codes := Types(c.args);
    values := ValuesLayout(c, max, 0);
    if c.args == [] { WireArgsAt(c.args, c.mask, max, 0, 0); }
    forall i | 0 <= i < |c.args|
      ensures |codes| == |c.args| == |LogBodyOf(c, max).args| && codes[i] == CodeOf(c.args[i])
      ensures Carries(values[i], LogBodyOf(c, max).args[i])
      ensures Conveys(LogBodyOf(c, max).args[i], c.args[i], BoundOf(c, i), max)
    {
      ArgsAreConveyed(c, max, i);
      WireArgsAt(c.args, c.mask, max, 0, i);
    }
  }

  /** The payload of a DROPPED packet is the count, and that of a BOOT packet as documented. */
  lemma SimpleLayouts(count: U32, bootId: U32, reason: Byte, idKind: Byte, id: seq<Byte>, max: MaxString)
    requires |id| <= 32
    ensures var s := Packets.Payload(Dropped(count), max); |s| == 4 && Has32(s, 0, count)
    ensures Boot(bootId, reason, idKind, id).Valid(max)
    ensures var s := Packets.Payload(Boot(bootId, reason, idKind, id), max);
            && |s| == 8 + |id| && Has32(s, 0, bootId) && s[4] == reason && s[5] == 1 && s[6] == idKind && s[7] == |id|
            && s[8..] == id
  {
    hide Le32, Has32;
    Inside32(Packets.Payload(Dropped(count), max), 0, count);
    Inside32(Packets.Payload(Boot(bootId, reason, idKind, id), max), 0, bootId);
  }

  /** The payload of a BUFFER packet: inline tag, size of the buffer, offset and size of the part, and the part. */
  lemma BufferLayout(p: Outgoing, max: MaxString) returns (tag: seq<Byte>, text: seq<Byte>, rest: seq<Byte>)
    requires p.BufferPart? && p.Valid(max)
    ensures Packets.Payload(p, max) == tag + rest && IsInline(tag, text, p.tag, max)
    ensures |rest| == 12 + |p.data| && rest[12..] == p.data
    ensures Has32(rest, 0, p.total) && Has32(rest, 4, p.offset) && Has32(rest, 8, |p.data|)
  {
    hide Le32, Has32, WireStrBytes, IsInline;
    tag := WireStrBytes(p.tag, max);
    text := InlineLayout(p.tag, max);
    rest := Le32(p.total) + Le32(p.offset) + Le32(|p.data|) + p.data;
    Inside32(rest, 0, p.total);
    Inside32(rest, 4, p.offset);
    Inside32(rest, 8, |p.data|);
  }

  /** A packet serialised earlier goes out as it is, except that its number is filled in unless its type is TIME_SYNC. */
  lemma PrebuiltLayout(packet: seq<Byte>, max: MaxString, seqNo: U16, time: U32)
    requires |packet| >= 18 && packet[0] == 0x9a
    ensures Prebuilt(packet).Valid(max)
    ensures var s := WholePacket(Prebuilt(packet), max, seqNo, time);
            && |s| == |packet|
            && (packet[1] / 16 == 2 ==> s == packet)
            && (packet[1] / 16 != 2 ==> Has16(s, 2, seqNo))
            && forall k :: 0 <= k < |s| && k != 2 && k != 3 ==> s[k] == packet[k]
  {
    var s := WholePacket(Prebuilt(packet), max, seqNo, time);
    if packet[1] / 16 == 2 {
      assert packet[..18] + packet[18..] == packet;
    } else {
      assert s[2] == seqNo % 0x100 && s[3] == seqNo / 0x100;
    }
  }

  /** A packet from an interrupt is laid out like one from a task, with number 0. */
  lemma IsrLayout(c: LogCall, max: MaxString, time: U32)
    requires c.Valid(max) && |LogPayload(c, max)| <= 0xfffe
    ensures var s := Encoder.IsrPacket(c, max, time);
            && |s| >= 18 && s[..18] == HeaderBytes(LogHeader(c, max, 0, time)) && s[18..] == LogPayload(c, max)
  {
  }

  // ---- Frames ----

  /** The escapes: the frame's markers and the console's newline bytes become two bytes each. */
  lemma EscapeLayout(b: Byte)
    ensures Slip.Escape(b) == if b == 0xa5 then [0xdb, 0xde]
                              else if b == 0xc0 then [0xdb, 0xdc]
                              else if b == 0xdb then [0xdb, 0xdd]
                              else if b == 0x0d then [0xdb, 0xd0]
                              else if b == 0x0a then [0xdb, 0xd1]
                              else [b]
  {
  }

  /** A frame carries its type, the payload and the checksum of both, all escaped, between its markers. */
  lemma FrameLayout(typ: Byte, payload: seq<Byte>) returns (lo: Byte, hi: Byte)
    ensures Crc16.FromTrailer(lo, hi) == Crc16.Crc(0xffff, [typ] + payload)
    ensures Slip.Frame(typ, payload) == [0xa5] + Slip.EscapeAll([typ] + payload + [lo, hi]) + [0xc0]
  {
    hide Crc16.Crc, Slip.EscapeAll, Crc16.LowByte, Crc16.HighByte, Crc16.FromTrailer;
    var crc := Crc16.Crc(Crc16.INIT, [typ] + payload);
    lo, hi := Crc16.LowByte(crc), Crc16.HighByte(crc);
    Crc16.TrailerRoundTrip(crc);
  }

  lemma KnownChecksum()
    ensures Crc16.Crc(0xffff, [0x01, 0xa5, 0xc0, 0xdb, 0x0a, 0x0d, 0x9a]) == 0xfd4c
  {
    hide Crc16.Update, Crc16.Crc, Crc16.Table;
    var data: seq<Byte> := [0x01, 0xa5, 0xc0, 0xdb, 0x0a, 0x0d, 0x9a];
    Crc16.CrcOfNothing(data);
    Crc16.CrcOfPrefix(data, 0);
    Crc16.CheckStep(0xffff, 0x01, 0x01, 0xfe, 0xf1d1);
    Crc16.CrcOfPrefix(data, 1);
    Crc16.CheckStep(0xf1d1, 0xa5, 0xa5, 0x54, 0xcb71);
    Crc16.CrcOfPrefix(data, 2);
    Crc16.CheckStep(0xcb71, 0xc0, 0xc0, 0x0b, 0xc06b);
    Crc16.CrcOfPrefix(data, 3);
    Crc16.CheckStep(0xc06b, 0xdb, 0xdb, 0x1b, 0xc85a);
    Crc16.CrcOfPrefix(data, 4);
    Crc16.CheckStep(0xc85a, 0x0a, 0x0a, 0xc2, 0xa30e);
    Crc16.CrcOfPrefix(data, 5);
    Crc16.CheckStep(0xa30e, 0x0d, 0x0d, 0xae, 0x5a24);
    Crc16.CrcOfPrefix(data, 6);
    Crc16.CheckStep(0x5a24, 0x9a, 0x9a, 0xc0, 0xfd4c);
    assert data[..7] == data;
  }

  /** The frame of every byte with a meaning of its own. */
  lemma KnownFrame()
    ensures Slip.Frame(1, [0xa5, 0xc0, 0xdb, 0x0a, 0x0d, 0x9a])
            == [0xa5, 0x01, 0xdb, 0xde, 0xdb, 0xdc, 0xdb, 0xdd, 0xdb, 0xd1, 0xdb, 0xd0, 0x9a, 0x4c, 0xfd, 0xc0]
  {
    hide Crc16.Crc, Slip.Escape, Slip.EscapeAll;
    var payload: seq<Byte> := [0xa5, 0xc0, 0xdb, 0x0a, 0x0d, 0x9a];
    assert [1] + payload == [0x01, 0xa5, 0xc0, 0xdb, 0x0a, 0x0d, 0x9a];
    KnownChecksum();
    Slip.FrameInPieces(1, payload, 0xfd4c);
    EscapeLayout(0x01);
    EscapeLayout(0x4c);
    EscapeLayout(0xfd);
    Slip.EscapeOne(1);
    KnownEscapes();
  }

  lemma KnownEscapes()
    ensures Slip.EscapeAll([0xa5, 0xc0, 0xdb, 0x0a, 0x0d, 0x9a])
            == [0xdb, 0xde, 0xdb, 0xdc, 0xdb, 0xdd, 0xdb, 0xd1, 0xdb, 0xd0, 0x9a]
  {
    hide Slip.Escape, Slip.EscapeAll;
    Slip.EscapePair(0xa5, 0xc0);
    Slip.EscapePair(0xdb, 0x0a);
    Slip.EscapePair(0x0d, 0x9a);
    EscapeLayout(0xa5);
    EscapeLayout(0xc0);
    EscapeLayout(0xdb);
    EscapeLayout(0x0a);
    EscapeLayout(0x0d);
    EscapeLayout(0x9a);
    Slip.EscapeAllAppend([0xa5, 0xc0], [0xdb, 0x0a]);
    Slip.EscapeAllAppend([0xa5, 0xc0] + [0xdb, 0x0a], [0x0d, 0x9a]);
    assert [0xa5, 0xc0] + [0xdb, 0x0a] + [0x0d, 0x9a] == [0xa5, 0xc0, 0xdb, 0x0a, 0x0d, 0x9a];
  }
}
