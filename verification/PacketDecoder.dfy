/**
 * A decoder for the packet format, written from its documentation, and the
 * proof that it recovers every packet the logger builds.
 */
module PacketDecoder {
  import opened Bytes
  import opened Wire

  // ---- What a receiver learns ----

  datatype StrRef = Address(id: U32) | Inline(text: seq<Byte>)

  datatype WireArg =
    | W32(v: U32)
    | W64(w: U64)
    | WPointer(low: U32)
    | WText(text: Option<seq<Byte>>)   // None is the NULL string
    | WView(view: Option<seq<Byte>>)
    | WUnknown(code: Byte)

  datatype Body =
    | LogBody(tag: StrRef, format: StrRef, args: seq<WireArg>)
    | DroppedBody(count: U32)
    | TimeSyncBody(bootId: U32)
    | BootBody(boot: U32, reason: Byte, version: Byte, idKind: Byte, id: seq<Byte>)
    | BufferBody(bufTag: StrRef, total: U32, offset: U32, data: seq<Byte>)

  datatype Packet = Packet(header: Header, body: Body)

  // ---- Parsing ----

  datatype Parsed<+T> = Got(value: T, rest: seq<Byte>) | Bad

  function TakeBytes(n: nat, s: seq<Byte>): Parsed<seq<Byte>> {
    if |s| < n then Bad else Got(s[..n], s[n..])
  }

  function Take8(s: seq<Byte>): Parsed<Byte> {
    if s == [] then Bad else Got(s[0], s[1..])
  }

  function Take32(s: seq<Byte>): Parsed<U32> {
    if |s| < 4 then Bad else Got(FromLe32(s[..4]), s[4..])
  }

  function Take64(s: seq<Byte>): Parsed<U64> {
    if |s| < 8 then Bad else Got(FromLe64(s[..8]), s[8..])
  }

  /** A length and that many bytes, or the NULL marker alone. */
  function TakeText(s: seq<Byte>): Parsed<Option<seq<Byte>>> {
    match Take32(s)
    case Bad => Bad
    case Got(n, rest) =>
      if n == NULL_LEN then Got(None, rest)
      else match TakeBytes(n, rest)
           case Bad => Bad
           case Got(text, rest') => Got(Some(text), rest')
  }

  function TakeRef(id: U32, s: seq<Byte>): Parsed<StrRef> {
    if id != ID_INLINE then Got(Address(id), s)
    else match TakeText(s)
         case Got(Some(text), rest) => Got(Inline(text), rest)
         case _ => Bad
  }

  function TakeArg(code: Byte, s: seq<Byte>): Parsed<WireArg> {
    if code == TYPE_32BITS then
      match Take32(s) case Bad => Bad case Got(v, rest) => Got(W32(v), rest)
    else if code == TYPE_64BITS then
      match Take64(s) case Bad => Bad case Got(w, rest) => Got(W64(w), rest)
    else if code == TYPE_POINTER then
      match Take32(s) case Bad => Bad case Got(p, rest) => Got(WPointer(p), rest)
    else if code == TYPE_STRING then
      match TakeText(s) case Bad => Bad case Got(t, rest) => Got(WText(t), rest)
    else if code == TYPE_STRING_VIEW then
      match TakeText(s) case Bad => Bad case Got(t, rest) => Got(WView(t), rest)
    else Got(WUnknown(code), s)
  }

  function TakeArgs(codes: seq<Byte>, s: seq<Byte>): Parsed<seq<WireArg>>
    decreases codes
  {
    if codes == [] then Got([], s)
    else match TakeArg(codes[0], s)
         case Bad => Bad
         case Got(a, rest) =>
           match TakeArgs(codes[1..], rest)
           case Bad => Bad
           case Got(tail, rest') => Got([a] + tail, rest')
  }

  function LogTail(tag: StrRef, format: StrRef, s: seq<Byte>): Option<Body> {
    match Take8(s)
    case Bad => None
    case Got(count, rest) =>
      match TakeBytes(count, rest)
      case Bad => None
      case Got(codes, rest') =>
        match TakeArgs(codes, rest')
        case Bad => None
        case Got(args, end) => if end == [] then Some(LogBody(tag, format, args)) else None
  }

  function DecodeLog(h: Header, s: seq<Byte>): Option<Body> {
    match TakeRef(h.tagId, s)
    case Bad => None
    case Got(tag, rest) =>
      match TakeRef(h.fmtId, rest)
      case Bad => None
      case Got(format, rest') => LogTail(tag, format, rest')
  }

  function BufferTail(tag: StrRef, s: seq<Byte>): Option<Body> {
    if |s| < 12 then None
    else
      var n := FromLe32(s[8..12]);
      if |s| != 12 + n then None
      else Some(BufferBody(tag, FromLe32(s[..4]), FromLe32(s[4..8]), s[12..]))
  }

  function DecodeBuffer(h: Header, s: seq<Byte>): Option<Body> {
    match TakeRef(h.tagId, s)
    case Bad => None
    case Got(tag, rest) => BufferTail(tag, rest)
  }

  function DecodeBoot(s: seq<Byte>): Option<Body> {
    if |s| < 8 || |s| - 8 != s[7] then None
    else Some(BootBody(FromLe32(s[..4]), s[4], s[5], s[6], s[8..]))
  }

  function DecodeBody(h: Header, s: seq<Byte>): Option<Body> {
    if h.typ == PKT_LOG then DecodeLog(h, s)
    else if h.typ == PKT_DROPPED then
      if |s| == 4 then Some(DroppedBody(FromLe32(s))) else None
    else if h.typ == PKT_TIME_SYNC then
      if |s| == 4 then Some(TimeSyncBody(FromLe32(s))) else None
    else if h.typ == PKT_BOOT then DecodeBoot(s)
    else if h.typ == PKT_BUFFER then DecodeBuffer(h, s)
    else None
  }

  function DecodeHeader(s: seq<Byte>): Option<Header>
    requires |s| == HEADER_LEN
  {
    if s[0] != MAGIC then None
    else Some(Header(s[1] / 16, s[1] % 16, FromLe16(s[2..4]), FromLe32(s[4..8]), FromLe32(s[8..12]),
                     FromLe32(s[12..16]), FromLe16(s[16..18])))
  }

  function DecodePacket(s: seq<Byte>): Option<Packet> {
    if |s| < HEADER_LEN then None
    else match DecodeHeader(s[..HEADER_LEN])
         case None => None
         case Some(h) =>
           if h.len != |s| - HEADER_LEN then None
           else match DecodeBody(h, s[HEADER_LEN..])
                case None => None
                case Some(body) => Some(Packet(h, body))
  }

  // ---- What a log call should be decoded to ----

  function RefOf(s: CString, max: MaxString): StrRef
    requires ValidString(s, max)
  {
    var w := Locate(s, max);
    if w.id == ID_INLINE then Inline(s.mem.sent[..w.len]) else Address(w.id)
  }

  function TextOf(a: Arg, n: U32): Option<seq<Byte>>
    requires n != NULL_LEN ==> n <= |SentText(a)|
  {
    if n == NULL_LEN then None else Some(SentText(a)[..n])
  }

  function WireArgOf(args: seq<Arg>, mask: set<nat>, max: MaxString, i: nat): WireArg
    requires i < |args| && ValidArg(args[i], max)
  {
    match args[i]
    case Int32(v) => W32(v)
    case Int64(w) => W64(w)
    case Pointer(p) => WPointer(p % 0x1_0000_0000)
    case Str(_) => WText(TextOf(args[i], SentLen(args, mask, max, i)))
    case StrView(_) => WView(TextOf(args[i], SentLen(args, mask, max, i)))
    case Unknown(code) => WUnknown(code)
  }

  function WireArgsOf(args: seq<Arg>, mask: set<nat>, max: MaxString, i: nat): seq<WireArg>
    requires i <= |args| && forall a :: a in args ==> ValidArg(a, max)
    decreases |args| - i
  {
    if i == |args| then [] else [WireArgOf(args, mask, max, i)] + WireArgsOf(args, mask, max, i + 1)
  }

  function LogBodyOf(c: LogCall, max: MaxString): Body
    requires c.Valid(max)
  {
    LogBody(RefOf(c.tag, max), RefOf(c.format, max), WireArgsOf(c.args, c.mask, max, 0))
  }

  // ---- Round trips ----

  lemma Take32Of(v: U32, rest: seq<Byte>)
    ensures Take32(Le32(v) + rest) == Got(v, rest)
  {
    hide Le32, FromLe32;
    Le32RoundTrip(v);
    assert (Le32(v) + rest)[..4] == Le32(v) && (Le32(v) + rest)[4..] == rest;
  }

  lemma Take64Of(w: U64, rest: seq<Byte>)
    ensures Take64(Le64(w) + rest) == Got(w, rest)
  {
    hide Le64, FromLe64;
    Le64RoundTrip(w);
    assert (Le64(w) + rest)[..8] == Le64(w) && (Le64(w) + rest)[8..] == rest;
  }

  lemma TakeBytesOf(text: seq<Byte>, rest: seq<Byte>)
    ensures TakeBytes(|text|, text + rest) == Got(text, rest)
  {
    assert (text + rest)[..|text|] == text && (text + rest)[|text|..] == rest;
  }

  lemma TakeTextOf(text: seq<Byte>, n: U32, rest: seq<Byte>)
    requires n != NULL_LEN ==> n <= |text|
    ensures TakeText(TextBytes(text, n) + rest) == Got(if n == NULL_LEN then None else Some(text[..n]), rest)
  {
    hide Take32, TakeBytes, Le32;
    if n == NULL_LEN {
      Take32Of(n, rest);
    } else {
      Take32Of(n, text[..n] + rest);
      TakeBytesOf(text[..n], rest);
      assert TextBytes(text, n) + rest == Le32(n) + (text[..n] + rest);
    }
  }

  lemma TakeRefOf(s: CString, max: MaxString, rest: seq<Byte>)
    requires ValidString(s, max)
    ensures TakeRef(Locate(s, max).id, WireStrBytes(s, max) + rest) == Got(RefOf(s, max), rest)
  {
    hide TakeText, Locate;
    var w := Locate(s, max);
    if w.id == ID_INLINE {
      assert WireStrBytes(s, max) == TextBytes(s.mem.sent, w.len);
      TakeTextOf(s.mem.sent, w.len, rest);
    } else {
      assert WireStrBytes(s, max) + rest == rest;
    }
  }

  lemma TakeArgOf(args: seq<Arg>, mask: set<nat>, max: MaxString, i: nat, rest: seq<Byte>)
    requires i < |args| && ValidArg(args[i], max)
    ensures TakeArg(TypeOf(args[i]), ArgBytes(args, mask, max, i) + rest) == Got(WireArgOf(args, mask, max, i), rest)
  {
    hide Take32, Take64, TakeText, Le32, Le64, SentLen, SentText, TextBytes;
    match args[i]
    case Int32(v) => Take32Of(v, rest);
    case Int64(w) => Take64Of(w, rest);
    case Pointer(p) => Take32Of(p % 0x1_0000_0000, rest);
    case Str(_) => TakeTextOf(SentText(args[i]), SentLen(args, mask, max, i), rest);
    case StrView(_) => TakeTextOf(SentText(args[i]), SentLen(args, mask, max, i), rest);
    case Unknown(_) => assert ArgBytes(args, mask, max, i) + rest == rest;
  }

  lemma {:induction false} TakeArgsOf(args: seq<Arg>, mask: set<nat>, max: MaxString, i: nat)
    requires i <= |args| && forall a :: a in args ==> ValidArg(a, max)
    ensures TakeArgs(Types(args)[i..], ArgsBytes(args, mask, max, i)) == Got(WireArgsOf(args, mask, max, i), [])
    decreases |args| - i
  {
    hide TakeArg, ArgBytes, WireArgOf, ValidArg, TypeOf;
    if i < |args| {
      var codes := Types(args)[i..];
      assert args[i] in args;
      TakeArgOf(args, mask, max, i, ArgsBytes(args, mask, max, i + 1));
      TakeArgsOf(args, mask, max, i + 1);
      assert codes[0] == TypeOf(args[i]) && codes[1..] == Types(args)[i + 1..];
    }
  }

  lemma LogTailOf(c: LogCall, max: MaxString, tag: StrRef, format: StrRef)
    requires c.Valid(max)
    ensures LogTail(tag, format, [|c.args|] + Types(c.args) + ArgsBytes(c.args, c.mask, max, 0))
            == Some(LogBody(tag, format, WireArgsOf(c.args, c.mask, max, 0)))
  {
    hide TakeArgs, TakeBytes, ArgsBytes, WireArgsOf;
    var values := ArgsBytes(c.args, c.mask, max, 0);
    var s := [|c.args|] + Types(c.args) + values;
    assert s[1..] == Types(c.args) + values;
    TakeBytesOf(Types(c.args), values);
    TakeArgsOf(c.args, c.mask, max, 0);
    assert Types(c.args)[0..] == Types(c.args);
  }

  lemma DecodeLogOf(c: LogCall, max: MaxString, h: Header)
    requires c.Valid(max)
    requires h.tagId == Locate(c.tag, max).id && h.fmtId == Locate(c.format, max).id
    ensures DecodeLog(h, LogPayload(c, max)) == Some(LogBodyOf(c, max))
  {
    hide TakeRef, Locate, WireStrBytes, RefOf, LogTail, ArgsBytes, WireArgsOf;
    var tail := [|c.args|] + Types(c.args) + ArgsBytes(c.args, c.mask, max, 0);
    var formatBytes := WireStrBytes(c.format, max);
    assert LogPayload(c, max) == WireStrBytes(c.tag, max) + (formatBytes + tail);
    TakeRefOf(c.tag, max, formatBytes + tail);
    TakeRefOf(c.format, max, tail);
    LogTailOf(c, max, RefOf(c.tag, max), RefOf(c.format, max));
  }

  lemma DecodeHeaderOf(h: Header)
    ensures DecodeHeader(HeaderBytes(h)) == Some(h)
  {
    hide Le32, FromLe32;
    var s := HeaderBytes(h);
    Le32RoundTrip(h.time);
    Le32RoundTrip(h.tagId);
    Le32RoundTrip(h.fmtId);
    assert s[2..4] == Le16(h.seqNo) && s[16..18] == Le16(h.len);
    assert s[4..8] == Le32(h.time) && s[8..12] == Le32(h.tagId) && s[12..16] == Le32(h.fmtId);
  }

  /** A packet decodes to its header and whatever its payload decodes to. */
  lemma DecodePacketOf(h: Header, payload: seq<Byte>)
    requires h.len == |payload|
    ensures DecodePacket(HeaderBytes(h) + payload)
            == match DecodeBody(h, payload)
               case None => None
               case Some(body) => Some(Packet(h, body))
  {
    hide HeaderBytes, DecodeBody, DecodeHeader;
    var s := HeaderBytes(h) + payload;
    assert s[..HEADER_LEN] == HeaderBytes(h) && s[HEADER_LEN..] == payload;
    DecodeHeaderOf(h);
  }

  /** The header of a log packet sent at a given moment. */
  function LogHeader(c: LogCall, max: MaxString, seqNo: U16, time: U32): Header
    requires c.Valid(max) && |LogPayload(c, max)| <= PAYLOAD_LEN_MAX
  {
    Header(PKT_LOG, c.level, seqNo, time, Locate(c.tag, max).id, Locate(c.format, max).id, |LogPayload(c, max)|)
  }

  /** Every header field and every argument of a log call is recovered; NULL and empty strings stay distinct. */
  lemma LogRoundTrip(c: LogCall, max: MaxString, seqNo: U16, time: U32)
    requires c.Valid(max) && |LogPayload(c, max)| <= PAYLOAD_LEN_MAX
    ensures var h := LogHeader(c, max, seqNo, time);
            DecodePacket(HeaderBytes(h) + LogPayload(c, max)) == Some(Packet(h, LogBodyOf(c, max)))
  {
    hide DecodePacket, HeaderBytes, LogPayload, DecodeLog, LogBodyOf;
    var h := LogHeader(c, max, seqNo, time);
    DecodePacketOf(h, LogPayload(c, max));
    DecodeLogOf(c, max, h);
  }

  /** A tag or format comes back as its address exactly when it is resolvable and its address is not the inline marker. */
  lemma AddressRecovered(s: CString, max: MaxString)
    requires ValidString(s, max)
    ensures RefOf(s, max).Address?
            <==> s.NullString? || (s.inImage && s.addr % 0x1_0000_0000 != 0xffff_ffff)
    ensures RefOf(s, max).Address? ==> RefOf(s, max).id == if s.NullString? then 0 else s.addr % 0x1_0000_0000
    ensures RefOf(s, max).Inline? && !s.inImage ==> RefOf(s, max).text == s.mem.sent[..StrLen(s.mem.measured, max)]
    ensures RefOf(s, max).Inline? && s.inImage ==> RefOf(s, max).text == []
  {
  }

  // ---- What each argument means to the receiver ----

  /** The text sent of a C string: up to its NUL, max bytes at most, and no more than a precision that is not negative. */
  predicate IsCut(text: seq<Byte>, mem: Memory, precision: Option<int>, max: nat) {
    var n := |text|;
    && text <= mem.sent && n <= max && n <= |mem.measured| && 0 !in mem.measured[..n]
    && (precision.Some? && 0 <= precision.value ==> n <= precision.value)
    && (n == max || precision == Some(n) || (n < |mem.measured| && mem.measured[n] == 0))
  }

  predicate Conveys(w: WireArg, a: Arg, precision: Option<int>, max: nat) {
    match a
    case Int32(v) => w == W32(v)
    case Int64(v) => w == W64(v)
    case Pointer(p) => w == WPointer(p % 0x1_0000_0000)
    case Str(NullString) => w == WText(None)
    case Str(Chars(_, _, mem)) => w.WText? && w.text.Some? && IsCut(w.text.value, mem, precision, max)
    case StrView(NullView) => w == WView(None)
    case StrView(NullData(len)) => w == WView(if len == 0 then Some([]) else None)
    case StrView(Slice(mem)) => w == WView(Some(if |mem.sent| <= max then mem.sent else mem.sent[..max]))
    case Unknown(code) => w == WUnknown(code)
  }

  /** The precision bounding argument i: the 32-bit argument right before a marked one, as a signed number. */
  function BoundOf(c: LogCall, i: nat): Option<int>
    requires i < |c.args|
  {
    if i !in c.mask || i == 0 || !c.args[i - 1].Int32? then None
    else
      var v := c.args[i - 1].v;
      Some(if v <= 0x7fff_ffff then v else v - 0x1_0000_0000)
  }

  /** Argument by argument, what a receiver decodes is what the call passed. */
  lemma ArgsAreConveyed(c: LogCall, max: MaxString, i: nat)
    requires c.Valid(max) && i < |c.args|
    ensures |LogBodyOf(c, max).args| == |c.args| && Conveys(LogBodyOf(c, max).args[i], c.args[i], BoundOf(c, i), max)
  {
    hide ValidArg, WireArgOf, SentLen, Conveys, RefOf;
    ValidAt(c, max, i);
    WireArgsAt(c.args, c.mask, max, 0, i);
    ArgIsConveyed(c, max, i);
  }

  lemma {:induction false} WireArgsAt(args: seq<Arg>, mask: set<nat>, max: MaxString, from: nat, i: nat)
    requires from <= |args| && forall a :: a in args ==> ValidArg(a, max)
    ensures |WireArgsOf(args, mask, max, from)| == |args| - from
    ensures from <= i < |args| ==> ValidArg(args[i], max) && WireArgsOf(args, mask, max, from)[i - from] == WireArgOf(args, mask, max, i)
    decreases |args| - from
  {
    hide ValidArg, WireArgOf;
    if from < |args| { WireArgsAt(args, mask, max, from + 1, i); }
  }

  lemma ArgIsConveyed(c: LogCall, max: MaxString, i: nat)
    requires c.Valid(max) && i < |c.args| && ValidArg(c.args[i], max)
    ensures Conveys(WireArgOf(c.args, c.mask, max, i), c.args[i], BoundOf(c, i), max)
  {
    hide LogCall.Valid, StrLen;
    match c.args[i]
    case Str(s) => StringIsConveyed(c, max, i);
    case StrView(Slice(mem)) =>
      assert mem.sent[..|mem.sent|] == mem.sent;
    case StrView(_) =>
      assert WireArgOf(c.args, c.mask, max, i).WView?;
    case _ =>
  }

  lemma StringIsConveyed(c: LogCall, max: MaxString, i: nat)
    requires i < |c.args| && ValidArg(c.args[i], max) && c.args[i].Str?
    ensures Conveys(WireArgOf(c.args, c.mask, max, i), c.args[i], BoundOf(c, i), max)
  {
    hide CStringLen, PrecisionOf, BoundOf;
    BoundIsPrecision(c, i);
    var n := CStringLen(c.args[i].str, BoundOf(c, i), max);
    if c.args[i].str.Chars? {
      assert |c.args[i].str.mem.sent[..n]| == n;
    }
  }

  lemma BoundIsPrecision(c: LogCall, i: nat)
    requires i < |c.args|
    ensures BoundOf(c, i) == PrecisionOf(c.args, c.mask, i)
  {
  }

  /** On the wire a text is its length and its bytes, and NULL the marker 0xffffffff alone. */
  lemma TextIsSent(c: LogCall, max: MaxString, i: nat)
    requires c.Valid(max) && i < |c.args| && ValidArg(c.args[i], max) && (c.args[i].Str? || c.args[i].StrView?)
    ensures var w := WireArgOf(c.args, c.mask, max, i);
            var text := if w.WText? then w.text else w.view;
            ArgBytes(c.args, c.mask, max, i)
            == if text.None? then [0xff, 0xff, 0xff, 0xff] else Le32(|text.value|) + text.value
  {
    hide LogCall.Valid, SentLen;
  }
}
