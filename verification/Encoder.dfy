/** The bounded byte encoder, and the ISR path that serialises a whole packet with it. */
module Encoder {
  import opened Bytes
  import opened Wire
  import opened PacketDecoder
  import opened Packets

  class Encoder {
    var overflow: bool
    var len: nat
    const cap: nat
    const data: array<Byte>
    ghost var wanted: seq<Byte>   // everything put so far, whether or not it fit

    constructor (data: array<Byte>)
      ensures Valid() && wanted == [] && this.data == data && cap == data.Length && !overflow && len == 0
    {
      overflow := false;
      len := 0;
      cap := data.Length;
      this.data := data;
      wanted := [];
    }

    /** The flag is set exactly when too much was put; until then the buffer holds all of it. */
    ghost predicate Valid()
      reads this, data
    {
      && data.Length == cap && len <= cap && len <= |wanted|
      && (overflow <==> |wanted| > cap)
      && (!overflow ==> data[..len] == wanted)
    }

    method PutU8(v: Byte)
      requires Valid()
      modifies this, data
      ensures Valid() && wanted == old(wanted) + [v]
    {
      wanted := wanted + [v];
      if len >= cap {
        overflow := true;
        return;
      }
      data[len] := v;
      len := len + 1;
    }

    method PutU16(v: U16)
      requires Valid()
      modifies this, data
      ensures Valid() && wanted == old(wanted) + Le16(v)
    {
      PutU8(v % 0x100);
      PutU8(v / 0x100);
    }

    method PutU32(v: U32)
      requires Valid()
      modifies this, data
      ensures Valid() && wanted == old(wanted) + Le32(v)
    {
      PutU8(v % 0x100);
      PutU8(v / 0x100 % 0x100);
      PutU8(v / 0x1_0000 % 0x100);
      PutU8(v / 0x100_0000);
    }

    method PutU64(v: U64)
      requires Valid()
      modifies this, data
      ensures Valid() && wanted == old(wanted) + Le64(v)
    {
      hide Le32;
      PutU32(v % 0x1_0000_0000);
      PutU32(v / 0x1_0000_0000);
    }

    method PutBytes(bytes: seq<Byte>)
      requires Valid()
      modifies this, data
      ensures Valid() && wanted == old(wanted) + bytes
    {
      wanted := wanted + bytes;
      if |bytes| == 0 {
        return;
      }
      if |bytes| > cap - len {
        overflow := true;
        return;
      }
      forall i | 0 <= i < |bytes| {
        data[len + i] := bytes[i];
      }
      len := len + |bytes|;
    }

    method PutHeader(h: Header)
      requires Valid()
      modifies this, data
      ensures Valid() && wanted == old(wanted) + HeaderBytes(h)
    {
      hide Le16, Le32;
      PutU8(MAGIC);
      PutU8(h.typ * 16 + h.level);
      PutU16(h.seqNo);
      PutU32(h.time);
      PutU32(h.tagId);
      PutU32(h.fmtId);
      PutU16(h.len);
      assert HeaderBytes(h) == [MAGIC] + [h.typ * 16 + h.level] + Le16(h.seqNo) + Le32(h.time) + Le32(h.tagId)
                               + Le32(h.fmtId) + Le16(h.len);
    }

    method PutWireStr(s: CString, max: MaxString)
      requires Valid() && ValidString(s, max)
      modifies this, data
      ensures Valid() && wanted == old(wanted) + WireStrBytes(s, max)
    {
      hide Le32;
      var w := Locate(s, max);
      if w.id == ID_INLINE {
        PutU32(w.len);
        PutBytes(s.mem.sent[..w.len]);
      }
    }
  }

  /** Types an ISR may encode; NONE ends the table. */
  predicate IsrSafeArg(a: Arg) {
    a.Int32? || a.Int64? || a.Pointer?
  }

  predicate IsrSafe(args: seq<Arg>) {
    forall a :: a in args ==> IsrSafeArg(a)
  }

  /** The table check done before encoding; a table of 256 or more entries is never safe. */
  method ArgTypesAreIsrSafe(args: seq<Arg>) returns (safe: bool)
    ensures safe <==> IsrSafe(args) && |args| < 0x100
    ensures safe <==> |args| < 0x100 && forall i :: 0 <= i < |args| ==> args[i].Int32? || args[i].Int64? || args[i].Pointer?
  {
    var idx := 0;
    while idx < |args|
      invariant idx <= |args| && idx < 0x100
      invariant forall k :: 0 <= k < idx ==> IsrSafeArg(args[k])
    {
      if !IsrSafeArg(args[idx]) {
        assert args[idx] in args;
        return false;
      }
      if idx == 0xff {
        return false;
      }
      idx := idx + 1;
    }
    return true;
  }

  /** The limit for inline strings: the configured one, or the size of the buffer if that is less. */
  function InlineMax(cap: nat, max: MaxString): MaxString {
    if cap < max then cap else max
  }

  /** The packet an ISR log call serialises: sequence number 0, numbered when it is dispatched. */
  function IsrPacket(c: LogCall, max: MaxString, time: U32): seq<Byte>
    requires c.Valid(max) && |LogPayload(c, max)| <= PAYLOAD_LEN_MAX
  {
    HeaderBytes(LogHeader(c, max, 0, time)) + LogPayload(c, max)
  }

  /** One value; types an ISR must not touch are refused. */
  method PutValue(enc: Encoder, c: LogCall, max: MaxString, idx: nat) returns (supported: bool)
    requires enc.Valid() && c.Valid(max) && idx < |c.args|
    modifies enc, enc.data
    ensures enc.Valid() && c.Valid(max)
    ensures supported == IsrSafeArg(c.args[idx])
    ensures supported ==> enc.wanted == old(enc.wanted) + ArgBytes(c.args, c.mask, max, idx)
  {
    hide LogCall.Valid, Le32, Le64;
    ValidAt(c, max, idx);
    supported := true;
    match c.args[idx] {
      case Int32(v) => enc.PutU32(v);
      case Int64(w) => enc.PutU64(w);
      case Pointer(p) => enc.PutU32(p % 0x1_0000_0000);
      case _ => supported := false;
    }
  }

  /**
   * Serialises the call into the packet buffer. It succeeds exactly when no
   * argument is a string or of unknown type and the whole packet fits the
   * buffer; the buffer then starts with that packet.
   */
  method EncodeIsrLogPacket(packet: array<Byte>, c: LogCall, max: MaxString, time: U32) returns (ok: bool, packetLen: nat)
    requires 32 <= packet.Length <= 3072
    requires c.Valid(max)
    modifies packet
    ensures ok <==> IsrSafe(c.args) && HEADER_LEN + |LogPayload(c, max)| <= packet.Length
    ensures ok ==> packetLen <= packet.Length && packet[..packetLen] == IsrPacket(c, max, time)
  {
    hide LogPayload, HeaderBytes, Locate, LogCall.Valid, IsrSafe;
    var enc := new Encoder(packet);
    var inlineMax := InlineMax(packet.Length, max);
    ValidSmaller(c, max, inlineMax);
    Parts(c, inlineMax);
    var h := Header(PKT_LOG, c.level, 0, time, Locate(c.tag, inlineMax).id, Locate(c.format, inlineMax).id, 0);
    var supported := PutPacket(enc, c, inlineMax, h);
    if !supported || enc.overflow {
      if supported {
        ShorterScan(c, max, packet.Length);
      }
      return false, 0;
    }
    ShorterScan(c, max, packet.Length);
    var payloadLen := enc.len - HEADER_LEN;
    packet[HEADER_LEN - 2] := payloadLen % 0x100;
    packet[HEADER_LEN - 1] := payloadLen / 0x100;
    PatchedHeader(h, payloadLen, LogPayload(c, inlineMax));
    assert packet[..enc.len] == enc.wanted[HEADER_LEN - 2 := payloadLen % 0x100][HEADER_LEN - 1 := payloadLen / 0x100];
    return true, enc.len;
  }

  method PutPacket(enc: Encoder, c: LogCall, max: MaxString, h: Header) returns (supported: bool)
    requires enc.Valid() && enc.wanted == [] && c.Valid(max)
    modifies enc, enc.data
    ensures enc.Valid()
    ensures supported <==> IsrSafe(c.args)
    ensures supported ==> enc.wanted == HeaderBytes(h) + LogPayload(c, max)
  {
    hide LogCall.Valid, HeaderBytes, WireStrBytes, ArgBytes, ArgsBytes, Types;
    Parts(c, max);
    PutPreamble(enc, c, max, h);
    supported := PutValues(enc, c, max);
    if supported {
      assert HeaderBytes(h) + Preamble(c, max) + ArgsBytes(c.args, c.mask, max, 0) == HeaderBytes(h) + LogPayload(c, max);
    }
  }

  /** A log payload up to its values. */
  function Preamble(c: LogCall, max: MaxString): seq<Byte>
    requires c.Valid(max)
  {
    WireStrBytes(c.tag, max) + WireStrBytes(c.format, max) + [|c.args|] + Types(c.args)
  }

  method PutPreamble(enc: Encoder, c: LogCall, max: MaxString, h: Header)
    requires enc.Valid() && enc.wanted == [] && c.Valid(max)
    modifies enc, enc.data
    ensures enc.Valid() && enc.wanted == HeaderBytes(h) + Preamble(c, max)
  {
    hide LogCall.Valid, HeaderBytes, WireStrBytes, Types;
    Parts(c, max);
    enc.PutHeader(h);
    enc.PutWireStr(c.tag, max);
    enc.PutWireStr(c.format, max);
    enc.PutU8(|c.args|);
    PutTypes(enc, c.args);
  }

  method PutTypes(enc: Encoder, args: seq<Arg>)
    requires enc.Valid()
    modifies enc, enc.data
    ensures enc.Valid() && enc.wanted == old(enc.wanted) + Types(args)
  {
    hide TypeOf, Types;
    for idx := 0 to |args|
      invariant enc.Valid() && enc.wanted == old(enc.wanted) + Types(args)[..idx]
    {
      enc.PutU8(TypeOf(args[idx]));
    }
    assert Types(args)[..|args|] == Types(args);
  }

  method PutValues(enc: Encoder, c: LogCall, max: MaxString) returns (supported: bool)
    requires enc.Valid() && c.Valid(max)
    requires forall a :: a in c.args ==> ValidArg(a, max)
    modifies enc, enc.data
    ensures enc.Valid() && c.Valid(max)
    ensures supported <==> IsrSafe(c.args)
    ensures supported ==> enc.wanted == old(enc.wanted) + ArgsBytes(c.args, c.mask, max, 0)
  {
    hide LogCall.Valid, ArgBytes, ValidArg;
    supported := true;
    for idx := 0 to |c.args|
      invariant enc.Valid()
      invariant supported <==> forall k :: 0 <= k < idx ==> IsrSafeArg(c.args[k])
      invariant supported ==>
                  enc.wanted + ArgsBytes(c.args, c.mask, max, idx) == old(enc.wanted) + ArgsBytes(c.args, c.mask, max, 0)
    {
      var put := PutValue(enc, c, max, idx);
      supported := supported && put;
    }
  }

  lemma ValidSmaller(c: LogCall, max: MaxString, m: MaxString)
    requires c.Valid(max) && m <= max
    ensures c.Valid(m)
  {
  }

  lemma Parts(c: LogCall, max: MaxString)
    requires c.Valid(max)
    ensures ValidString(c.tag, max) && ValidString(c.format, max) && |c.args| < 0x100
    ensures forall a :: a in c.args ==> ValidArg(a, max)
  {
  }

  /** Limiting the scan to the packet size changes nothing for a packet that fits, and cannot make one fit. */
  lemma ShorterScan(c: LogCall, max: MaxString, cap: nat)
    requires c.Valid(max) && c.Valid(InlineMax(cap, max)) && IsrSafe(c.args)
    ensures HEADER_LEN + |LogPayload(c, InlineMax(cap, max))| <= cap <==> HEADER_LEN + |LogPayload(c, max)| <= cap
    ensures HEADER_LEN + |LogPayload(c, max)| <= cap ==> LogPayload(c, InlineMax(cap, max)) == LogPayload(c, max)
    ensures Locate(c.tag, InlineMax(cap, max)).id == Locate(c.tag, max).id
    ensures Locate(c.format, InlineMax(cap, max)).id == Locate(c.format, max).id
  {
    hide LogCall.Valid, ArgsBytes, WireStrBytes;
    var m := InlineMax(cap, max);
    Parts(c, max);
    Parts(c, m);
    ShorterString(c.tag, max, cap);
    ShorterString(c.format, max, cap);
    ValuesIgnoreMax(c.args, c.mask, max, m, 0);
  }

  lemma ShorterString(s: CString, max: MaxString, cap: nat)
    requires ValidString(s, max) && ValidString(s, InlineMax(cap, max))
    ensures Locate(s, InlineMax(cap, max)).id == Locate(s, max).id
    ensures WireStrBytes(s, InlineMax(cap, max)) == WireStrBytes(s, max)
            || (|WireStrBytes(s, InlineMax(cap, max))| > cap && |WireStrBytes(s, max)| > cap)
  {
    if s.Chars? && !s.inImage && cap < max {
      var n := StrLen(s.mem.measured, max);
      if n <= cap {
        StrLenUnique(s.mem.measured, cap, n);
      }
    }
  }

  lemma {:induction false} ValuesIgnoreMax(args: seq<Arg>, mask: set<nat>, max: MaxString, m: MaxString, i: nat)
    requires i <= |args| && IsrSafe(args)
    requires forall a :: a in args ==> ValidArg(a, max) && ValidArg(a, m)
    ensures ArgsBytes(args, mask, max, i) == ArgsBytes(args, mask, m, i)
    decreases |args| - i
  {
    if i < |args| {
      assert args[i] in args;
      ValuesIgnoreMax(args, mask, max, m, i + 1);
    }
  }

  lemma PatchedHeader(h: Header, n: U16, payload: seq<Byte>)
    requires h.len == 0
    ensures (HeaderBytes(h) + payload)[HEADER_LEN - 2 := n % 0x100][HEADER_LEN - 1 := n / 0x100]
            == HeaderBytes(h.(len := n)) + payload
  {
    hide Le32;
  }

  /**
   * Numbered on dispatch, whenever that is, an ISR packet is byte for byte what the task path streams for the same call
   * at the time of the interrupt.
   */
  lemma IsrMatchesTask(c: LogCall, max: MaxString, time: U32, seqNo: U16, dispatchTime: U32)
    requires c.Valid(max) && |LogPayload(c, max)| <= PAYLOAD_LEN_MAX
    ensures Prebuilt(IsrPacket(c, max, time)).Valid(max)
    ensures WholePacket(Prebuilt(IsrPacket(c, max, time)), max, seqNo, dispatchTime)
            == HeaderBytes(LogHeader(c, max, seqNo, time)) + LogPayload(c, max)
    ensures Fits(c, max) ==> WholePacket(Prebuilt(IsrPacket(c, max, time)), max, seqNo, dispatchTime)
                             == WholePacket(Log(c), max, seqNo, time)
  {
    hide Le32, LogPayload, Locate, LogCall.Valid;
    var h := LogHeader(c, max, 0, time);
    var packet := IsrPacket(c, max, time);
    assert packet == HeaderBytes(h) + LogPayload(c, max);
    assert packet[..HEADER_LEN] == HeaderBytes(h) && packet[HEADER_LEN..] == LogPayload(c, max);
    assert HeaderBytes(h)[2 := seqNo % 0x100][3 := seqNo / 0x100] == HeaderBytes(h.(seqNo := seqNo));
  }

  // ---- Where the two paths differ ----

  /** The task path refuses a packet that fits an ISR buffer exactly when it has more than 32 arguments. */
  lemma IsrTakesMoreArguments(c: LogCall, max: MaxString, cap: nat)
    requires c.Valid(max) && cap <= 3072
    requires HEADER_LEN + |LogPayload(c, max)| <= cap
    ensures Fits(c, max) <==> |c.args| <= MAX_ARGS
  {
  }

  /** ...and that happens: 33 integers fit a 200-byte packet, which the task path would count as dropped. */
  function ManyIntegers(n: nat): seq<Arg> {
    if n == 0 then [] else [Int32(0)] + ManyIntegers(n - 1)
  }

  lemma {:induction false} ManyIntegersSize(args: seq<Arg>, max: MaxString, i: nat)
    requires i <= |args| && forall a :: a in args ==> a.Int32?
    ensures |ArgsBytes(args, {}, max, i)| == 4 * (|args| - i)
    decreases |args| - i
  {
    if i < |args| {
      ManyIntegersSize(args, max, i + 1);
    }
  }

  lemma {:induction false} ManyIntegersShape(n: nat)
    ensures |ManyIntegers(n)| == n && forall a :: a in ManyIntegers(n) ==> a.Int32?
  {
    if n > 0 {
      ManyIntegersShape(n - 1);
    }
  }

  lemma IsrAloneTakes33Integers(max: MaxString)
    ensures var c := LogCall(1, NullString, NullString, ManyIntegers(33), {});
            c.Valid(max) && IsrSafe(c.args) && HEADER_LEN + |LogPayload(c, max)| <= 200 && !Fits(c, max)
  {
    hide ManyIntegers;
    ManyIntegersShape(33);
    var c := LogCall(1, NullString, NullString, ManyIntegers(33), {});
    assert c.Valid(max);
    ManyIntegersSize(c.args, max, 0);
  }
}
