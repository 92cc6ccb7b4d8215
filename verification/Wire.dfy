/**
 * Log packets: how the arguments of a call are measured, and the bytes the
 * packet then consists of.
 */
module Wire {
  import opened Bytes

  const MAGIC: Byte := 0x9a
  const HEADER_LEN: nat := 18
  const MAX_ARGS: nat := 32
  const PAYLOAD_LEN_MAX: nat := 0xfffe
  const ID_INLINE: U32 := 0xffff_ffff
  const NULL_LEN: U32 := 0xffff_ffff

  const TYPE_NONE: Byte := 0
  const TYPE_32BITS: Byte := 1
  const TYPE_64BITS: Byte := 2
  const TYPE_POINTER: Byte := 3
  const TYPE_STRING: Byte := 4
  const TYPE_STRING_VIEW: Byte := 5

  const PKT_LOG: Nibble := 0
  const PKT_DROPPED: Nibble := 1
  const PKT_TIME_SYNC: Nibble := 2
  const PKT_BOOT: Nibble := 3
  const PKT_BUFFER: Nibble := 4

  type Nibble = x: int | 0 <= x < 16

  /** The configured longest dynamic string; always below the NULL marker. */
  type MaxString = x: int | 0 <= x < 0xffff_ffff

  // ---- What a call passes ----

  /**
   * The bytes that can be read from a pointer on, as the measuring pass and, later, the sending pass find them. There
   * is nothing readable behind them.
   */
  datatype Memory = Memory(measured: seq<Byte>, sent: seq<Byte>)

  datatype CString = NullString | Chars(addr: U64, inImage: bool, mem: Memory)

  /** A pointer to a (data, length) pair: no pair, a NULL data pointer, or readable data. */
  datatype View = NullView | NullData(len: nat) | Slice(mem: Memory)

  datatype Arg =
    | Int32(v: U32)
    | Int64(w: U64)
    | Pointer(p: U64)
    | Str(str: CString)
    | StrView(view: View)
    | Unknown(code: Byte)   // a type byte the logger does not know consumes no argument

  /** A scan for the NUL, at most max bytes long, stays inside the readable bytes. */
  predicate Terminated(s: seq<Byte>, max: nat) {
    0 in s || max <= |s|
  }

  predicate ShapedString(s: CString) {
    s.Chars? ==> |s.mem.measured| == |s.mem.sent|
  }

  predicate ValidString(s: CString, max: nat) {
    ShapedString(s) && (s.Chars? ==> Terminated(s.mem.measured, max))
  }

  predicate ValidArg(a: Arg, max: nat) {
    ShapedArg(a) && (a.Str? ==> ValidString(a.str, max))
  }

  /** Any argument a call can pass, strings without a NUL within reach included. */
  predicate ShapedArg(a: Arg) {
    && (a.Str? ==> ShapedString(a.str))
    && (a.StrView? && a.view.Slice? ==> |a.view.mem.measured| == |a.view.mem.sent|)
    && (a.Unknown? ==> a.code > TYPE_STRING_VIEW)
  }

  /** A log call: mask holds the indexes of the string arguments bounded by a `*` precision. */
  datatype LogCall = LogCall(level: Nibble, tag: CString, format: CString, args: seq<Arg>, mask: set<nat>)
  {
    predicate Valid(max: nat) {
      && ValidString(tag, max) && ValidString(format, max)
      && |args| < 0x100
      && forall a :: a in args ==> ValidArg(a, max)
    }

    /** Tag and format are C strings; string arguments may be slices without a NUL. */
    predicate Shaped(max: nat) {
      && ValidString(tag, max) && ValidString(format, max)
      && |args| < 0x100
      && forall a :: a in args ==> ShapedArg(a)
    }
  }

  function TypeOf(a: Arg): Byte {
    match a
    case Int32(_) => TYPE_32BITS
    case Int64(_) => TYPE_64BITS
    case Pointer(_) => TYPE_POINTER
    case Str(_) => TYPE_STRING
    case StrView(_) => TYPE_STRING_VIEW
    case Unknown(code) => code
  }

  function Types(args: seq<Arg>): (r: seq<Byte>)
    ensures |r| == |args| && forall i :: 0 <= i < |args| ==> r[i] == TypeOf(args[i])
  {
    if args == [] then [] else [TypeOf(args[0])] + Types(args[1..])
  }

  // ---- String lengths ----

  function StrLen(s: seq<Byte>, max: nat): (n: nat)
    requires Terminated(s, max)
    ensures n <= max && n <= |s| && 0 !in s[..n] && (n == max || s[n] == 0)
  {
    if max == 0 || s[0] == 0 then 0 else 1 + StrLen(s[1..], max - 1)
  }

  lemma StrLenUnique(s: seq<Byte>, max: nat, n: nat)
    requires Terminated(s, max)
    requires n <= max && n <= |s| && 0 !in s[..n] && (n == max || (n < |s| && s[n] == 0))
    ensures n == StrLen(s, max)
  {
  }

  /** Looks for the NUL; inside is false where the next byte to look at is behind the readable ones. */
  method BoundedStrlen(s: seq<Byte>, max: nat) returns (inside: bool, len: nat)
    ensures inside <==> Terminated(s, max)
    ensures if inside then len == StrLen(s, max) else len == |s|
  {
    len := 0;
    while len < max && len < |s| && s[len] != 0
      invariant len <= max && len <= |s| && 0 !in s[..len]
    {
      len := len + 1;
      assert 0 !in s[..len];
    }
    inside := len == max || len < |s|;
    assert len == |s| ==> s[..len] == s;
    if inside { StrLenUnique(s, max, len); }
  }

  /** A 32-bit argument read back as the signed precision. */
  function Signed(v: U32): int {
    if v < 0x8000_0000 then v else v - 0x1_0000_0000
  }

  function CStringLen(s: CString, precision: Option<int>, max: MaxString): (n: U32)
    requires ValidString(s, max)
    ensures n == NULL_LEN <==> s.NullString?
    ensures s.Chars? ==> n <= max && n <= |s.mem.sent| && 0 !in s.mem.measured[..n]
    ensures s.Chars? && precision.Some? && precision.value >= 0 ==> n <= precision.value
    ensures s.Chars? ==> n == max || precision == Some(n) || (n < |s.mem.measured| && s.mem.measured[n] == 0)
  {
    match s
    case NullString => NULL_LEN
    case Chars(_, _, mem) =>
      var n := StrLen(mem.measured, max);
      if precision.Some? && 0 <= precision.value < n then precision.value else n
  }

  /** The scan comes first and the precision only shortens its result. */
  method ScanCString(s: CString, precision: Option<int>, max: MaxString) returns (inside: bool, n: U32)
    requires ShapedString(s)
    ensures inside <==> ValidString(s, max)
    ensures inside ==> n == CStringLen(s, precision, max)
  {
    if s.NullString? {
      return true, NULL_LEN;
    }
    var len;
    inside, len := BoundedStrlen(s.mem.measured, max);
    if !inside {
      return false, 0;
    }
    if precision.Some? && 0 <= precision.value < len {
      len := precision.value;
    }
    n := len;
  }

  lemma {:induction false} StrLenOfPrefix(s: seq<Byte>, max: nat, p: nat)
    requires Terminated(s, max) && p <= |s|
    ensures Terminated(s[..p], Min(p, max)) && StrLen(s[..p], Min(p, max)) == Min(StrLen(s, max), p)
  {
    var n := Min(StrLen(s, max), p);
    assert s[..p][..n] == s[..n];
    assert 0 !in s[..StrLen(s, max)] && s[..n] == s[..StrLen(s, max)][..n];
    StrLenUnique(s[..p], Min(p, max), n);
  }

  /**
   * A slice bounded by a precision: with anything readable behind it, so that the scan stays inside, what is sent
   * depends on the slice up to the precision alone. A scan for no more than the precision would find it too.
   */
  lemma SliceDecides(slice: seq<Byte>, rest: seq<Byte>, s: CString, p: nat, max: MaxString)
    requires s.Chars? && s.mem.measured == slice + rest && p <= |slice| && ValidString(s, max)
    ensures Terminated(slice[..p], Min(p, max)) && CStringLen(s, Some(p), max) == StrLen(slice[..p], Min(p, max))
  {
    StrLenOfPrefix(slice + rest, max, p);
    assert (slice + rest)[..p] == slice[..p];
  }

  /**
   * With nothing readable behind it, the slice is scanned past its end: whatever the precision, the scan stays inside
   * if and only if the slice has a NUL of its own or the scan ends with it.
   */
  lemma SliceIsOverread(c: LogCall, i: nat, slice: seq<Byte>, max: nat)
    requires c.Shaped(max) && i < |c.args| && c.args[i].Str? && c.args[i].str.Chars? && c.args[i].str.mem.measured == slice
    requires forall j :: 0 <= j < |c.args| && j != i ==> ValidArg(c.args[j], max)
    ensures c.Valid(max) <==> 0 in slice || max <= |slice|
  {
    assert c.args[i] in c.args;
  }

  /** The shortest such call: one readable byte, precision 1. */
  lemma OneByteSliceIsOverread() returns (c: LogCall)
    ensures c.args == [Int32(1), Str(Chars(0x2000, false, Memory([0x61], [0x61])))] && c.mask == {1} && c.Shaped(1024)
    ensures PrecisionOf(c.args, c.mask, 1) == Some(1) && !c.Valid(1024)
  {
    c := LogCall(3, NullString, NullString, [Int32(1), Str(Chars(0x2000, false, Memory([0x61], [0x61])))], {1});
    SliceIsOverread(c, 1, [0x61], 1024);
  }

  function ViewLen(v: View, max: MaxString): U32 {
    match v
    case NullView => NULL_LEN
    case NullData(len) => if len != 0 then NULL_LEN else 0
    case Slice(mem) => Min(|mem.measured|, max)
  }

  /** The precision bounding argument i: the 32-bit argument right before it, when the scanner marked i. */
  function PrecisionOf(args: seq<Arg>, mask: set<nat>, i: nat): Option<int>
    requires i < |args|
  {
    if i in mask && i > 0 && args[i - 1].Int32? then Some(Signed(args[i - 1].v)) else None
  }

  /** Bytes of string argument i that are sent, or the NULL marker; fixed by the measuring pass. */
  function SentLen(args: seq<Arg>, mask: set<nat>, max: MaxString, i: nat): (n: U32)
    requires i < |args| && ValidArg(args[i], max)
    requires args[i].Str? || args[i].StrView?
    ensures n != NULL_LEN ==> n <= |SentText(args[i])|
  {
    match args[i]
    case Str(s) => CStringLen(s, PrecisionOf(args, mask, i), max)
    case StrView(v) => ViewLen(v, max)
  }

  /** What the sending pass finds behind a string argument. */
  function SentText(a: Arg): seq<Byte> {
    match a
    case Str(Chars(_, _, mem)) => mem.sent
    case StrView(Slice(mem)) => mem.sent
    case _ => []
  }

  // ---- Tags and formats ----

  /** A tag or format on the wire: known by its address, or by ID_INLINE and copied into the payload. */
  datatype WireStr = WireStr(id: U32, len: U32)

  function Locate(s: CString, max: MaxString): (w: WireStr)
    requires ValidString(s, max)
    ensures w.len <= max
    ensures s.Chars? ==> w.len <= |s.mem.sent|
    ensures w.id == ID_INLINE ==> s.Chars?
  {
    match s
    case NullString => WireStr(0, 0)
    case Chars(addr, inImage, mem) =>
      if inImage then WireStr(addr % 0x1_0000_0000, 0) else WireStr(ID_INLINE, StrLen(mem.measured, max))
  }

  function WireStrSize(w: WireStr): nat {
    if w.id == ID_INLINE then 4 + w.len else 0
  }

  function WireStrBytes(s: CString, max: MaxString): (r: seq<Byte>)
    requires ValidString(s, max)
    ensures |r| == WireStrSize(Locate(s, max))
  {
    var w := Locate(s, max);
    if w.id == ID_INLINE then Le32(w.len) + s.mem.sent[..w.len] else []
  }

  // ---- Packets ----

  datatype Header = Header(typ: Nibble, level: Nibble, seqNo: U16, time: U32, tagId: U32, fmtId: U32, len: U16)

  function HeaderBytes(h: Header): (r: seq<Byte>)
    ensures |r| == HEADER_LEN
  {
    [MAGIC, h.typ * 16 + h.level] + Le16(h.seqNo) + Le32(h.time) + Le32(h.tagId) + Le32(h.fmtId) + Le16(h.len)
  }

  function ArgBytes(args: seq<Arg>, mask: set<nat>, max: MaxString, i: nat): seq<Byte>
    requires i < |args| && ValidArg(args[i], max)
  {
    match args[i]
    case Int32(v) => Le32(v)
    case Int64(w) => Le64(w)
    case Pointer(p) => Le32(p % 0x1_0000_0000)
    case Str(_) => TextBytes(SentText(args[i]), SentLen(args, mask, max, i))
    case StrView(_) => TextBytes(SentText(args[i]), SentLen(args, mask, max, i))
    case Unknown(_) => []
  }

  function TextBytes(text: seq<Byte>, n: U32): (r: seq<Byte>)
    requires n != NULL_LEN ==> n <= |text|
    ensures |r| == if n == NULL_LEN then 4 else 4 + n
  {
    if n == NULL_LEN then Le32(NULL_LEN) else Le32(n) + text[..n]
  }

  /** The values of arguments i and up. */
  function ArgsBytes(args: seq<Arg>, mask: set<nat>, max: MaxString, i: nat): seq<Byte>
    requires i <= |args| && forall a :: a in args ==> ValidArg(a, max)
    decreases |args| - i
  {
    if i == |args| then [] else ArgBytes(args, mask, max, i) + ArgsBytes(args, mask, max, i + 1)
  }

  /** Everything after the header of a log packet. */
  function LogPayload(c: LogCall, max: MaxString): seq<Byte>
    requires c.Valid(max)
  {
    WireStrBytes(c.tag, max) + WireStrBytes(c.format, max) + [|c.args|] + Types(c.args)
    + ArgsBytes(c.args, c.mask, max, 0)
  }

  /** The call can be described by a header. */
  predicate Fits(c: LogCall, max: MaxString)
    requires c.Valid(max)
  {
    |c.args| <= MAX_ARGS && |LogPayload(c, max)| <= PAYLOAD_LEN_MAX
  }

  // ---- The measuring pass ----

  /**
   * First pass over the arguments: refuses the call, or records the string
   * lengths and the payload size. What it measures is what the second pass
   * sends, although that pass may find different bytes behind the pointers.
   * It reads readable bytes only if and only if every string argument has its
   * NUL or max readable bytes, even where a precision asks for fewer.
   */
  method MeasurePayload(c: LogCall, max: MaxString, prefixLen: nat, lens: array<U32>)
    returns (inside: bool, fits: bool, payloadLen: U16)
    requires c.Shaped(max) && lens.Length == MAX_ARGS
    requires prefixLen == |WireStrBytes(c.tag, max)| + |WireStrBytes(c.format, max)|
    modifies lens
    ensures inside <==> |c.args| > MAX_ARGS || c.Valid(max)
    ensures |c.args| > MAX_ARGS ==> !fits
    ensures c.Valid(max) ==> (fits <==> Fits(c, max)) && (fits <==> |c.args| <= 32 && |LogPayload(c, max)| <= 0xfffe)
    ensures c.Valid(max) && fits ==> payloadLen == |LogPayload(c, max)| && Recorded(c, max, lens[..], |c.args|)
  {
    payloadLen := 0;
    if |c.args| > MAX_ARGS {
      return true, false, 0;
    }
    var total := prefixLen + 1 + |c.args|;
    var prevType := TYPE_NONE;
    var prevU32: U32 := 0;
    for idx := 0 to |c.args|
      invariant forall i :: 0 <= i < idx ==> ValidArg(c.args[i], max)
      invariant c.Valid(max) ==> total + |ArgsBytes(c.args, c.mask, max, idx)| == |LogPayload(c, max)|
      invariant prevType == if idx == 0 then TYPE_NONE else TypeOf(c.args[idx - 1])
      invariant idx > 0 && c.args[idx - 1].Int32? ==> prevU32 == c.args[idx - 1].v
      invariant c.Valid(max) ==> Recorded(c, max, lens[..], idx)
    {
      hide TypeOf, ArgBytes, ValidArg, SentLen, ShapedArg;
      var size;
      inside, size := MeasureArg(c, max, idx, prevType, prevU32, lens);
      if !inside {
        assert c.args[idx] in c.args;
        return false, false, 0;
      }
      total := total + size;
      if c.args[idx].Int32? {
        prevU32 := c.args[idx].v;
      }
      prevType := TypeOf(c.args[idx]);
    }
    if total > PAYLOAD_LEN_MAX {
      return true, false, 0;
    }
    return true, true, total;
  }

  /** One turn of the measuring loop: the argument's size on the wire, and its length if it is a string. */
  method MeasureArg(c: LogCall, max: MaxString, idx: nat, prevType: Byte, prevU32: U32, lens: array<U32>)
    returns (inside: bool, size: nat)
    requires c.Shaped(max) && idx < |c.args| <= MAX_ARGS && lens.Length == MAX_ARGS
    requires prevType == if idx == 0 then TYPE_NONE else TypeOf(c.args[idx - 1])
    requires idx > 0 && c.args[idx - 1].Int32? ==> prevU32 == c.args[idx - 1].v
    requires c.Valid(max) ==> Recorded(c, max, lens[..], idx)
    modifies lens
    ensures inside <==> ValidArg(c.args[idx], max)
    ensures inside ==> size == |ArgBytes(c.args, c.mask, max, idx)|
    ensures c.Valid(max) ==> Recorded(c, max, lens[..], idx + 1)
  {
    hide TypeOf, LogCall.Valid, LogCall.Shaped, PrecisionOf, Recorded, CStringLen;
    ghost var before := lens[..];
    ShapedAt(c, max, idx);
    inside := true;
    match c.args[idx] {
      case Int32(_) => size := 4;
      case Int64(_) => size := 8;
      case Pointer(_) => size := 4;
      case Str(s) =>
        PrecisionByType(c, max, idx, prevType, prevU32);
        var hasPrecision := idx in c.mask && prevType == TYPE_32BITS;
        var len;
        inside, len := ScanCString(s, if hasPrecision then Some(Signed(prevU32)) else None, max);
        if !inside {
          NotInside(c, max, idx);
          return false, 0;
        }
        lens[idx] := len;
        var bytes: nat := if lens[idx] == NULL_LEN then 0 else lens[idx];
        size := 4 + bytes;
      case StrView(v) =>
        lens[idx] := ViewLen(v, max);
        var bytes: nat := if lens[idx] == NULL_LEN then 0 else lens[idx];
        size := 4 + bytes;
      case Unknown(_) => size := 0;
    }
    if c.Valid(max) { KeepRecorded(c, max, before, lens[..], idx); }
  }

  /** The lengths recorded so far are those of the string arguments. */
  ghost predicate Recorded(c: LogCall, max: MaxString, lens: seq<U32>, n: nat)
    requires c.Valid(max) && n <= |c.args|
  {
    && |lens| == MAX_ARGS && n <= MAX_ARGS
    && forall i :: 0 <= i < n && (c.args[i].Str? || c.args[i].StrView?) ==>
         lens[i] == SentLen(c.args, c.mask, max, i)
  }

  lemma ShapedAt(c: LogCall, max: MaxString, idx: nat)
    requires c.Shaped(max) && idx < |c.args|
    ensures ShapedArg(c.args[idx])
  {
    assert c.args[idx] in c.args;
  }

  lemma ValidAt(c: LogCall, max: MaxString, idx: nat)
    requires c.Valid(max) && idx < |c.args|
    ensures ValidArg(c.args[idx], max)
  {
    assert c.args[idx] in c.args;
  }

  lemma ValidIsShaped(c: LogCall, max: MaxString)
    requires c.Valid(max)
    ensures c.Shaped(max)
  {
  }

  lemma NotInside(c: LogCall, max: MaxString, idx: nat)
    requires idx < |c.args| && !ValidArg(c.args[idx], max)
    ensures !c.Valid(max)
  {
    assert c.args[idx] in c.args;
  }

  lemma KeepRecorded(c: LogCall, max: MaxString, before: seq<U32>, after: seq<U32>, idx: nat)
    requires c.Valid(max) && idx < |c.args| <= MAX_ARGS && |before| == |after|
    requires Recorded(c, max, before, idx)
    requires forall i :: 0 <= i < |before| && i != idx ==> after[i] == before[i]
    requires ValidArg(c.args[idx], max)
    requires c.args[idx].Str? || c.args[idx].StrView? ==> after[idx] == SentLen(c.args, c.mask, max, idx)
    ensures Recorded(c, max, after, idx + 1)
  {
    hide SentLen, ValidArg;
  }

  lemma PrecisionByType(c: LogCall, max: nat, i: nat, prevType: Byte, prevU32: U32)
    requires c.Shaped(max) && i < |c.args|
    requires prevType == if i == 0 then TYPE_NONE else TypeOf(c.args[i - 1])
    requires i > 0 && c.args[i - 1].Int32? ==> prevU32 == c.args[i - 1].v
    ensures PrecisionOf(c.args, c.mask, i)
            == if i in c.mask && prevType == TYPE_32BITS then Some(Signed(prevU32)) else None
  {
    if i > 0 {
      assert ShapedArg(c.args[i - 1]);
    }
  }
}
