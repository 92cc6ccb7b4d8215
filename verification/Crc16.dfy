/**
 * CRC-16/CCITT (polynomial 0x1021, initial value 0xffff, unreflected) in the
 * two forms the transports use: bit by bit, and through a 256-entry table.
 */
module Crc16 {
  import opened Bytes

  const INIT: bv16 := 0xffff

  /** One turn of the bit loop. */
  function Step(x: bv16): bv16 {
    if x & 0x8000 != 0 then (x << 1) ^ 0x1021 else x << 1
  }

  function Steps(x: bv16, n: nat): bv16
    decreases n
  {
    if n == 0 then x else Step(Steps(x, n - 1))
  }

  /** A byte widened to 16 bits; see ByteBitsValue. */
  function ByteBits(b: nat): bv16 {
    if b == 0 then 0 else ByteBits(b - 1) + 1
  }

  /** The register after one more byte. */
  function Update(crc: bv16, b: Byte): bv16 {
    Steps(crc ^ (ByteBits(b) << 8), 8)
  }

  /** The register after a run of bytes. */
  function Crc(crc: bv16, data: seq<Byte>): bv16
    decreases |data|
  {
    if data == [] then crc else Update(Crc(crc, data[..|data| - 1]), data[|data| - 1])
  }

  function LowByte(crc: bv16): Byte {
    (crc & 0xff) as int
  }

  function HighByte(crc: bv16): Byte {
    (crc >> 8) as int
  }

  /** The two checksum bytes as sent, low byte first. */
  function Trailer(crc: bv16): (r: seq<Byte>)
    ensures |r| == 2
  {
    [LowByte(crc), HighByte(crc)]
  }

  function FromTrailer(lo: Byte, hi: Byte): bv16 {
    ByteBits(lo) | (ByteBits(hi) << 8)
  }

  lemma TrailerRoundTrip(crc: bv16)
    ensures FromTrailer(LowByte(crc), HighByte(crc)) == crc
  {
    hide ByteBits;
    ByteBitsValue(LowByte(crc));
    ByteBitsValue(HighByte(crc));
    SameValue(ByteBits(LowByte(crc)), crc & 0xff);
    SameValue(ByteBits(HighByte(crc)), crc >> 8);
    JoinBits(crc);
  }

  /** No two pairs of trailer bytes stand for the same checksum. */
  lemma TrailerIsUnique(lo: Byte, hi: Byte)
    ensures Trailer(FromTrailer(lo, hi)) == [lo, hi]
  {
    hide ByteBits;
    ByteBitsValue(lo);
    ByteBitsValue(hi);
    UnjoinBits(ByteBits(lo), ByteBits(hi));
  }

  lemma UnjoinBits(m: bv16, n: bv16)
    requires m < 256 && n < 256
    ensures (m | (n << 8)) & 0xff == m && (m | (n << 8)) >> 8 == n
  {
  }

  lemma JoinBits(x: bv16)
    ensures (x & 0xff) | ((x >> 8) << 8) == x
  {
  }

  // ---- Closed form of eight steps ----
  // The lemmas named ...Bits mention no function, so the solver settles them by bit-blasting alone.

  lemma StepForm(x: bv16)
    ensures Step(x) == (x << 1) ^ (x >> 15) ^ ((x >> 15) << 5) ^ ((x >> 15) << 12)
  {
    if x & 0x8000 != 0 {
      assert x >> 15 == 1;
    } else {
      assert x >> 15 == 0;
    }
  }

  lemma TwoBits(x: bv16, a: bv16, b: bv16)
    requires a == (x << 1) ^ (x >> 15) ^ ((x >> 15) << 5) ^ ((x >> 15) << 12)
    requires b == (a << 1) ^ (a >> 15) ^ ((a >> 15) << 5) ^ ((a >> 15) << 12)
    ensures b == (x << 2) ^ (x >> 14) ^ ((x >> 14) << 5) ^ ((x >> 14) << 12)
  {
  }

  lemma FourBits(x: bv16, a: bv16, b: bv16)
    requires a == (x << 2) ^ (x >> 14) ^ ((x >> 14) << 5) ^ ((x >> 14) << 12)
    requires b == (a << 2) ^ (a >> 14) ^ ((a >> 14) << 5) ^ ((a >> 14) << 12)
    ensures b == (x << 4) ^ (x >> 12) ^ ((x >> 12) << 5) ^ ((x >> 12) << 12)
  {
  }

  lemma EightBits(x: bv16, t: bv16, f: bv16, a: bv16, b: bv16)
    requires a == (x << 4) ^ (x >> 12) ^ ((x >> 12) << 5) ^ ((x >> 12) << 12)
    requires b == (a << 4) ^ (a >> 12) ^ ((a >> 12) << 5) ^ ((a >> 12) << 12)
    requires t == (x >> 8) ^ (x >> 12) && f == t ^ (t << 5) ^ (t << 12)
    ensures b == (x << 8) ^ f
  {
  }

  lemma TwoSteps(x: bv16)
    ensures Step(Step(x)) == (x << 2) ^ (x >> 14) ^ ((x >> 14) << 5) ^ ((x >> 14) << 12)
  {
    StepForm(x);
    StepForm(Step(x));
    TwoBits(x, Step(x), Step(Step(x)));
  }

  lemma FourSteps(x: bv16)
    ensures Step(Step(Step(Step(x)))) == (x << 4) ^ (x >> 12) ^ ((x >> 12) << 5) ^ ((x >> 12) << 12)
  {
    var a := Step(Step(x));
    TwoSteps(x);
    TwoSteps(a);
    FourBits(x, a, Step(Step(a)));
  }

  /** Eight steps push the top byte out and leave its spread behind. */
  lemma EightSteps(x: bv16, t: bv16, f: bv16)
    requires t == (x >> 8) ^ (x >> 12) && f == t ^ (t << 5) ^ (t << 12)
    ensures Steps(x, 8) == (x << 8) ^ f
  {
    var a := Step(Step(Step(Step(x))));
    var b := Step(Step(Step(Step(a))));
    FourSteps(x);
    FourSteps(a);
    EightBits(x, t, f, a, b);
    UnrollSteps(x);
  }

  lemma EightStepsForm(x: bv16, t: bv16)
    requires t == (x >> 8) ^ (x >> 12)
    ensures Steps(x, 8) == (x << 8) ^ (t ^ (t << 5) ^ (t << 12))
  {
    hide Steps;
    EightSteps(x, t, t ^ (t << 5) ^ (t << 12));
  }

  lemma UnrollSteps(x: bv16)
    ensures Steps(x, 8) == Step(Step(Step(Step(Step(Step(Step(Step(x))))))))
  {
    assert Steps(x, 2) == Step(Step(x));
    assert Steps(x, 4) == Step(Step(Steps(x, 2)));
    assert Steps(x, 6) == Step(Step(Steps(x, 4)));
  }

  // ---- The table ----

  /** Row r of the lookup table, eight entries to a row. */
  function TableRow(r: bv16): (row: seq<bv16>)
    requires r < 32
    ensures |row| == 8
  {
    if r < 16 then LowerRow(r) else UpperRow(r - 16)
  }

  function LowerRow(r: bv16): (row: seq<bv16>)
    requires r < 16
    ensures |row| == 8
  {
    if r == 0 then [0x0000, 0x1021, 0x2042, 0x3063, 0x4084, 0x50a5, 0x60c6, 0x70e7]
    else if r == 1 then [0x8108, 0x9129, 0xa14a, 0xb16b, 0xc18c, 0xd1ad, 0xe1ce, 0xf1ef]
    else if r == 2 then [0x1231, 0x0210, 0x3273, 0x2252, 0x52b5, 0x4294, 0x72f7, 0x62d6]
    else if r == 3 then [0x9339, 0x8318, 0xb37b, 0xa35a, 0xd3bd, 0xc39c, 0xf3ff, 0xe3de]
    else if r == 4 then [0x2462, 0x3443, 0x0420, 0x1401, 0x64e6, 0x74c7, 0x44a4, 0x5485]
    else if r == 5 then [0xa56a, 0xb54b, 0x8528, 0x9509, 0xe5ee, 0xf5cf, 0xc5ac, 0xd58d]
    else if r == 6 then [0x3653, 0x2672, 0x1611, 0x0630, 0x76d7, 0x66f6, 0x5695, 0x46b4]
    else if r == 7 then [0xb75b, 0xa77a, 0x9719, 0x8738, 0xf7df, 0xe7fe, 0xd79d, 0xc7bc]
    else if r == 8 then [0x48c4, 0x58e5, 0x6886, 0x78a7, 0x0840, 0x1861, 0x2802, 0x3823]
    else if r == 9 then [0xc9cc, 0xd9ed, 0xe98e, 0xf9af, 0x8948, 0x9969, 0xa90a, 0xb92b]
    else if r == 10 then [0x5af5, 0x4ad4, 0x7ab7, 0x6a96, 0x1a71, 0x0a50, 0x3a33, 0x2a12]
    else if r == 11 then [0xdbfd, 0xcbdc, 0xfbbf, 0xeb9e, 0x9b79, 0x8b58, 0xbb3b, 0xab1a]
    else if r == 12 then [0x6ca6, 0x7c87, 0x4ce4, 0x5cc5, 0x2c22, 0x3c03, 0x0c60, 0x1c41]
    else if r == 13 then [0xedae, 0xfd8f, 0xcdec, 0xddcd, 0xad2a, 0xbd0b, 0x8d68, 0x9d49]
    else if r == 14 then [0x7e97, 0x6eb6, 0x5ed5, 0x4ef4, 0x3e13, 0x2e32, 0x1e51, 0x0e70]
    else [0xff9f, 0xefbe, 0xdfdd, 0xcffc, 0xbf1b, 0xaf3a, 0x9f59, 0x8f78]
  }

  function UpperRow(r: bv16): (row: seq<bv16>)
    requires r < 16
    ensures |row| == 8
  {
    if r == 0 then [0x9188, 0x81a9, 0xb1ca, 0xa1eb, 0xd10c, 0xc12d, 0xf14e, 0xe16f]
    else if r == 1 then [0x1080, 0x00a1, 0x30c2, 0x20e3, 0x5004, 0x4025, 0x7046, 0x6067]
    else if r == 2 then [0x83b9, 0x9398, 0xa3fb, 0xb3da, 0xc33d, 0xd31c, 0xe37f, 0xf35e]
    else if r == 3 then [0x02b1, 0x1290, 0x22f3, 0x32d2, 0x4235, 0x5214, 0x6277, 0x7256]
    else if r == 4 then [0xb5ea, 0xa5cb, 0x95a8, 0x8589, 0xf56e, 0xe54f, 0xd52c, 0xc50d]
    else if r == 5 then [0x34e2, 0x24c3, 0x14a0, 0x0481, 0x7466, 0x6447, 0x5424, 0x4405]
    else if r == 6 then [0xa7db, 0xb7fa, 0x8799, 0x97b8, 0xe75f, 0xf77e, 0xc71d, 0xd73c]
    else if r == 7 then [0x26d3, 0x36f2, 0x0691, 0x16b0, 0x6657, 0x7676, 0x4615, 0x5634]
    else if r == 8 then [0xd94c, 0xc96d, 0xf90e, 0xe92f, 0x99c8, 0x89e9, 0xb98a, 0xa9ab]
    else if r == 9 then [0x5844, 0x4865, 0x7806, 0x6827, 0x18c0, 0x08e1, 0x3882, 0x28a3]
    else if r == 10 then [0xcb7d, 0xdb5c, 0xeb3f, 0xfb1e, 0x8bf9, 0x9bd8, 0xabbb, 0xbb9a]
    else if r == 11 then [0x4a75, 0x5a54, 0x6a37, 0x7a16, 0x0af1, 0x1ad0, 0x2ab3, 0x3a92]
    else if r == 12 then [0xfd2e, 0xed0f, 0xdd6c, 0xcd4d, 0xbdaa, 0xad8b, 0x9de8, 0x8dc9]
    else if r == 13 then [0x7c26, 0x6c07, 0x5c64, 0x4c45, 0x3ca2, 0x2c83, 0x1ce0, 0x0cc1]
    else if r == 14 then [0xef1f, 0xff3e, 0xcf5d, 0xdf7c, 0xaf9b, 0xbfba, 0x8fd9, 0x9ff8]
    else [0x6e17, 0x7e36, 0x4e55, 0x5e74, 0x2e93, 0x3eb2, 0x0ed1, 0x1ef0]
  }

  function Table(x: bv16): bv16
    requires x < 256
  {
    TableRow(x >> 3)[(x & 7) as int]
  }

  /** What a byte contributes when it leaves the top of the register. */
  function Spread(x: bv16): bv16 {
    Folded(x ^ (x >> 4))
  }

  function Folded(t: bv16): bv16 {
    t ^ (t << 5) ^ (t << 12)
  }

  function RowOf(x: bv16): seq<bv16> {
    [Spread(x), Spread(x + 1), Spread(x + 2), Spread(x + 3), Spread(x + 4), Spread(x + 5), Spread(x + 6), Spread(x + 7)]
  }

  lemma RowsFrom0()
    ensures TableRow(0) == RowOf(0)
    ensures TableRow(1) == RowOf(8)
    ensures TableRow(2) == RowOf(16)
    ensures TableRow(3) == RowOf(24)
  {
  }

  lemma RowsFrom4()
    ensures TableRow(4) == RowOf(32)
    ensures TableRow(5) == RowOf(40)
    ensures TableRow(6) == RowOf(48)
    ensures TableRow(7) == RowOf(56)
  {
  }

  lemma RowsFrom8()
    ensures TableRow(8) == RowOf(64)
    ensures TableRow(9) == RowOf(72)
    ensures TableRow(10) == RowOf(80)
    ensures TableRow(11) == RowOf(88)
  {
  }

  lemma RowsFrom12()
    ensures TableRow(12) == RowOf(96)
    ensures TableRow(13) == RowOf(104)
    ensures TableRow(14) == RowOf(112)
    ensures TableRow(15) == RowOf(120)
  {
  }

  lemma RowsFrom16()
    ensures TableRow(16) == RowOf(128)
    ensures TableRow(17) == RowOf(136)
    ensures TableRow(18) == RowOf(144)
    ensures TableRow(19) == RowOf(152)
  {
  }

  lemma RowsFrom20()
    ensures TableRow(20) == RowOf(160)
    ensures TableRow(21) == RowOf(168)
    ensures TableRow(22) == RowOf(176)
    ensures TableRow(23) == RowOf(184)
  {
  }

  lemma RowsFrom24()
    ensures TableRow(24) == RowOf(192)
    ensures TableRow(25) == RowOf(200)
    ensures TableRow(26) == RowOf(208)
    ensures TableRow(27) == RowOf(216)
  {
  }

  lemma RowsFrom28()
    ensures TableRow(28) == RowOf(224)
    ensures TableRow(29) == RowOf(232)
    ensures TableRow(30) == RowOf(240)
    ensures TableRow(31) == RowOf(248)
  {
  }

  lemma RowIsSpread(r: bv16)
    requires r < 32
    ensures TableRow(r) == RowOf(r << 3)
  {
    if r < 4 { RowsFrom0(); } else if r < 8 { RowsFrom4(); } else if r < 12 { RowsFrom8(); }
    else if r < 16 { RowsFrom12(); } else if r < 20 { RowsFrom16(); } else if r < 24 { RowsFrom20(); }
    else if r < 28 { RowsFrom24(); } else { RowsFrom28(); }
  }

  lemma TableIsSpread(x: bv16)
    requires x < 256
    ensures Table(x) == Spread(x)
  {
    var y := (x >> 3) << 3;
    var j := x & 7;
    RowIsSpread(x >> 3);
    assert y + j == x;
    RowAt(y, j);
  }

  lemma RowAt(y: bv16, j: bv16)
    requires j < 8 && y & 7 == 0
    ensures RowOf(y)[j as int] == Spread(y + j)
  {
    hide Spread;
    if j == 0 {} else if j == 1 {} else if j == 2 {} else if j == 3 {}
    else if j == 4 {} else if j == 5 {} else if j == 6 {} else { assert j == 7; }
  }

  lemma TableEntry(x: bv16, t: bv16)
    requires x < 256 && t == x ^ (x >> 4)
    ensures Table(x) == t ^ (t << 5) ^ (t << 12)
  {
    hide Table;
    TableIsSpread(x);
  }

  // ---- Both implementations compute the same register ----

  lemma TableIndexBits(crc: bv16, d: bv16, x: bv16, i: bv16)
    requires d < 256
    requires x == crc ^ (d << 8)
    requires i == ((crc >> 8) ^ d) & 0xff
    ensures i ^ (i >> 4) == (x >> 8) ^ (x >> 12)
    ensures x << 8 == crc << 8
  {
  }

  lemma {:induction false} ByteBitsValue(b: nat)
    requires b < 256
    ensures ByteBits(b) as int == b
    ensures ByteBits(b) < 256
  {
    if b > 0 {
      ByteBitsValue(b - 1);
      Successor(ByteBits(b - 1));
    }
  }

  lemma Successor(x: bv16)
    requires x < 255
    ensures (x + 1) as int == x as int + 1
  {
  }

  lemma BvThroughInt(x: bv16)
    ensures (x as int) as bv16 == x
  {
  }

  lemma SameValue(x: bv16, y: bv16)
    requires x as int == y as int
    ensures x == y
  {
    BvThroughInt(x);
    BvThroughInt(y);
  }

  lemma ByteBitsInjective(a: Byte, b: Byte)
    requires ByteBits(a) == ByteBits(b)
    ensures a == b
  {
    ByteBitsValue(a);
    ByteBitsValue(b);
  }

  /** The table-driven update of the ESP transport equals the bit loop, for every register and byte. */
  lemma TableIsTopByte(x: bv16, i: bv16, t: bv16)
    requires i < 256
    requires t == i ^ (i >> 4) && t == (x >> 8) ^ (x >> 12)
    ensures Steps(x, 8) == (x << 8) ^ Table(i)
  {
    hide Steps, Table;
    TableEntry(i, t);
    EightSteps(x, t, Table(i));
  }

  lemma TableStepIsUpdate(crc: bv16, b: Byte, m: bv16, i: bv16)
    requires m == ByteBits(b)
    requires i == ((crc >> 8) ^ m) & 0xff
    ensures Update(crc, b) == (crc << 8) ^ Table(i)
  {
    hide *;
    UpdateForm(crc, b, m);
    ByteFitsLow(b);
    TableIndexBits(crc, m, crc ^ (m << 8), i);
    TableIsTopByte(crc ^ (m << 8), i, i ^ (i >> 4));
  }

  method BitStep(crc: bv16) returns (next: bv16)
    ensures next == Step(crc)
  {
    if crc & 0x8000 != 0 {
      next := (crc << 1) ^ 0x1021;
    } else {
      next := crc << 1;
    }
  }

  /** Eight turns of the bit loop, as both the Unix transport and the reference decoder write it. */
  method BitLoop(start: bv16) returns (crc: bv16)
    ensures crc == Steps(start, 8)
  {
    hide Step;
    crc := start;
    for bit := 0 to 8
      invariant crc == Steps(start, bit)
    {
      crc := BitStep(crc);
    }
  }

  /** Unix transport: one byte. */
  method UnixUpdate(crc: bv16, b: Byte) returns (r: bv16)
    ensures r == Update(crc, b)
  {
    r := BitLoop(crc ^ (ByteBits(b) << 8));
  }

  /** ESP transport: one byte through the table. */
  method TableStep(crc: bv16, b: Byte) returns (r: bv16)
    ensures r == Update(crc, b)
  {
    hide *;
    var m := ByteBits(b);
    var i := ((crc >> 8) ^ m) & 0xff;
    TableStepIsUpdate(crc, b, m, i);
    r := (crc << 8) ^ Table(i);
  }

  /** ESP transport: a run of bytes. */
  method EspUpdate(crc: bv16, data: seq<Byte>) returns (r: bv16)
    ensures r == Crc(crc, data)
  {
    hide Update;
    r := crc;
    for i := 0 to |data|
      invariant r == Crc(crc, data[..i])
    {
      r := TableStep(r, data[i]);
      assert data[..i + 1][..i] == data[..i];
    }
    assert data[..|data|] == data;
  }

  /** Reference decoder: the checksum of a whole body, written from the specification. */
  method ReferenceCrc(data: seq<Byte>) returns (r: bv16)
    ensures r == Crc(INIT, data)
  {
    hide Steps, ByteBits;
    r := INIT;
    for i := 0 to |data|
      invariant r == Crc(INIT, data[..i])
    {
      r := BitLoop(r ^ (ByteBits(data[i]) << 8));
      assert data[..i + 1][..i] == data[..i];
    }
    assert data[..|data|] == data;
  }

  lemma {:induction false} CrcAppend(crc: bv16, a: seq<Byte>, b: seq<Byte>)
    ensures Crc(crc, a + b) == Crc(Crc(crc, a), b)
    decreases |b|
  {
    if b == [] {
      assert a + b == a;
    } else {
      var n := |b| - 1;
      assert (a + b)[..|a + b| - 1] == a + b[..n];
      CrcAppend(crc, a, b[..n]);
    }
  }

  // ---- Error detection ----

  lemma SameFoldBits(x: bv16, y: bv16, s: bv16, t: bv16, u: bv16, v: bv16)
    requires s == (x >> 8) ^ (x >> 12) && t == (y >> 8) ^ (y >> 12)
    requires u == (x << 8) ^ (s ^ (s << 5) ^ (s << 12)) && v == (y << 8) ^ (t ^ (t << 5) ^ (t << 12))
    requires u == v
    ensures s == t
  {
  }

  lemma SameShiftBits(x: bv16, y: bv16, s: bv16, t: bv16, u: bv16, v: bv16)
    requires u == (x << 8) ^ (s ^ (s << 5) ^ (s << 12)) && v == (y << 8) ^ (t ^ (t << 5) ^ (t << 12))
    requires u == v && s == t
    ensures x << 8 == y << 8
  {
  }

  lemma SameTopBits(x: bv16, y: bv16, s: bv16, t: bv16)
    requires s == (x >> 8) ^ (x >> 12) && t == (y >> 8) ^ (y >> 12)
    requires s == t && x << 8 == y << 8
    ensures x == y
  {
  }

  lemma InjectiveBits(x: bv16, y: bv16, s: bv16, t: bv16, u: bv16, v: bv16)
    requires s == (x >> 8) ^ (x >> 12) && t == (y >> 8) ^ (y >> 12)
    requires u == (x << 8) ^ (s ^ (s << 5) ^ (s << 12)) && v == (y << 8) ^ (t ^ (t << 5) ^ (t << 12))
    requires u == v
    ensures x == y
  {
    SameFoldBits(x, y, s, t, u, v);
    SameShiftBits(x, y, s, t, u, v);
    SameTopBits(x, y, s, t);
  }

  lemma EightStepsInjective(x: bv16, y: bv16)
    requires Steps(x, 8) == Steps(y, 8)
    ensures x == y
  {
    hide Steps;
    var s, t := (x >> 8) ^ (x >> 12), (y >> 8) ^ (y >> 12);
    EightStepsForm(x, s);
    EightStepsForm(y, t);
    InjectiveBits(x, y, s, t, Steps(x, 8), Steps(y, 8));
  }

  lemma XorCancelBits(c: bv16, d: bv16, m: bv16)
    ensures c ^ m == d ^ m ==> c == d
  {
  }

  lemma UpdateForm(crc: bv16, b: Byte, m: bv16)
    requires m == ByteBits(b)
    ensures Update(crc, b) == Steps(crc ^ (m << 8), 8)
  {
    hide Steps, ByteBits;
  }

  lemma UpdateSameInput(c: bv16, d: bv16, b: Byte, m: bv16)
    requires m == ByteBits(b)
    requires Update(c, b) == Update(d, b)
    ensures c ^ (m << 8) == d ^ (m << 8)
  {
    hide *;
    UpdateForm(c, b, m);
    UpdateForm(d, b, m);
    EightStepsInjective(c ^ (m << 8), d ^ (m << 8));
  }

  lemma UpdateSameState(c: bv16, d: bv16, b: Byte, m: bv16)
    requires m == ByteBits(b)
    requires Update(c, b) == Update(d, b)
    ensures c == d
  {
    hide *;
    XorCancelBits(c, d, m << 8);
    UpdateSameInput(c, d, b, m);
  }

  lemma UpdateInjectiveInState(c: bv16, d: bv16, b: Byte)
    requires Update(c, b) == Update(d, b)
    ensures c == d
  {
    hide *;
    UpdateSameState(c, d, b, ByteBits(b));
  }

  lemma {:induction false} CrcInjectiveInState(c: bv16, d: bv16, data: seq<Byte>)
    requires Crc(c, data) == Crc(d, data)
    ensures c == d
    decreases |data|
  {
    if data != [] {
      var n := |data| - 1;
      UpdateInjectiveInState(Crc(c, data[..n]), Crc(d, data[..n]), data[n]);
      CrcInjectiveInState(c, d, data[..n]);
    }
  }

  /** The low byte of the register after eight steps reveals the high byte before them. */
  lemma LowByteBits(u: bv16, v: bv16, s: bv16, t: bv16, x: bv16, y: bv16)
    requires s == (u >> 8) ^ (u >> 12) && t == (v >> 8) ^ (v >> 12)
    requires x == (u << 8) ^ (s ^ (s << 5) ^ (s << 12)) && y == (v << 8) ^ (t ^ (t << 5) ^ (t << 12))
    requires x & 0xff == y & 0xff
    ensures u >> 8 == v >> 8
  {
  }

  lemma LowByteDetermines(u: bv16, v: bv16, x: bv16, y: bv16)
    requires x == Steps(u, 8) && y == Steps(v, 8)
    requires x & 0xff == y & 0xff
    ensures u >> 8 == v >> 8
  {
    hide Steps;
    var s, t := (u >> 8) ^ (u >> 12), (v >> 8) ^ (v >> 12);
    EightStepsForm(u, s);
    EightStepsForm(v, t);
    LowByteBits(u, v, s, t, x, y);
  }

  lemma XorByteBits(c: bv16, m: bv16, n: bv16)
    requires m < 256 && n < 256
    requires (c ^ (m << 8)) >> 8 == (c ^ (n << 8)) >> 8
    ensures m == n
  {
  }

  lemma ByteFitsLow(b: Byte)
    ensures ByteBits(b) < 256
  {
    ByteBitsValue(b);
  }

  lemma HighByteFromLowByte(c: bv16, a: Byte, b: Byte, m: bv16, n: bv16)
    requires m == ByteBits(a) && n == ByteBits(b)
    requires Update(c, a) & 0xff == Update(c, b) & 0xff
    ensures (c ^ (m << 8)) >> 8 == (c ^ (n << 8)) >> 8
  {
    hide *;
    UpdateForm(c, a, m);
    UpdateForm(c, b, n);
    LowByteDetermines(c ^ (m << 8), c ^ (n << 8), Update(c, a), Update(c, b));
  }

  lemma ByteBitsFromLowByte(c: bv16, a: Byte, b: Byte, m: bv16, n: bv16)
    requires m == ByteBits(a) && n == ByteBits(b)
    requires Update(c, a) & 0xff == Update(c, b) & 0xff
    ensures m == n
  {
    hide *;
    HighByteFromLowByte(c, a, b, m, n);
    ByteFitsLow(a);
    ByteFitsLow(b);
    XorByteBits(c, m, n);
  }

  lemma ByteFromLowByte(c: bv16, a: Byte, b: Byte)
    requires Update(c, a) & 0xff == Update(c, b) & 0xff
    ensures a == b
  {
    hide *;
    ByteBitsFromLowByte(c, a, b, ByteBits(a), ByteBits(b));
    ByteBitsInjective(a, b);
  }

  lemma SameLowBits(x: bv16, y: bv16, m: bv16, n: bv16)
    requires x ^ (m << 8) == y ^ (n << 8)
    ensures x & 0xff == y & 0xff
  {
  }

  lemma SameLowByteBefore(x: bv16, y: bv16, m: bv16, n: bv16)
    requires Steps(x ^ (m << 8), 8) == Steps(y ^ (n << 8), 8)
    ensures x & 0xff == y & 0xff
  {
    hide Steps;
    EightStepsInjective(x ^ (m << 8), y ^ (n << 8));
    SameLowBits(x, y, m, n);
  }

  lemma LowByteBeforeLastUpdate(x: bv16, y: bv16, a: Byte, b: Byte)
    requires Update(x, a) == Update(y, b)
    ensures x & 0xff == y & 0xff
  {
    hide Steps, ByteBits;
    SameLowByteBefore(x, y, ByteBits(a), ByteBits(b));
  }

  /** Two adjacent bytes fill the 16-bit register, so the pair is determined by the outcome. */
  lemma TwoBytesInjective(c: bv16, a0: Byte, a1: Byte, b0: Byte, b1: Byte)
    requires Update(Update(c, a0), a1) == Update(Update(c, b0), b1)
    ensures a0 == b0 && a1 == b1
  {
    hide Update;
    LowByteBeforeLastUpdate(Update(c, a0), Update(c, b0), a1, b1);
    ByteFromLowByte(c, a0, b0);
    ByteFromLowByte(Update(c, a0), a1, b1);
  }

  /** Damage confined to one byte always changes the checksum, whatever the length of the body. */
  lemma OneByteDamageDetected(crc: bv16, before: seq<Byte>, x: Byte, y: Byte, after: seq<Byte>)
    ensures Crc(crc, before + [x] + after) == Crc(crc, before + [y] + after) <==> x == y
  {
    if Crc(crc, before + [x] + after) == Crc(crc, before + [y] + after) {
      CrcAppend(crc, before + [x], after);
      CrcAppend(crc, before + [y], after);
      CrcInjectiveInState(Crc(crc, before + [x]), Crc(crc, before + [y]), after);
      assert (before + [x])[..|before|] == before && (before + [y])[..|before|] == before;
      ByteFromLowByte(Crc(crc, before), x, y);
    }
  }

  /** Damage confined to two adjacent bytes always changes the checksum. */
  lemma TwoByteDamageDetected(crc: bv16, before: seq<Byte>, x0: Byte, x1: Byte, y0: Byte, y1: Byte, after: seq<Byte>)
    ensures Crc(crc, before + [x0, x1] + after) == Crc(crc, before + [y0, y1] + after) <==> x0 == y0 && x1 == y1
  {
    if Crc(crc, before + [x0, x1] + after) == Crc(crc, before + [y0, y1] + after) {
      CrcAppend(crc, before + [x0, x1], after);
      CrcAppend(crc, before + [y0, y1], after);
      CrcInjectiveInState(Crc(crc, before + [x0, x1]), Crc(crc, before + [y0, y1]), after);
      CrcPair(crc, before, x0, x1);
      CrcPair(crc, before, y0, y1);
      TwoBytesInjective(Crc(crc, before), x0, x1, y0, y1);
    }
  }

  lemma CrcPair(crc: bv16, before: seq<Byte>, b0: Byte, b1: Byte)
    ensures Crc(crc, before + [b0, b1]) == Update(Update(Crc(crc, before), b0), b1)
  {
    var s := before + [b0, b1];
    assert s[..|s| - 1] == before + [b0];
    assert (before + [b0])[..|before|] == before;
  }

  // ---- The check value ----

  lemma CheckStep(crc: bv16, b: Byte, m: bv16, i: bv16, r: bv16)
    requires m as int == b && i == ((crc >> 8) ^ m) & 0xff && i < 256 && r == (crc << 8) ^ Spread(i)
    ensures Update(crc, b) == r
  {
    hide *;
    ByteBitsValue(b);
    SameValue(ByteBits(b), m);
    TableIsSpread(i);
    TableStepIsUpdate(crc, b, m, i);
  }

  lemma CrcOfNothing(data: seq<Byte>)
    ensures Crc(INIT, data[..0]) == 0xffff
  {
  }

  lemma CrcOfPrefix(data: seq<Byte>, k: nat)
    requires k < |data|
    ensures Crc(INIT, data[..k + 1]) == Update(Crc(INIT, data[..k]), data[k])
  {
    hide Update;
    assert data[..k + 1][..k] == data[..k];
  }

  /** The check value of this CRC, over the digits 1 to 9. */
  lemma CheckValue()
    ensures Crc(INIT, [0x31, 0x32, 0x33, 0x34, 0x35, 0x36, 0x37, 0x38, 0x39]) == 0x29b1
  {
    hide Update, Crc, Table;
    var digits: seq<Byte> := [0x31, 0x32, 0x33, 0x34, 0x35, 0x36, 0x37, 0x38, 0x39];
    CrcOfNothing(digits);
    CrcOfPrefix(digits, 0);
    CheckStep(0xffff, 0x31, 0x31, 0xce, 0xc782);
    CrcOfPrefix(digits, 1);
    CheckStep(0xc782, 0x32, 0x32, 0xf5, 0x3dba);
    CrcOfPrefix(digits, 2);
    CheckStep(0x3dba, 0x33, 0x33, 0x0e, 0x5bce);
    CrcOfPrefix(digits, 3);
    CheckStep(0x5bce, 0x34, 0x34, 0x6f, 0x5349);
    CrcOfPrefix(digits, 4);
    CheckStep(0x5349, 0x35, 0x35, 0x66, 0x4560);
    CrcOfPrefix(digits, 5);
    CheckStep(0x4560, 0x36, 0x36, 0x73, 0x2ef4);
    CrcOfPrefix(digits, 6);
    CheckStep(0x2ef4, 0x37, 0x37, 0x19, 0x7718);
    CrcOfPrefix(digits, 7);
    CheckStep(0x7718, 0x38, 0x38, 0x4f, 0xa12b);
    CrcOfPrefix(digits, 8);
    CheckStep(0xa12b, 0x39, 0x39, 0x98, 0x29b1);
    assert digits[..9] == digits;
  }
}
