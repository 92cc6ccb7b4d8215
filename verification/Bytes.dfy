/** Bytes, fixed-width unsigned integers and their little-endian form on the wire. */
module Bytes {

  type Byte = x: int | 0 <= x < 0x100
  type U16 = x: int | 0 <= x < 0x1_0000
  type U32 = x: int | 0 <= x < 0x1_0000_0000
  type U64 = x: int | 0 <= x < 0x1_0000_0000_0000_0000

  datatype Option<+T> = None | Some(value: T)

  /** What the logger's entry points return. */
  datatype Status = OK | INVALID_ARG | NO_MEM | NOT_FOUND

  function Min(a: int, b: int): int {
    if a < b then a else b
  }

  function Max(a: nat, b: nat): nat {
    if a < b then b else a
  }

  function Le16(v: U16): (r: seq<Byte>)
    ensures |r| == 2
  {
    [v % 0x100, v / 0x100]
  }

  function Le32(v: U32): (r: seq<Byte>)
    ensures |r| == 4
  {
    [v % 0x100, v / 0x100 % 0x100, v / 0x1_0000 % 0x100, v / 0x100_0000]
  }

  function Le64(v: U64): (r: seq<Byte>)
    ensures |r| == 8
  {
    Le32(v % 0x1_0000_0000) + Le32(v / 0x1_0000_0000)
  }

  function FromLe16(s: seq<Byte>): U16
    requires |s| == 2
  {
    s[0] as int + 0x100 * (s[1] as int)
  }

  function FromLe32(s: seq<Byte>): U32
    requires |s| == 4
  {
    s[0] as int + 0x100 * (s[1] as int) + 0x1_0000 * (s[2] as int) + 0x100_0000 * (s[3] as int)
  }

  function FromLe64(s: seq<Byte>): U64
    requires |s| == 8
  {
    FromLe32(s[..4]) as int + 0x1_0000_0000 * (FromLe32(s[4..]) as int)
  }

  lemma Le32RoundTrip(v: U32)
    ensures FromLe32(Le32(v)) == v
  {
    assert v / 0x1_0000 == v / 0x100 / 0x100;
    assert v / 0x100_0000 == v / 0x1_0000 / 0x100;
  }

  lemma Le64RoundTrip(v: U64)
    ensures FromLe64(Le64(v)) == v
  {
    var lo, hi := v % 0x1_0000_0000, v / 0x1_0000_0000;
    Le32RoundTrip(lo);
    Le32RoundTrip(hi);
    assert Le64(v)[..4] == Le32(lo);
    assert Le64(v)[4..] == Le32(hi);
  }

  /** Concatenation of a list of chunks. */
  function Flatten<T>(chunks: seq<seq<T>>): seq<T> {
    if chunks == [] then [] else chunks[0] + Flatten(chunks[1..])
  }

  lemma {:induction false} FlattenAppend<T>(a: seq<seq<T>>, b: seq<seq<T>>)
    ensures Flatten(a + b) == Flatten(a) + Flatten(b)
  {
    if a == [] {
      assert a + b == b;
    } else {
      assert (a + b)[1..] == a[1..] + b;
      FlattenAppend(a[1..], b);
    }
  }
}
