/** The stdio sink: collects a packet, then writes it byte by byte with a running bitwise CRC. */
module UnixSink {
  import opened Bytes
  import opened Sinks
  import Crc16
  import Slip

  /** A stream, the outcomes of the fputc() calls to come (true is EOF; none listed means success), the sticky failure. */
  datatype Stdio = Stdio(written: seq<Byte>, faults: seq<bool>, failed: bool)

  /** The stream after data was written to it byte by byte. */
  function Put(s: Stdio, data: seq<Byte>): Stdio
    decreases data
  {
    if data == [] || s.failed then s
    else if s.faults != [] && s.faults[0] then Stdio(s.written, s.faults[1..], true)
    else Put(Stdio(s.written + [data[0]], Behind(s.faults, 1), false), data[1..])
  }

  lemma {:induction false} PutBoth(s: Stdio, a: seq<Byte>, b: seq<Byte>)
    ensures Put(Put(s, a), b) == Put(s, a + b)
    decreases a
  {
    if a == [] {
      assert a + b == b;
    } else {
      assert (a + b)[0] == a[0] && (a + b)[1..] == a[1..] + b;
      if !s.failed && !(s.faults != [] && s.faults[0]) {
        PutBoth(Stdio(s.written + [a[0]], Behind(s.faults, 1), false), a[1..], b);
      }
    }
  }

  /** The outcomes behind the first n. */
  function Behind(faults: seq<bool>, n: nat): seq<bool> {
    if n < |faults| then faults[n..] else []
  }

  lemma BehindFirst(faults: seq<bool>, n: nat)
    ensures Behind(Behind(faults, 1), n) == Behind(faults, n + 1)
  {
  }

  /**
   * Bytes get through up to the first that fails, and none after it; a write fails if and only if its outcome says so.
   * Nothing is tried after a failure.
   */
  lemma {:induction false} PutStops(s: Stdio, data: seq<Byte>) returns (n: nat)
    ensures n <= |data| && Put(s, data).written == s.written + data[..n]
    ensures s.failed ==> Put(s, data) == s
    ensures !s.failed ==>
              && (forall k :: 0 <= k < n && k < |s.faults| ==> !s.faults[k])
              && (Put(s, data).failed <==> n < |data|) && (n < |data| ==> n < |s.faults| && s.faults[n])
              && Put(s, data).faults == Behind(s.faults, if n < |data| then n + 1 else n)
    decreases data
  {
    n := 0;
    if data != [] && !s.failed && !(s.faults != [] && s.faults[0]) {
      var s' := Stdio(s.written + [data[0]], Behind(s.faults, 1), false);
      var m := PutStops(s', data[1..]);
      n := m + 1;
      assert data[..n] == [data[0]] + data[1..][..m];
      BehindFirst(s.faults, if m < |data[1..]| then m + 1 else m);
      forall k | 0 <= k < n && k < |s.faults| ensures !s.faults[k] {
        if k > 0 { assert !s'.faults[k - 1]; }
      }
    }
  }

  /** Without a failing outcome everything gets through. */
  lemma AllPut(s: Stdio, data: seq<Byte>)
    requires !s.failed && true !in s.faults
    ensures var r := Put(s, data); r.written == s.written + data && !r.failed && true !in r.faults
  {
    var n := PutStops(s, data);
    assert data[..|data|] == data;
  }

  class UnixSink {
    var stream: seq<Byte>     // what fputc() has put on the stream
    var faults: seq<bool>     // outcomes of the fputc() calls to come: true is EOF; none listed means success
    var crc: bv16
    var payload: array<Byte>
    var len: nat
    var drop: bool
    var writeFailed: bool

    constructor (faults: seq<bool>)
      ensures Valid() && stream == [] && this.faults == faults && fresh(payload)
    {
      stream := [];
      this.faults := faults;
      crc := 0;
      payload := new Byte[MAX_PAYLOAD](i => 0);
      len := 0;
      drop := false;
      writeFailed := false;
    }

    ghost predicate Valid()
      reads this
    {
      payload.Length == MAX_PAYLOAD && len <= MAX_PAYLOAD
    }

    ghost function Collected(): Pending
      requires Valid()
      reads this, payload
    {
      if drop then None else Some(payload[..len])
    }

    ghost function State(): Stdio
      reads this
    {
      Stdio(stream, faults, writeFailed)
    }

    method WriteRaw(b: Byte)
      modifies this`stream, this`faults, this`writeFailed
      ensures State() == Put(old(State()), [b])
    {
      if !writeFailed {
        var eof := faults != [] && faults[0];
        faults := if faults == [] then [] else faults[1..];
        if eof {
          writeFailed := true;
        } else {
          stream := stream + [b];
        }
      }
    }

    method WriteEscaped(b: Byte)
      modifies this`stream, this`faults, this`writeFailed
      ensures State() == Put(old(State()), Slip.Escape(b))
    {
      if Slip.Reserved(b) {
        WriteRaw(Slip.ESC);
        WriteRaw(Slip.EscapeCode(b));
        PutBoth(old(State()), [Slip.ESC], [Slip.EscapeCode(b)]);
        assert [Slip.ESC] + [Slip.EscapeCode(b)] == Slip.Escape(b);
      } else {
        WriteRaw(b);
      }
    }

    method WriteBytes(data: seq<Byte>)
      modifies this`stream, this`faults, this`writeFailed, this`crc
      ensures State() == Put(old(State()), Slip.EscapeAll(data))
      ensures crc == Crc16.Crc(old(crc), data)
    {
      hide Slip.Escape, Crc16.Update, Put;
      assert Put(State(), Slip.EscapeAll(data[..0])) == State() by { NothingPut(State()); }
      for i := 0 to |data|
        invariant State() == Put(old(State()), Slip.EscapeAll(data[..i]))
        invariant crc == Crc16.Crc(old(crc), data[..i])
      {
        crc := Crc16.UnixUpdate(crc, data[i]);
        assert data[..i + 1][..i] == data[..i];
        WriteEscaped(data[i]);
        PutBoth(old(State()), Slip.EscapeAll(data[..i]), Slip.Escape(data[i]));
        Slip.EscapeLast(data, i);
      }
      assert data[..|data|] == data;
    }

    method OnStart(header: Buffer)
      requires Valid()
      modifies this`writeFailed, this`len, this`drop, payload
      ensures Valid() && Collected() == Begin(header)
      ensures State() == old(State()).(failed := false)
    {
      writeFailed := false;
      len := 0;
      drop := header.Null? || |header.bytes| > MAX_PAYLOAD;
      if !drop {
        forall i | 0 <= i < |header.bytes| {
          payload[i] := header.bytes[i];
        }
        len := |header.bytes|;
        assert payload[..len] == [] + header.bytes;
      }
    }

    method OnPayload(chunk: Buffer)
      requires Valid()
      modifies this`len, this`drop, payload
      ensures Valid() && Collected() == Take(old(Collected()), chunk)
    {
      if !drop {
        if (chunk.Null? && chunk.len != 0) || (chunk.Data? && |chunk.bytes| > MAX_PAYLOAD - len) {
          drop := true;
          len := 0;
        } else if chunk.Data? {
          forall i | 0 <= i < |chunk.bytes| {
            payload[len + i] := chunk.bytes[i];
          }
          len := len + |chunk.bytes|;
          assert payload[..len] == old(payload[..len]) + chunk.bytes;
        }
      }
    }

    /** Nothing for a dropped packet, otherwise its frame. */
    method OnEnd()
      requires Valid()
      modifies this`stream, this`faults, this`writeFailed, this`crc
      ensures Valid() && Collected() == old(Collected())
      ensures State() == Put(old(State()), Finish(Collected()))
    {
      if !drop {
        WriteFrame(payload[..len]);
      }
    }

    method WriteFrame(packet: seq<Byte>)
      modifies this`stream, this`faults, this`writeFailed, this`crc
      ensures State() == Put(old(State()), Slip.Frame(TYPE_BINARY, packet))
    {
      hide Put, Slip.Escape, Slip.EscapeAll, Crc16.Crc, Slip.Frame;
      WriteBody(packet);
      Crc16.CrcAppend(Crc16.INIT, [TYPE_BINARY], packet);
      WriteTrailer();
      ghost var body := [Slip.START] + Slip.EscapeAll([TYPE_BINARY]) + Slip.EscapeAll(packet);
      ghost var low, high := Slip.Escape(Crc16.LowByte(crc)), Slip.Escape(Crc16.HighByte(crc));
      PutBoth(old(State()), body, low + high + [Slip.END]);
      assert body + (low + high + [Slip.END]) == body + low + high + [Slip.END];
      Slip.FrameInPieces(TYPE_BINARY, packet, crc);
    }

    /** Marker, type and packet, with the checksum of the last two. */
    method WriteBody(packet: seq<Byte>)
      modifies this`stream, this`faults, this`writeFailed, this`crc
      ensures State() == Put(old(State()), [Slip.START] + Slip.EscapeAll([TYPE_BINARY]) + Slip.EscapeAll(packet))
      ensures crc == Crc16.Crc(Crc16.Crc(Crc16.INIT, [TYPE_BINARY]), packet)
    {
      hide Put, Slip.EscapeAll, Crc16.Crc;
      crc := Crc16.INIT;
      WriteRaw(Slip.START);
      WriteBytes([TYPE_BINARY]);
      PutBoth(old(State()), [Slip.START], Slip.EscapeAll([TYPE_BINARY]));
      WriteBytes(packet);
      PutBoth(old(State()), [Slip.START] + Slip.EscapeAll([TYPE_BINARY]), Slip.EscapeAll(packet));
    }

    /** Both checksum bytes and the end marker. */
    method WriteTrailer()
      modifies this`stream, this`faults, this`writeFailed
      ensures State() == Put(old(State()), Slip.Escape(Crc16.LowByte(crc)) + Slip.Escape(Crc16.HighByte(crc)) + [Slip.END])
    {
      hide Put, Slip.Escape;
      ghost var low, high := Slip.Escape(Crc16.LowByte(crc)), Slip.Escape(Crc16.HighByte(crc));
      WriteEscaped(Crc16.LowByte(crc));
      WriteEscaped(Crc16.HighByte(crc));
      PutBoth(old(State()), low, high);
      WriteRaw(Slip.END);
      PutBoth(old(State()), low + high, [Slip.END]);
    }

    /** One callback: a failure of the packet before is forgotten at its start, and only the last puts anything out. */
    method Step(call: Call)
      requires Valid()
      modifies this`stream, this`faults, this`writeFailed, this`crc, this`len, this`drop, payload
      ensures Valid() && Collected() == After(old(Collected()), call)
      ensures State() == Called(old(State()), old(Collected()), call)
    {
      hide Take, Begin, Finish;
      match call {
        case Start(h) => OnStart(h);
        case Payload(c) => OnPayload(c);
        case End => OnEnd();
      }
    }

    /**
     * A whole run of callbacks, with the stream after each of them: exactly the transport's bytes come out when no
     * write fails.
     */
    method Run(calls: seq<Call>) returns (ghost states: seq<Stdio>)
      requires Valid()
      modifies this`stream, this`faults, this`writeFailed, this`crc, this`len, this`drop, payload
      ensures Valid()
      ensures |states| == |calls| + 1 && states[0] == old(State()) && states[|calls|] == State()
      ensures forall i :: 0 <= i < |calls| ==>
                var before := if calls[i].Start? then states[i].(failed := false) else states[i];
                states[i + 1] == Put(before, Output(AfterAll(old(Collected()), calls[..i]), calls[i]))
      ensures true !in old(faults) && !old(writeFailed) ==>
                true !in faults && !writeFailed && stream == old(stream) + Emitted(old(Collected()), calls)
    {
      hide Take, Begin, Finish, Emitted, After, Output, AfterAll, Put;
      ghost var p0, exact := Collected(), true !in faults && !writeFailed;
      states := [State()];
      assert calls[0..] == calls && calls[..0] == [];
      NoCalls(p0);
      for i := 0 to |calls|
        invariant Valid() && Collected() == AfterAll(p0, calls[..i])
        invariant |states| == i + 1 && states[0] == old(State()) && states[i] == State()
        invariant forall k :: 0 <= k < i ==> states[k + 1] == Called(states[k], AfterAll(p0, calls[..k]), calls[k])
        invariant exact ==> true !in faults && !writeFailed
        invariant exact ==> stream + Emitted(Collected(), calls[i..]) == old(stream) + Emitted(p0, calls)
      {
        EmittedStep(Collected(), calls, i);
        ghost var before, out := State(), Output(Collected(), calls[i]);
        if exact { AllPut(before, out); }
        OneMoreCall(p0, calls, i);
        Step(calls[i]);
        states := states + [State()];
        assert exact ==> stream == before.written + out;
      }
      NoCalls(Collected());
      assert calls[|calls|..] == [] && calls[..|calls|] == calls;
    }
  }

  lemma NothingPut(s: Stdio)
    ensures Put(s, []) == s && Slip.EscapeAll([]) == []
  {
  }

  /** The stream after a callback. */
  function Called(s: Stdio, p: Pending, call: Call): Stdio {
    Put(if call.Start? then s.(failed := false) else s, Output(p, call))
  }

  lemma OneMoreCall(p: Pending, calls: seq<Call>, i: nat)
    requires i < |calls|
    ensures AfterAll(p, calls[..i + 1]) == After(AfterAll(p, calls[..i]), calls[i])
  {
    hide After, Emitted;
    assert calls[..i + 1] == calls[..i] + [calls[i]];
    EmittedAppend(p, calls[..i], [calls[i]]);
  }
}
