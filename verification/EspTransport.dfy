/**
 * The ESP transport: a 128-byte batched frame writer over several output
 * devices, the table-driven CRC, the accumulating sink in front of it, and
 * text writes split into frames.
 */
module EspTransport {
  import opened Bytes
  import opened Sinks
  import Crc16
  import Slip

  const WRITE_BATCH: nat := 128
  const MAX_OUTPUTS: nat := 3

  /** How the device answers a write() call to come; a device without further answers accepts everything. */
  datatype Response = Interrupted | Accepts(n: nat) | Fails

  /**
   * One slot of the output table: unused, or a device with what it received, the longest write() it was handed, the
   * number of write() calls, and its answers to those to come.
   */
  datatype Output = Unused | Device(received: seq<Byte>, longest: nat, writes: nat, script: seq<Response>)

  datatype EspStatus = ESP_OK | ESP_FAIL | ESP_ERR_INVALID_ARG | ESP_ERR_INVALID_SIZE | ESP_ERR_INVALID_STATE

  /** An answer that makes the write fail; short and interrupted writes are carried on. */
  predicate Fault(r: Response) {
    r.Fails? || (r.Accepts? && r.n == 0)
  }

  /** Device d after some writes: it has given the first of its answers. */
  ghost predicate Later(d: Output, d': Output) {
    && d.Device? && d'.Device?
    && |d'.script| <= |d.script| && d'.script == d.script[|d.script| - |d'.script|..]
  }

  /** None of the answers the device gave in between was a fault. */
  ghost predicate Clean(d: Output, d': Output) {
    d.Device? && d'.Device? && forall k :: 0 <= k < |d.script| - |d'.script| ==> !Fault(d.script[k])
  }

  /**
   * Device d after it was handed data: all of it arrived if and only if no answer was a fault, otherwise a part of it,
   * never in larger pieces.
   */
  ghost predicate Handed(d: Output, d': Output, data: seq<Byte>, ok: bool) {
    && Later(d, d') && (ok <==> Clean(d, d'))
    && d.received <= d'.received <= d.received + data
    && (ok <==> d'.received == d.received + data)
    && d'.longest <= Max(d.longest, |data|)
    && (d.script == [] ==> d'.writes == d.writes + if data == [] then 0 else 1)
  }

  /** The answer to the next write() of n bytes, and the device after it took some of them. */
  function Answer(d: Output, n: nat): Response
    requires d.Device?
  {
    if d.script == [] then Accepts(n) else d.script[0]
  }

  function Answered(d: Output, n: nat, taken: seq<Byte>): Output
    requires d.Device?
  {
    Device(d.received + taken, Max(d.longest, n), d.writes + 1, if d.script == [] then [] else d.script[1..])
  }

  /** Device d in the middle of a write, with rest of the data to go and no fault so far. */
  ghost predicate Halfway(d: Output, d': Output, data: seq<Byte>, rest: seq<Byte>) {
    && d.Device? && d'.Device? && Later(d, d') && Clean(d, d')
    && |rest| <= |data| && d.received <= d'.received && d'.received + rest == d.received + data
    && d'.longest <= Max(d.longest, |data|)
    && (d.script == [] ==> if rest == data then d'.writes == d.writes else rest == [] && d'.writes == d.writes + 1)
  }

  lemma AnswerIsClean(d: Output, d': Output, n: nat, taken: seq<Byte>)
    requires Later(d, d') && Clean(d, d')
    ensures Later(d, Answered(d', n, taken)) && (Clean(d, Answered(d', n, taken)) <==> d'.script == [] || !Fault(d'.script[0]))
  {
    var used := |d.script| - |d'.script|;
    assert d'.script != [] ==> d'.script[0] == d.script[used];
  }

  lemma WriteGoesOn(d: Output, d': Output, data: seq<Byte>, rest: seq<Byte>, k: nat)
    requires Halfway(d, d', data, rest) && k <= |rest| && (d'.script == [] || !Fault(d'.script[0])) && rest != []
    requires d'.script == [] ==> k == |rest|
    ensures Halfway(d, Answered(d', |rest|, rest[..k]), data, rest[k..])
  {
    hide Later, Clean;
    AnswerIsClean(d, d', |rest|, rest[..k]);
    assert d'.received + rest[..k] + rest[k..] == d'.received + rest;
    if d.script == [] { NoneLeft(d, d'); }
  }

  lemma NoneLeft(d: Output, d': Output)
    requires Later(d, d') && d.script == []
    ensures d'.script == []
  {
  }

  lemma WriteFails(d: Output, d': Output, data: seq<Byte>, rest: seq<Byte>)
    requires Halfway(d, d', data, rest) && rest != [] && d'.script != [] && Fault(d'.script[0])
    ensures Handed(d, Answered(d', |rest|, []), data, false)
  {
    hide Later, Clean;
    AnswerIsClean(d, d', |rest|, []);
    if d.script == [] { NoneLeft(d, d'); }
    assert d'.received + [] == d'.received;
  }

  /** Write all bytes to a device, carrying on after short and interrupted writes. */
  method WriteAll(d: Output, data: seq<Byte>) returns (d': Output, ok: bool)
    requires d.Device?
    ensures Handed(d, d', data, ok)
  {
    hide Later, Clean, Max;
    d' := d;
    var rest := data;
    assert Halfway(d, d', data, rest) by { NothingWritten(d, data); }
    while rest != []
      invariant d'.Device? && Halfway(d, d', data, rest)
      decreases |rest|, |d'.script|
    {
      var response := Answer(d', |rest|);
      if response.Interrupted? {
        WriteGoesOn(d, d', data, rest, 0);
        d' := Answered(d', |rest|, rest[..0]);
        continue;
      }
      if response.Fails? || response.n == 0 {
        WriteFails(d, d', data, rest);
        return Answered(d', |rest|, []), false;
      }
      var written := Min(response.n, |rest|);
      WriteGoesOn(d, d', data, rest, written);
      d' := Answered(d', |rest|, rest[..written]);
      rest := rest[written..];
    }
    ok := true;
  }

  lemma NothingWritten(d: Output, data: seq<Byte>)
    requires d.Device?
    ensures Halfway(d, d, data, data)
  {
  }

  /** The writer's batch buffer, and (ghost) everything flushed out of it so far. */
  class FrameWriter {
    var bytes: array<Byte>
    var len: nat
    var ok: bool
    ghost var flushed: seq<Byte>
    ghost var flushes: nat

    constructor ()
      ensures Valid() && ok && flushed == [] && flushes == 0 && len == 0 && fresh(bytes)
    {
      bytes := new Byte[WRITE_BATCH](i => 0);
      len := 0;
      ok := true;
      flushed := [];
      flushes := 0;
    }

    ghost predicate Valid()
      reads this
    {
      bytes.Length == WRITE_BATCH && len <= WRITE_BATCH
    }

    /** Only full batches were flushed so far. */
    ghost predicate Whole()
      reads this
    {
      |flushed| == 128 * flushes
    }

    /** Every byte put into the writer, flushed or not. */
    ghost function Total(): seq<Byte>
      requires Valid()
      reads this, bytes
    {
      flushed + bytes[..len]
    }

    method Store(piece: seq<Byte>)
      requires Valid() && |piece| <= WRITE_BATCH - len
      modifies this`len, bytes
      ensures Valid() && Total() == old(Total()) + piece
    {
      forall i | 0 <= i < |piece| {
        bytes[len + i] := piece[i];
      }
      len := len + |piece|;
      assert bytes[..len] == old(bytes[..len]) + piece;
    }
  }

  /**
   * Outputs after some data was sent to all of them: every device without a fault has received all of it, whatever the
   * others did, and the sending is reported as failed if and only if some device had a fault.
   */
  ghost predicate Delivered(before: seq<Output>, after: seq<Output>, data: seq<Byte>, ok: bool) {
    && |before| == |after|
    && (forall i :: 0 <= i < |before| ==> before[i].Device? == after[i].Device?)
    && (forall i :: 0 <= i < |before| && before[i].Device? ==>
          Later(before[i], after[i]) && (Clean(before[i], after[i]) ==> after[i].received == before[i].received + data))
    && (ok <==> forall i :: 0 <= i < |before| && before[i].Device? ==> Clean(before[i], after[i]))
  }

  /** The same, in writes of at most 128 bytes. */
  ghost predicate Transferred(before: seq<Output>, after: seq<Output>, data: seq<Byte>, ok: bool) {
    && Delivered(before, after, data, ok)
    && forall i :: 0 <= i < |before| && before[i].Device? ==> after[i].longest <= Max(before[i].longest, 128)
  }

  /** Every device that accepts everything was handed n writes. */
  ghost predicate Counted(before: seq<Output>, after: seq<Output>, n: nat) {
    |before| == |after| && forall i :: 0 <= i < |before| ==> CountedAt(before[i], after[i], n)
  }

  ghost predicate CountedAt(d: Output, d': Output, n: nat) {
    d.Device? && d.script == [] ==> d'.Device? && d'.script == [] && d'.writes == d.writes + n
  }

  lemma CountedOneMore(before: seq<Output>, after: seq<Output>, i: nat, d: Output, n: nat)
    requires i < |before| == |after| && CountedAt(before[i], d, n) && Counted(before[..i], after[..i], n)
    ensures Counted(before[..i + 1], after[i := d][..i + 1], n)
  {
    hide CountedAt;
    var b, a := before[..i + 1], after[i := d][..i + 1];
    assert forall k :: 0 <= k < i ==> b[k] == before[..i][k] && a[k] == after[..i][k];
  }

  lemma HandedIsCounted(d: Output, d': Output, data: seq<Byte>, ok: bool)
    requires Handed(d, d', data, ok) && data != []
    ensures CountedAt(d, d', 1)
  {
  }

  lemma UnusedIsCounted(d: Output, n: nat)
    requires d.Unused?
    ensures CountedAt(d, d, n)
  {
  }

  lemma CountedMore(a: seq<Output>, b: seq<Output>, c: seq<Output>, m: nat, n: nat)
    requires Counted(a, b, m) && Counted(b, c, n)
    ensures Counted(a, c, m + n)
  {
    forall i | 0 <= i < |a| ensures CountedAt(a[i], c[i], m + n) {
      assert CountedAt(a[i], b[i], m) && CountedAt(b[i], c[i], n);
    }
  }

  lemma CountedNothing(outputs: seq<Output>)
    ensures Counted(outputs, outputs, 0) && forall n :: Counted(outputs[..0], outputs[..0], n)
  {
  }

  lemma DeliveredOneMore(before: seq<Output>, after: seq<Output>, i: nat, d: Output, data: seq<Byte>, allOk: bool, ok: bool)
    requires i < |before| == |after| && before[i] == after[i] && Handed(before[i], d, data, ok)
    requires Delivered(before[..i], after[..i], data, allOk)
    ensures Delivered(before[..i + 1], after[i := d][..i + 1], data, allOk && ok)
  {
    hide Clean;
    var b, a := before[..i + 1], after[i := d][..i + 1];
    assert b[i] == before[i] && a[i] == d && (ok <==> Clean(b[i], a[i]));
    var b0, a0 := before[..i], after[..i];
    assert forall k :: 0 <= k < i ==> b[k] == b0[k] && a[k] == a0[k];
    assert allOk <==> forall k :: 0 <= k < i && b0[k].Device? ==> Clean(b0[k], a0[k]);
    assert allOk ==> forall k :: 0 <= k < i && b[k].Device? ==> Clean(b[k], a[k]);
    if !allOk {
      var k :| 0 <= k < i && b0[k].Device? && !Clean(b0[k], a0[k]);
      assert b[k].Device? && !Clean(b[k], a[k]);
    }
  }

  lemma DeliveredSkip(before: seq<Output>, after: seq<Output>, i: nat, data: seq<Byte>, allOk: bool)
    requires i < |before| == |after| && before[i] == after[i] && before[i].Unused?
    requires Delivered(before[..i], after[..i], data, allOk)
    ensures Delivered(before[..i + 1], after[..i + 1], data, allOk)
  {
    hide Later, Clean;
    var b, a := before[..i + 1], after[..i + 1];
    assert forall k :: 0 <= k < i ==> b[k] == before[..i][k] && a[k] == after[..i][k];
  }

  lemma TransferredNothing(outputs: seq<Output>)
    ensures Transferred(outputs, outputs, [], true)
  {
  }

  lemma NoOutputs(data: seq<Byte>)
    ensures Delivered([], [], data, true)
  {
  }

  lemma TransferredNone(before: seq<Output>, after: seq<Output>, data: seq<Byte>)
    ensures Transferred(before[..0], after[..0], data, true)
  {
  }

  lemma TransferredOneMore(before: seq<Output>, after: seq<Output>, i: nat, d: Output, data: seq<Byte>, allOk: bool, ok: bool)
    requires i < |before| == |after| && |data| <= WRITE_BATCH
    requires before[i] == after[i] && Handed(before[i], d, data, ok)
    requires Transferred(before[..i], after[..i], data, allOk)
    ensures Transferred(before[..i + 1], after[i := d][..i + 1], data, allOk && ok)
  {
    hide Delivered;
    DeliveredOneMore(before, after, i, d, data, allOk, ok);
    var b, a := before[..i + 1], after[i := d][..i + 1];
    assert forall k :: 0 <= k < i ==> b[k] == before[..i][k] && a[k] == after[..i][k];
  }

  lemma TransferredSkip(before: seq<Output>, after: seq<Output>, i: nat, data: seq<Byte>, allOk: bool)
    requires i < |before| == |after| && before[i] == after[i] && before[i].Unused?
    requires Transferred(before[..i], after[..i], data, allOk)
    ensures Transferred(before[..i + 1], after[..i + 1], data, allOk)
  {
    hide Delivered;
    DeliveredSkip(before, after, i, data, allOk);
    var b, a := before[..i + 1], after[..i + 1];
    assert forall k :: 0 <= k < i ==> b[k] == before[..i][k] && a[k] == after[..i][k];
  }

  /** Answers add up: no fault over both stretches is no fault in either. */
  lemma LaterStill(a: Output, b: Output, c: Output)
    requires Later(a, b) && Later(b, c)
    ensures Later(a, c) && (Clean(a, c) <==> Clean(a, b) && Clean(b, c))
  {
    var used := |a.script| - |b.script|;
    assert forall k :: 0 <= k < |b.script| ==> b.script[k] == a.script[used + k];
    if Clean(a, c) {
      forall k | 0 <= k < |b.script| - |c.script| ensures !Fault(b.script[k]) { assert !Fault(a.script[used + k]); }
    }
    if Clean(a, b) && Clean(b, c) {
      forall k | 0 <= k < |a.script| - |c.script| ensures !Fault(a.script[k]) {
        if k >= used { assert !Fault(b.script[k - used]); }
      }
    }
  }

  lemma TransferredMore(a: seq<Output>, b: seq<Output>, c: seq<Output>, d: seq<Byte>, e: seq<Byte>, okD: bool, okE: bool)
    requires Transferred(a, b, d, okD) && Transferred(b, c, e, okE)
    ensures Transferred(a, c, d + e, okD && okE)
  {
    hide Later, Clean;
    forall i | 0 <= i < |a| && a[i].Device?
      ensures Later(a[i], c[i]) && (Clean(a[i], c[i]) <==> Clean(a[i], b[i]) && Clean(b[i], c[i]))
      ensures Clean(a[i], c[i]) ==> c[i].received == a[i].received + (d + e)
    {
      assert b[i].Device?;
      LaterStill(a[i], b[i], c[i]);
      assert a[i].received + d + e == a[i].received + (d + e);
    }
  }

  /** The sink copies from its pointers without a check; NULL is never followed when the length is 0. */
  predicate CanRead(call: Call) {
    && (call.Start? ==> call.header.Data? || call.header.len == 0)
    && (call.Payload? ==> call.chunk.Data? || call.chunk.len == 0)
  }

  /** To the sink a NULL header of length 0 is an empty one. */
  function Seen(call: Call): Call {
    if call.Start? then Start(Data(Readable(call.header))) else call
  }

  function AllSeen(calls: seq<Call>): (r: seq<Call>)
    ensures |r| == |calls| && forall i :: 0 <= i < |calls| ==> r[i] == Seen(calls[i])
  {
    if calls == [] then [] else [Seen(calls[0])] + AllSeen(calls[1..])
  }

  /** Calls without a NULL header are seen as they are. */
  lemma SeenAsTheyAre(calls: seq<Call>)
    requires forall i :: 0 <= i < |calls| && calls[i].Start? ==> calls[i].header.Data?
    ensures AllSeen(calls) == calls
  {
  }

  /** The frames a text write becomes. */
  function TextFrames(text: seq<Byte>): seq<Byte>
    decreases |text|
  {
    if text == [] then []
    else
      var n := Min(|text|, MAX_PAYLOAD);
      Slip.Frame(TYPE_TEXT, text[..n]) + TextFrames(text[n..])
  }

  lemma NoText(text: seq<Byte>)
    ensures TextFrames(text[..0]) == []
  {
  }

  /** After whole frames of MAX_PAYLOAD bytes comes one with the next bytes. */
  lemma {:induction false} OneMoreFrame(text: seq<Byte>, done: nat)
    requires done < |text| && done % MAX_PAYLOAD == 0
    ensures var n := Min(|text| - done, MAX_PAYLOAD);
            TextFrames(text[..done + n]) == TextFrames(text[..done]) + Slip.Frame(TYPE_TEXT, text[done..][..n])
    decreases |text|
  {
    hide Slip.Frame;
    var n := Min(|text| - done, MAX_PAYLOAD);
    var next := text[..done + n];
    if done == 0 {
      assert text[done..][..n] == next == next[..n] && next[n..] == [];
    } else {
      var rest := text[MAX_PAYLOAD..];
      OneMoreFrame(rest, done - MAX_PAYLOAD);
      assert next[..MAX_PAYLOAD] == text[..MAX_PAYLOAD] == text[..done][..MAX_PAYLOAD];
      assert next[MAX_PAYLOAD..] == rest[..done - MAX_PAYLOAD + n];
      assert text[..done][MAX_PAYLOAD..] == rest[..done - MAX_PAYLOAD];
      assert rest[done - MAX_PAYLOAD..][..n] == text[done..][..n];
    }
  }

  function Payloads(frames: seq<Slip.DecodedFrame>): seq<Byte> {
    if frames == [] then [] else frames[0].payload + Payloads(frames[1..])
  }

  /** Text survives the trip: valid text frames only, none too long, and their payloads spell the text. */
  lemma {:induction false} TextRoundTrip(text: seq<Byte>)
    ensures var frames := Slip.Decode(TextFrames(text));
            && Payloads(frames) == text
            && |frames| == (|text| + 3071) / 3072
            && forall f :: f in frames ==> f.valid && f.typ == 2 && 0 < |f.payload| <= 3072
    decreases |text|
  {
    hide Slip.Frame;
    if text != [] {
      var n := Min(|text|, MAX_PAYLOAD);
      Slip.DecodeFrame(TYPE_TEXT, text[..n], TextFrames(text[n..]));
      TextRoundTrip(text[n..]);
      var rest := Slip.Decode(TextFrames(text[n..]));
      assert ([Slip.DecodedFrame(TYPE_TEXT, text[..n], true)] + rest)[1..] == rest;
      assert text == text[..n] + text[n..];
    }
  }

  class EspTransport {
    var outputs: array<Output>
    var owner: Option<nat>       // the task holding the transport, if any
    // the sink in front of the transport
    var data: array<Byte>
    var len: nat
    var overflow: bool

    constructor ()
      ensures Valid() && owner == None && fresh(outputs) && fresh(data) && outputs.Length == 3
      ensures forall i :: 0 <= i < outputs.Length ==> outputs[i].Unused?
    {
      outputs := new Output[MAX_OUTPUTS](i => Unused);
      owner := None;
      data := new Byte[MAX_PAYLOAD](i => 0);
      len := 0;
      overflow := false;
    }

    ghost predicate Valid()
      reads this
    {
      && outputs.Length == MAX_OUTPUTS && data.Length == MAX_PAYLOAD && len <= MAX_PAYLOAD
      && outputs as object != data
    }

    ghost predicate Separate(w: FrameWriter)
      reads this, w
    {
      w.Valid() && w.bytes != data && w.bytes as object != outputs
    }

    /** What the writer has flushed since base is what every device was handed, in as many writes. */
    ghost predicate Progress(w: FrameWriter, base: seq<Output>)
      reads this, outputs, w
    {
      Transferred(base, outputs[..], w.flushed, w.ok) && Counted(base, outputs[..], w.flushes)
    }

    ghost function Collected(): Pending
      requires Valid()
      reads this, data
    {
      if overflow then None else Some(data[..len])
    }

    // ---- Batched frame writer ----

    method Flush(w: FrameWriter, ghost base: seq<Output>)
      requires Valid() && Separate(w)
      requires Progress(w, base) && w.Whole()
      modifies outputs, w`len, w`ok, w`flushed, w`flushes
      ensures w.Valid() && w.len == 0 && w.Total() == old(w.Total())
      ensures Progress(w, base) && w.flushes == old(w.flushes) + (if old(w.len) == 0 then 0 else 1)
      ensures |w.flushed| == old(|w.flushed| + w.len)
    {
      hide Max, Handed, Transferred, Counted, CountedAt;
      TransferredNone(outputs[..], outputs[..], w.bytes[..w.len]);
      ghost var before := outputs[..];
      CountedNothing(before);
      ghost var okBefore := w.ok;
      ghost var batch := w.bytes[..w.len];
      if w.len != 0 {
        var allOk := true;
        for i := 0 to outputs.Length
          invariant Transferred(before[..i], outputs[..i], batch, allOk)
          invariant Counted(before[..i], outputs[..i], 1)
          invariant forall k :: i <= k < outputs.Length ==> outputs[k] == before[k]
          invariant w.Valid() && w.len == |batch| && w.bytes[..w.len] == batch
          invariant w.flushed == old(w.flushed) && w.flushes == old(w.flushes)
          invariant w.ok == (okBefore && allOk)
        {
          if outputs[i].Device? {
            var d, ok := WriteAll(outputs[i], w.bytes[..w.len]);
            TransferredOneMore(before, outputs[..], i, d, batch, allOk, ok);
            HandedIsCounted(before[i], d, batch, ok);
            CountedOneMore(before, outputs[..], i, d, 1);
            outputs[i] := d;
            if !ok {
              w.ok := false;
              allOk := false;
            }
          } else {
            TransferredSkip(before, outputs[..], i, batch, allOk);
            UnusedIsCounted(before[i], 1);
            CountedOneMore(before, outputs[..], i, before[i], 1);
            assert outputs[..][i := before[i]] == outputs[..];
          }
          assert outputs[..i + 1] == outputs[..][..i + 1];
        }
        w.len := 0;
        w.flushed := w.flushed + batch;
        w.flushes := w.flushes + 1;
        assert before[..MAX_OUTPUTS] == before && outputs[..MAX_OUTPUTS] == outputs[..];
        CountedMore(base, before, outputs[..], old(w.flushes), 1);
        TransferredMore(base, before, outputs[..], old(w.flushed), batch, okBefore, allOk);
      }
    }

    method PutRaw(w: FrameWriter, input: seq<Byte>, ghost base: seq<Output>)
      requires Valid() && Separate(w)
      requires Progress(w, base) && w.Whole()
      modifies outputs, w`len, w`ok, w`flushed, w`flushes, w.bytes
      ensures w.Valid() && w.Total() == old(w.Total()) + input
      ensures Progress(w, base) && w.Whole()
    {
      hide Transferred, Counted, FrameWriter.Total;
      var rest := input;
      assert w.Total() + rest == old(w.Total()) + input;
      while rest != []
        invariant w.Valid() && w.bytes == old(w.bytes)
        invariant w.Total() + rest == old(w.Total()) + input
        invariant Progress(w, base) && w.Whole()
        decreases |rest|
      {
        if w.len == WRITE_BATCH {
          Flush(w, base);
        }
        var chunk := Min(|rest|, WRITE_BATCH - w.len);
        ghost var total := w.Total();
        w.Store(rest[..chunk]);
        assert total + rest[..chunk] + rest[chunk..] == total + rest;
        rest := rest[chunk..];
      }
    }

    method PutSlipByte(w: FrameWriter, b: Byte, ghost base: seq<Output>)
      requires Valid() && Separate(w)
      requires Progress(w, base) && w.Whole()
      modifies outputs, w`len, w`ok, w`flushed, w`flushes, w.bytes
      ensures w.Valid() && w.Total() == old(w.Total()) + Slip.Escape(b)
      ensures Progress(w, base) && w.Whole()
    {
      hide Transferred, Counted;
      if b == Slip.START {
        PutRaw(w, [Slip.ESC, Slip.ESC_START], base);
      } else if b == Slip.END {
        PutRaw(w, [Slip.ESC, Slip.ESC_END], base);
      } else if b == Slip.ESC {
        PutRaw(w, [Slip.ESC, Slip.ESC_ESC], base);
      } else if b == Slip.CR {
        PutRaw(w, [Slip.ESC, Slip.ESC_CR], base);
      } else if b == Slip.LF {
        PutRaw(w, [Slip.ESC, Slip.ESC_LF], base);
      } else {
        PutRaw(w, [b], base);
      }
    }

    method PutSlip(w: FrameWriter, input: seq<Byte>, ghost base: seq<Output>)
      requires Valid() && Separate(w)
      requires Progress(w, base) && w.Whole()
      modifies outputs, w`len, w`ok, w`flushed, w`flushes, w.bytes
      ensures w.Valid() && w.Total() == old(w.Total()) + Slip.EscapeAll(input)
      ensures Progress(w, base) && w.Whole()
    {
      hide Transferred, Counted, Slip.Escape;
      for i := 0 to |input|
        invariant w.Valid() && w.bytes == old(w.bytes)
        invariant w.Total() == old(w.Total()) + Slip.EscapeAll(input[..i])
        invariant Progress(w, base) && w.Whole()
      {
        PutSlipByte(w, input[i], base);
        Slip.EscapeLast(input, i);
      }
      assert input[..|input|] == input;
    }

    /** Marker, type and payload. */
    method PutBody(w: FrameWriter, typ: Byte, payload: seq<Byte>, ghost base: seq<Output>)
      requires Valid() && Separate(w) && w.Total() == []
      requires Progress(w, base) && w.Whole()
      modifies outputs, w`len, w`ok, w`flushed, w`flushes, w.bytes
      ensures w.Valid() && w.Total() == [Slip.START] + Slip.Escape(typ) + Slip.EscapeAll(payload)
      ensures Progress(w, base) && w.Whole()
    {
      hide Transferred, Counted, Slip.Escape, Slip.EscapeAll, FrameWriter.Total;
      PutRaw(w, [Slip.START], base);
      PutSlipByte(w, typ, base);
      PutSlip(w, payload, base);
    }

    /** The frame, piece by piece, into the writer. */
    method PutFrame(w: FrameWriter, typ: Byte, payload: seq<Byte>, crc: bv16, ghost base: seq<Output>)
      requires Valid() && Separate(w) && w.Total() == []
      requires crc == Crc16.Crc(Crc16.INIT, [typ] + payload)
      requires Progress(w, base) && w.Whole()
      modifies outputs, w`len, w`ok, w`flushed, w`flushes, w.bytes
      ensures w.Valid() && w.Total() == Slip.Frame(typ, payload)
      ensures Progress(w, base) && w.Whole()
    {
      hide Transferred, Counted, Slip.Escape, Slip.EscapeAll, Slip.Frame, Crc16.Crc, FrameWriter.Total;
      PutBody(w, typ, payload, base);
      Slip.EscapeOne(typ);
      PutSlipByte(w, Crc16.LowByte(crc), base);
      PutSlipByte(w, Crc16.HighByte(crc), base);
      PutRaw(w, [Slip.END], base);
      Slip.FrameInPieces(typ, payload, crc);
    }

    /** One frame to every open output, all or as much as the devices take, while a task owns the transport. */
    method EmitFrame(typ: Byte, payload: seq<Byte>) returns (ok: bool)
      requires Valid() && owner.Some?
      modifies outputs
      ensures Transferred(old(outputs[..]), outputs[..], Slip.Frame(typ, payload), ok)
      ensures Counted(old(outputs[..]), outputs[..], (|Slip.Frame(typ, payload)| + 127) / 128)
    {
      hide Transferred, Counted, Slip.Frame, Crc16.Crc;
      var crc := Crc16.EspUpdate(Crc16.INIT, [typ]);
      crc := Crc16.EspUpdate(crc, payload);
      Crc16.CrcAppend(Crc16.INIT, [typ], payload);
      var w := new FrameWriter();
      TransferredNothing(outputs[..]);
      CountedNothing(outputs[..]);
      PutFrame(w, typ, payload, crc, old(outputs[..]));
      Flush(w, old(outputs[..]));
      assert w.flushed == w.Total();
      ok := w.ok;
    }

    /**
     * Called by a task while no other task holds the transport (the lock waits for that).
     * A task already inside the transport is refused, so frames never nest.
     */
    method WriteFrame(self: nat, typ: Byte, payload: Buffer) returns (status: EspStatus)
      requires Valid() && owner in {None, Some(self)}
      modifies outputs, this`owner
      ensures owner == old(owner)
      ensures status == ESP_ERR_INVALID_ARG <==> payload.Null? && payload.len != 0
      ensures status == ESP_ERR_INVALID_SIZE <==> payload.Data? && |payload.bytes| > 3072
      ensures status in {ESP_ERR_INVALID_ARG, ESP_ERR_INVALID_SIZE} || old(owner) == Some(self) ==> outputs[..] == old(outputs[..])
      ensures status != ESP_ERR_INVALID_STATE
      ensures old(owner) == Some(self) ==> status != ESP_OK
      ensures status in {ESP_OK, ESP_FAIL} && old(owner) == None ==>
                Transferred(old(outputs[..]), outputs[..], Slip.Frame(typ, Readable(payload)), status == ESP_OK)
    {
      if payload.Null? && payload.len != 0 {
        return ESP_ERR_INVALID_ARG;
      }
      if payload.Data? && |payload.bytes| > MAX_PAYLOAD {
        return ESP_ERR_INVALID_SIZE;
      }
      if owner == Some(self) {
        return ESP_FAIL;
      }
      owner := Some(self);
      var ok := EmitFrame(typ, Readable(payload));
      owner := None;
      status := if ok then ESP_OK else ESP_FAIL;
    }

    // ---- Raw streams ----

    method RawStreamBegin(self: nat) returns (status: EspStatus)
      requires owner in {None, Some(self)}
      modifies this`owner
      ensures owner == Some(self)
      ensures status == if old(owner) == None then ESP_OK else ESP_FAIL
    {
      if owner == Some(self) {
        return ESP_FAIL;
      }
      owner := Some(self);
      status := ESP_OK;
    }

    /** Unframed bytes to every device, by the task that holds the transport. */
    method RawStreamWrite(self: nat, bytes: Buffer) returns (status: EspStatus)
      requires Valid()
      modifies outputs
      ensures status == ESP_ERR_INVALID_ARG <==> bytes.Null? && bytes.len != 0
      ensures status == ESP_ERR_INVALID_STATE <==> !(bytes.Null? && bytes.len != 0) && owner != Some(self)
      ensures status in {ESP_ERR_INVALID_ARG, ESP_ERR_INVALID_STATE} ==> outputs[..] == old(outputs[..])
      ensures status in {ESP_OK, ESP_FAIL} ==> Delivered(old(outputs[..]), outputs[..], Readable(bytes), status == ESP_OK)
      ensures status in {ESP_ERR_INVALID_ARG, ESP_ERR_INVALID_STATE, ESP_OK, ESP_FAIL}
    {
      if bytes.Null? && bytes.len != 0 {
        return ESP_ERR_INVALID_ARG;
      }
      if owner != Some(self) {
        return ESP_ERR_INVALID_STATE;
      }
      hide Handed, Delivered;
      status := ESP_OK;
      ghost var before := outputs[..];
      assert Delivered(before[..0], outputs[..0], Readable(bytes), true) by { NoOutputs(Readable(bytes)); }
      for i := 0 to outputs.Length
        invariant status in {ESP_OK, ESP_FAIL}
        invariant forall k :: i <= k < outputs.Length ==> outputs[k] == before[k]
        invariant Delivered(before[..i], outputs[..i], Readable(bytes), status == ESP_OK)
      {
        if outputs[i].Device? {
          var d, ok := WriteAll(outputs[i], Readable(bytes));
          DeliveredOneMore(before, outputs[..], i, d, Readable(bytes), status == ESP_OK, ok);
          outputs[i] := d;
          if !ok {
            status := ESP_FAIL;
          }
        } else {
          DeliveredSkip(before, outputs[..], i, Readable(bytes), status == ESP_OK);
        }
        assert outputs[..i + 1] == outputs[..][..i + 1];
      }
      assert outputs[..outputs.Length] == outputs[..] && before[..outputs.Length] == before;
    }

    method RawStreamEnd(self: nat) returns (status: EspStatus)
      modifies this`owner
      ensures old(owner) == Some(self) ==> status == ESP_OK && owner == None
      ensures old(owner) != Some(self) ==> status == ESP_ERR_INVALID_STATE && owner == old(owner)
    {
      if owner != Some(self) {
        return ESP_ERR_INVALID_STATE;
      }
      owner := None;
      status := ESP_OK;
    }

    // ---- Text written through the VFS ----

    /**
     * Text becomes frames of at most MAX_PAYLOAD bytes; the first failure stops the rest. The frames of the first done
     * bytes were transferred, mid is what the outputs were then, and a failure is that of the next frame.
     */
    method WriteText(self: nat, text: seq<Byte>) returns (ok: bool, ghost done: nat, ghost mid: seq<Output>)
      requires Valid() && owner in {None, Some(self)}
      modifies outputs, this`owner
      ensures owner == old(owner) && done <= |text| && (ok ==> done == |text| && outputs[..] == mid)
      ensures old(owner) == None ==> Transferred(old(outputs[..]), mid, TextFrames(text[..done]), true)
      ensures old(owner) == None && !ok ==>
                && done < |text| && done % MAX_PAYLOAD == 0
                && Transferred(mid, outputs[..], Slip.Frame(TYPE_TEXT, text[done..][..Min(|text| - done, MAX_PAYLOAD)]), false)
      ensures old(owner) != None && text != [] ==> !ok && outputs[..] == old(outputs[..])
    {
      hide Transferred, Slip.Frame, TextFrames;
      var rest := text;
      done, mid := 0, outputs[..];
      TransferredNothing(outputs[..]);
      NoText(text);
      while rest != []
        invariant owner == old(owner) && done <= |text| && rest == text[done..] && mid == outputs[..]
        invariant rest != [] ==> done % MAX_PAYLOAD == 0
        invariant owner == None ==> Transferred(old(outputs[..]), mid, TextFrames(text[..done]), true)
        invariant owner != None ==> outputs[..] == old(outputs[..]) && done == 0
        decreases |rest|
      {
        var chunk := Min(|rest|, MAX_PAYLOAD);
        var status := WriteFrame(self, TYPE_TEXT, Data(rest[..chunk]));
        if status != ESP_OK {
          return false, done, mid;
        }
        TransferredMore(old(outputs[..]), mid, outputs[..], TextFrames(text[..done]),
                        Slip.Frame(TYPE_TEXT, rest[..chunk]), true, true);
        OneMoreFrame(text, done);
        rest := rest[chunk..];
        done, mid := done + chunk, outputs[..];
      }
      ok := true;
    }

    // ---- The accumulating sink ----

    /** A NULL pointer is never followed when its length is 0. */
    method Append(buffer: Buffer)
      requires Valid() && (buffer.Data? || buffer.len == 0)
      modifies this`len, this`overflow, data
      ensures Valid() && Collected() == Take(old(Collected()), buffer)
    {
      if overflow {
        return;
      }
      var bytes := Readable(buffer);
      if |bytes| > MAX_PAYLOAD - len {
        overflow := true;
        return;
      }
      ghost var start := len;
      for i := 0 to |bytes|
        invariant !overflow && len == start + i && start + |bytes| <= MAX_PAYLOAD
        invariant data[..start] == old(data[..len])
        invariant data[start..len] == bytes[..i]
      {
        data[len] := bytes[i];
        len := len + 1;
      }
      assert data[start..len] == bytes;
      assert data[..len] == data[..start] + data[start..len];
    }

    method OnStart(header: Buffer)
      requires Valid() && (header.Data? || header.len == 0)
      modifies this`len, this`overflow, data
      ensures Valid() && Collected() == Begin(Data(Readable(header)))
    {
      overflow := false;
      len := 0;
      assert data[..len] == [] && [] + Readable(header) == Readable(header);
      Append(header);
    }

    method OnPayload(chunk: Buffer)
      requires Valid() && (chunk.Data? || chunk.len == 0)
      modifies this`len, this`overflow, data
      ensures Valid() && Collected() == Take(old(Collected()), chunk)
    {
      Append(chunk);
    }

    method OnEnd(self: nat) returns (ghost ok: bool)
      requires Valid() && owner == None
      modifies outputs, this`owner
      ensures Valid() && owner == None && Collected() == old(Collected())
      ensures Transferred(old(outputs[..]), outputs[..], Finish(Collected()), ok)
    {
      TransferredNothing(outputs[..]);
      ok := true;
      if !overflow {
        var status := WriteFrame(self, TYPE_BINARY, Data(data[..len]));
        ok := status == ESP_OK;
      }
    }

    /** A whole run of callbacks whose pointers can be read. */
    method Run(self: nat, calls: seq<Call>) returns (ghost ok: bool)
      requires Valid() && owner == None
      requires forall i :: 0 <= i < |calls| ==> CanRead(calls[i])
      modifies this`len, this`overflow, this`owner, data, outputs
      ensures Valid() && owner == None
      ensures Transferred(old(outputs[..]), outputs[..], Emitted(old(Collected()), AllSeen(calls)), ok)
    {
      hide After, Sinks.Output, Emitted, Transferred, Seen, AllSeen;
      ghost var seen := AllSeen(calls);
      assert seen[0..] == seen;
      ok := true;
      ghost var sent: seq<Byte> := [];
      TransferredNothing(outputs[..]);
      for i := 0 to |calls|
        invariant Valid() && owner == None
        invariant sent + Emitted(Collected(), seen[i..]) == Emitted(old(Collected()), seen)
        invariant Transferred(old(outputs[..]), outputs[..], sent, ok)
      {
        EmittedStep(Collected(), seen, i);
        ghost var mid, out := outputs[..], Sinks.Output(Collected(), seen[i]);
        ghost var okNow := Step(self, calls[i]);
        TransferredMore(old(outputs[..]), mid, outputs[..], sent, out, ok, okNow);
        sent := sent + out;
        ok := ok && okNow;
      }
      NoCalls(Collected());
      assert seen[|seen|..] == [] && sent + [] == sent;
    }

    /** Dispatch of one callback. */
    method Step(self: nat, call: Call) returns (ghost ok: bool)
      requires Valid() && owner == None && CanRead(call)
      modifies this`len, this`overflow, this`owner, data, outputs
      ensures Valid() && owner == None
      ensures Collected() == After(old(Collected()), Seen(call))
      ensures Transferred(old(outputs[..]), outputs[..], Sinks.Output(old(Collected()), Seen(call)), ok)
    {
      hide Take, Begin, Finish, Transferred;
      TransferredNothing(outputs[..]);
      ok := true;
      match call {
        case Start(h) => OnStart(h);
        case Payload(c) => OnPayload(c);
        case End => ok := OnEnd(self);
      }
    }
  }
}
