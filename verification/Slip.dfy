/**
 * The framed transport on the wire: start byte, escaped type + payload + CRC, end byte.
 * Extends SLIP (RFC 1055, section "PROTOCOL") with a start byte and CR/LF escapes.
 */
module Slip {
  import opened Bytes
  import Crc16

  const START: Byte := 0xa5
  const END: Byte := 0xc0
  const ESC: Byte := 0xdb
  const ESC_END: Byte := 0xdc
  const ESC_ESC: Byte := 0xdd
  const ESC_START: Byte := 0xde
  const ESC_CR: Byte := 0xd0
  const ESC_LF: Byte := 0xd1
  const CR: Byte := 0x0d
  const LF: Byte := 0x0a

  // ---- Encoding ----

  predicate Reserved(b: Byte) {
    b == START || b == END || b == ESC || b == CR || b == LF
  }

  function EscapeCode(b: Byte): Byte {
    if b == START then ESC_START
    else if b == END then ESC_END
    else if b == ESC then ESC_ESC
    else if b == CR then ESC_CR
    else ESC_LF
  }

  function Escape(b: Byte): (r: seq<Byte>) {
    if Reserved(b) then [ESC, EscapeCode(b)] else [b]
  }

  function EscapeAll(data: seq<Byte>): seq<Byte> {
    if data == [] then [] else Escape(data[0]) + EscapeAll(data[1..])
  }

  /** The bytes between the markers, before escaping. */
  function Sealed(content: seq<Byte>): seq<Byte> {
    content + Crc16.Trailer(Crc16.Crc(Crc16.INIT, content))
  }

  function Enclose(body: seq<Byte>): seq<Byte> {
    [START] + EscapeAll(body) + [END]
  }

  function Frame(typ: Byte, payload: seq<Byte>): seq<Byte> {
    Enclose(Sealed([typ] + payload))
  }

  lemma {:induction false} EscapeAllAppend(a: seq<Byte>, b: seq<Byte>)
    ensures EscapeAll(a + b) == EscapeAll(a) + EscapeAll(b)
  {
    if a == [] {
      assert a + b == b;
    } else {
      assert (a + b)[1..] == a[1..] + b;
      EscapeAllAppend(a[1..], b);
    }
  }

  lemma EscapeLast(data: seq<Byte>, i: nat)
    requires i < |data|
    ensures EscapeAll(data[..i + 1]) == EscapeAll(data[..i]) + Escape(data[i])
  {
    assert data[..i + 1] == data[..i] + [data[i]];
    EscapeAllAppend(data[..i], [data[i]]);
    assert [data[i]][1..] == [];
  }

  /** Writing the marker, the pieces and the trailer one after the other writes the frame. */
  lemma FrameInPieces(typ: Byte, packet: seq<Byte>, crc: bv16)
    requires crc == Crc16.Crc(Crc16.INIT, [typ] + packet)
    ensures [START] + EscapeAll([typ]) + EscapeAll(packet) + Escape(Crc16.LowByte(crc))
            + Escape(Crc16.HighByte(crc)) + [END]
            == Frame(typ, packet)
  {
    hide Crc16.Crc, Escape;
    var lo, hi := Crc16.LowByte(crc), Crc16.HighByte(crc);
    EscapeAllAppend([typ], packet);
    EscapeAllAppend([typ] + packet, [lo, hi]);
    EscapePair(lo, hi);
  }

  lemma EscapeOne(b: Byte)
    ensures EscapeAll([b]) == Escape(b)
  {
    hide Escape;
    assert [b][1..] == [];
    assert EscapeAll([b]) == Escape(b) + EscapeAll([]);
  }

  lemma EscapePair(lo: Byte, hi: Byte)
    ensures EscapeAll([lo, hi]) == Escape(lo) + Escape(hi)
  {
    hide Escape;
    assert [lo, hi][1..] == [hi];
    assert [hi][1..] == [];
    assert EscapeAll([hi]) == Escape(hi) + EscapeAll([]);
  }

  /** Nothing between the markers looks like a marker or a line break. */
  lemma {:induction false} EscapedIsClean(data: seq<Byte>)
    ensures START !in EscapeAll(data) && END !in EscapeAll(data) && CR !in EscapeAll(data) && LF !in EscapeAll(data)
  {
    if data != [] {
      EscapedIsClean(data[1..]);
    }
  }

  // ---- The reference decoder ----

  datatype DecodedFrame = DecodedFrame(typ: Byte, payload: seq<Byte>, valid: bool)

  /** What one frame's scan collected, and the stream after it. */
  datatype Scan = Scan(body: seq<Byte>, clean: bool, ended: bool, rest: seq<Byte>)

  function Unescaped(code: Byte): Option<Byte> {
    if code == ESC_START then Some(START)
    else if code == ESC_END then Some(END)
    else if code == ESC_ESC then Some(ESC)
    else if code == ESC_CR then Some(CR)
    else if code == ESC_LF then Some(LF)
    else None
  }

  function ScanBody(s: seq<Byte>, body: seq<Byte>, clean: bool): (r: Scan)
    ensures |r.rest| <= |s|
  {
    if s == [] then Scan(body, clean, false, [])
    else if s[0] == END then Scan(body, clean, true, s[1..])
    else if s[0] == ESC && |s| > 1 then
      match Unescaped(s[1])
      case Some(b) => ScanBody(s[2..], body + [b], clean)
      case None => ScanBody(s[2..], body, false)
    else ScanBody(s[1..], body + [s[0]], clean && !Reserved(s[0]))
  }

  const INVALID := DecodedFrame(0, [], false)

  function Opened(scan: Scan): DecodedFrame {
    var n := |scan.body|;
    if scan.ended && n >= 3 then
      var content := scan.body[..n - 2];
      DecodedFrame(content[0], content[1..],
        scan.clean && Crc16.FromTrailer(scan.body[n - 2], scan.body[n - 1]) == Crc16.Crc(Crc16.INIT, content))
    else INVALID
  }

  /** Every frame found in a stream; bytes between frames are skipped. */
  function Decode(s: seq<Byte>): seq<DecodedFrame>
    decreases |s|
  {
    if s == [] then []
    else if s[0] != START then Decode(s[1..])
    else
      var scan := ScanBody(s[1..], [], true);
      [Opened(scan)] + Decode(scan.rest)
  }

  /** The decoder's inner loop: unescape from index start up to the end byte. */
  method ScanFrame(stream: seq<Byte>, start: nat) returns (scan: Scan, next: nat)
    requires start <= |stream|
    ensures start <= next <= |stream|
    ensures scan == ScanBody(stream[start..], [], true) && scan.rest == stream[next..]
  {
    var i := start;
    var body, clean, ended := [], true, false;
    ghost var want := ScanBody(stream[start..], [], true);
    while i < |stream| && !ended
      invariant start <= i <= |stream|
      invariant (if ended then Scan(body, clean, true, stream[i..]) else ScanBody(stream[i..], body, clean)) == want
      decreases |stream| - i, !ended
    {
      var b := stream[i];
      i := i + 1;
      assert stream[i - 1..][1..] == stream[i..];
      if b == END {
        ended := true;
      } else if b == ESC && i < |stream| {
        assert stream[i - 1..][2..] == stream[i + 1..];
        var code := Unescaped(stream[i]);
        i := i + 1;
        if code.Some? {
          body := body + [code.value];
        } else {
          clean := false;
        }
      } else {
        clean := clean && b != START && b != LF && b != CR && b != ESC;
        body := body + [b];
      }
    }
    return Scan(body, clean, ended, stream[i..]), i;
  }

  /** The decoder's verdict on one scanned frame. */
  method OpenFrame(scan: Scan) returns (f: DecodedFrame)
    ensures f == Opened(scan)
  {
    f := INVALID;
    var n := |scan.body|;
    if scan.ended && n >= 3 {
      var crc := Crc16.FromTrailer(scan.body[n - 2], scan.body[n - 1]);
      var content := scan.body[..n - 2];
      var computed := Crc16.ReferenceCrc(content);
      f := DecodedFrame(content[0], content[1..], scan.clean && crc == computed);
    }
  }

  method DecodeFrames(stream: seq<Byte>) returns (frames: seq<DecodedFrame>)
    ensures frames == Decode(stream)
  {
    hide Opened, ScanBody;
    frames := [];
    var i := 0;
    while i < |stream|
      invariant 0 <= i <= |stream|
      invariant frames + Decode(stream[i..]) == Decode(stream)
    {
      assert stream[i..][1..] == stream[i + 1..];
      if stream[i] != START {
        i := i + 1;
        continue;
      }
      var scan, next := ScanFrame(stream, i + 1);
      var f := OpenFrame(scan);
      frames := frames + [f];
      i := next;
    }
  }

  // ---- Round trip ----

  lemma EscapeIsUndone(b: Byte, tail: seq<Byte>, body: seq<Byte>)
    ensures ScanBody(Escape(b) + tail, body, true) == ScanBody(tail, body + [b], true)
  {
    assert (Escape(b) + tail)[|Escape(b)|..] == tail;
  }

  lemma {:induction false} ScanUndoesEscapes(data: seq<Byte>, rest: seq<Byte>, body: seq<Byte>)
    ensures ScanBody(EscapeAll(data) + [END] + rest, body, true) == Scan(body + data, true, true, rest)
  {
    if data == [] {
      assert EscapeAll(data) + [END] + rest == [END] + rest;
      assert body + data == body;
    } else {
      var tail := EscapeAll(data[1..]) + [END] + rest;
      assert EscapeAll(data) + [END] + rest == Escape(data[0]) + tail;
      EscapeIsUndone(data[0], tail, body);
      ScanUndoesEscapes(data[1..], rest, body + [data[0]]);
      assert body + [data[0]] + data[1..] == body + data;
    }
  }

  /** What the decoder reports for any enclosed body: the content, and whether its last two bytes are the content's CRC. */
  lemma DecodeEnclosed(content: seq<Byte>, lo: Byte, hi: Byte, rest: seq<Byte>)
    requires content != []
    ensures Decode(Enclose(content + [lo, hi]) + rest)
            == [DecodedFrame(content[0], content[1..], Crc16.FromTrailer(lo, hi) == Crc16.Crc(Crc16.INIT, content))]
               + Decode(rest)
  {
    hide Crc16.Crc, Crc16.FromTrailer;
    var body := content + [lo, hi];
    var s := Enclose(body) + rest;
    assert s[1..] == EscapeAll(body) + [END] + rest;
    ScanUndoesEscapes(body, rest, []);
    assert [] + body == body;
    assert body[..|body| - 2] == content;
  }

  /** A frame decodes to exactly its type and payload, and the decoder carries on right after it. */
  lemma DecodeFrame(typ: Byte, payload: seq<Byte>, rest: seq<Byte>)
    ensures Decode(Frame(typ, payload) + rest) == [DecodedFrame(typ, payload, true)] + Decode(rest)
  {
    hide Crc16.Crc, Crc16.FromTrailer;
    var content := [typ] + payload;
    var crc := Crc16.Crc(Crc16.INIT, content);
    DecodeEnclosed(content, Crc16.LowByte(crc), Crc16.HighByte(crc), rest);
    Crc16.TrailerRoundTrip(crc);
    assert content[1..] == payload;
  }

  lemma {:induction false} DecodeSkipsText(text: seq<Byte>, rest: seq<Byte>)
    requires START !in text
    ensures Decode(text + rest) == Decode(rest)
  {
    if text == [] {
      assert text + rest == rest;
    } else {
      assert (text + rest)[1..] == text[1..] + rest;
      DecodeSkipsText(text[1..], rest);
    }
  }

  /** A line carries frames with plain text between them. */
  datatype Item = Text(bytes: seq<Byte>) | Framed(typ: Byte, payload: seq<Byte>)

  function Line(items: seq<Item>): seq<Byte> {
    if items == [] then []
    else (match items[0] case Text(t) => t case Framed(typ, payload) => Frame(typ, payload)) + Line(items[1..])
  }

  function FramesOf(items: seq<Item>): seq<DecodedFrame> {
    if items == [] then []
    else (match items[0] case Text(_) => [] case Framed(typ, payload) => [DecodedFrame(typ, payload, true)])
         + FramesOf(items[1..])
  }

  /** The decoder returns exactly the frames sent, in order and all valid, whatever text lies between them. */
  lemma {:induction false} DecodeLine(items: seq<Item>)
    requires forall i :: 0 <= i < |items| && items[i].Text? ==> START !in items[i].bytes
    ensures Decode(Line(items)) == FramesOf(items)
  {
    if items != [] {
      var rest := Line(items[1..]);
      DecodeLine(items[1..]);
      match items[0]
      case Text(t) => DecodeSkipsText(t, rest);
      case Framed(typ, payload) => DecodeFrame(typ, payload, rest);
    }
  }

  // ---- The converse: only genuine frames are accepted ----

  lemma {:induction false} UncleanStaysUnclean(s: seq<Byte>, body: seq<Byte>)
    ensures !ScanBody(s, body, false).clean
    decreases |s|
  {
    if s == [] || s[0] == END {
    } else if s[0] == ESC && |s| > 1 {
      var body' := if Unescaped(s[1]).Some? then body + [Unescaped(s[1]).value] else body;
      UncleanStaysUnclean(s[2..], body');
    } else {
      UncleanStaysUnclean(s[1..], body + [s[0]]);
    }
  }

  /** A clean scan that reaches the end byte read exactly the escaped form of what it collected. */
  lemma {:induction false} CleanScanIsEscaped(s: seq<Byte>, body: seq<Byte>)
    requires ScanBody(s, body, true).clean && ScanBody(s, body, true).ended
    ensures var r := ScanBody(s, body, true);
            body <= r.body && s == EscapeAll(r.body[|body|..]) + [END] + r.rest
    decreases |s|
  {
    var r := ScanBody(s, body, true);
    if s[0] == END {
      assert r.body[|body|..] == [];
    } else {
      var n := if s[0] == ESC && |s| > 1 then 2 else 1;
      var b := if n == 2 && Unescaped(s[1]).Some? then Unescaped(s[1]).value else s[0];
      CleanStep(s, body, n, b);
      CleanScanIsEscaped(s[n..], body + [b]);
      assert r.body[|body|..][1..] == r.body[|body| + 1..];
      assert s == s[..n] + s[n..];
    }
  }

  lemma CleanStep(s: seq<Byte>, body: seq<Byte>, n: nat, b: Byte)
    requires s != [] && s[0] != END && n == (if s[0] == ESC && |s| > 1 then 2 else 1)
    requires b == if n == 2 && Unescaped(s[1]).Some? then Unescaped(s[1]).value else s[0]
    requires ScanBody(s, body, true).clean
    ensures ScanBody(s, body, true) == ScanBody(s[n..], body + [b], true)
    ensures s[..n] == Escape(b)
  {
    if n == 2 {
      if Unescaped(s[1]).None? {
        UncleanStaysUnclean(s[2..], body);
      }
    } else if Reserved(s[0]) {
      UncleanStaysUnclean(s[1..], body + [s[0]]);
    }
  }

  /** A frame reported valid is byte for byte the frame the encoder writes for that type and payload. */
  lemma ValidFrameIsGenuine(s: seq<Byte>)
    requires s != [] && s[0] == START
    requires Opened(ScanBody(s[1..], [], true)).valid
    ensures var scan := ScanBody(s[1..], [], true);
            var f := Opened(scan);
            s == Frame(f.typ, f.payload) + scan.rest && Decode(s) == [f] + Decode(scan.rest)
  {
    hide Crc16.Crc, Crc16.FromTrailer, Crc16.LowByte, Crc16.HighByte, EscapeAll, ScanBody;
    var scan := ScanBody(s[1..], [], true);
    CleanScanIsEscaped(s[1..], []);
    var n := |scan.body|;
    var lo, hi := scan.body[n - 2], scan.body[n - 1];
    Crc16.TrailerIsUnique(lo, hi);
    var content := scan.body[..n - 2];
    assert [content[0]] + content[1..] == content;
    assert content + [lo, hi] == scan.body == scan.body[0..];
    assert s == [s[0]] + s[1..];
  }

  /** Damage within one byte, or two adjacent bytes, of the unescaped content is always rejected. */
  lemma DamageIsRejected(before: seq<Byte>, sent: seq<Byte>, got: seq<Byte>, after: seq<Byte>, rest: seq<Byte>)
    requires 1 <= |sent| == |got| <= 2 && sent != got
    ensures var crc := Crc16.Crc(Crc16.INIT, before + sent + after);
            var damaged := before + got + after;
            Decode(Enclose(damaged + Crc16.Trailer(crc)) + rest)
            == [DecodedFrame(damaged[0], damaged[1..], false)] + Decode(rest)
  {
    hide Crc16.Crc, Crc16.FromTrailer;
    var crc := Crc16.Crc(Crc16.INIT, before + sent + after);
    DecodeEnclosed(before + got + after, Crc16.LowByte(crc), Crc16.HighByte(crc), rest);
    Crc16.TrailerRoundTrip(crc);
    DamageChangesCrc(before, sent, got, after);
  }

  lemma DamageChangesCrc(before: seq<Byte>, sent: seq<Byte>, got: seq<Byte>, after: seq<Byte>)
    requires 1 <= |sent| == |got| <= 2 && sent != got
    ensures Crc16.Crc(Crc16.INIT, before + sent + after) != Crc16.Crc(Crc16.INIT, before + got + after)
  {
    hide Crc16.Crc;
    if |sent| == 1 {
      assert sent == [sent[0]] && got == [got[0]];
      Crc16.OneByteDamageDetected(Crc16.INIT, before, sent[0], got[0], after);
    } else {
      assert sent == [sent[0], sent[1]] && got == [got[0], got[1]];
      Crc16.TwoByteDamageDetected(Crc16.INIT, before, sent[0], sent[1], got[0], got[1], after);
    }
  }
}
