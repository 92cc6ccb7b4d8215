/**
 * The callback interface between the logger and its transports, and what a
 * packet-collecting transport puts on the wire for a sequence of callbacks.
 */
module Sinks {
  import opened Bytes
  import Slip

  const MAX_PAYLOAD: nat := 3072
  const TYPE_BINARY: Byte := 0x01
  const TYPE_TEXT: Byte := 0x02

  /** A pointer and a length: NULL, or bytes that can be read. */
  datatype Buffer = Null(len: nat) | Data(bytes: seq<Byte>)

  function Readable(buffer: Buffer): seq<Byte> {
    if buffer.Data? then buffer.bytes else []
  }

  datatype Call = Start(header: Buffer) | Payload(chunk: Buffer) | End

  /** The accumulator of the packet in progress; None once the packet is to be dropped. */
  type Pending = Option<seq<Byte>>

  function Take(p: Pending, chunk: Buffer): Pending {
    match (p, chunk)
    case (None, _) => None
    case (Some(_), Null(n)) => if n != 0 then None else p
    case (Some(a), Data(d)) => if |d| > MAX_PAYLOAD - |a| then None else Some(a + d)
  }

  function Begin(header: Buffer): Pending {
    if header.Null? then None else Take(Some([]), header)
  }

  function Finish(p: Pending): seq<Byte> {
    match p
    case None => []
    case Some(a) => Slip.Frame(TYPE_BINARY, a)
  }

  function After(p: Pending, call: Call): Pending {
    match call
    case Start(h) => Begin(h)
    case Payload(c) => Take(p, c)
    case End => p
  }

  function Output(p: Pending, call: Call): seq<Byte> {
    if call.End? then Finish(p) else []
  }

  /** All bytes a transport emits for a run of callbacks. */
  function Emitted(p: Pending, calls: seq<Call>): seq<Byte>
    decreases calls
  {
    if calls == [] then [] else Output(p, calls[0]) + Emitted(After(p, calls[0]), calls[1..])
  }

  function AfterAll(p: Pending, calls: seq<Call>): Pending
    decreases calls
  {
    if calls == [] then p else AfterAll(After(p, calls[0]), calls[1..])
  }

  lemma {:induction false} EmittedAppend(p: Pending, a: seq<Call>, b: seq<Call>)
    ensures Emitted(p, a + b) == Emitted(p, a) + Emitted(AfterAll(p, a), b)
    ensures AfterAll(p, a + b) == AfterAll(AfterAll(p, a), b)
    decreases a
  {
    hide Output, After;
    if a == [] {
      assert a + b == b;
    } else {
      assert (a + b)[1..] == a[1..] + b;
      EmittedAppend(After(p, a[0]), a[1..], b);
    }
  }

  lemma EmittedStep(p: Pending, calls: seq<Call>, i: nat)
    requires i < |calls|
    ensures Emitted(p, calls[i..]) == Output(p, calls[i]) + Emitted(After(p, calls[i]), calls[i + 1..])
  {
    hide Output, After;
    assert calls[i..][1..] == calls[i + 1..];
  }

  lemma NoCalls(p: Pending)
    ensures Emitted(p, []) == [] && AfterAll(p, []) == p
  {
  }

  lemma OneCall(p: Pending, call: Call, rest: seq<Call>)
    ensures Emitted(p, [call] + rest) == Output(p, call) + Emitted(After(p, call), rest)
    ensures AfterAll(p, [call] + rest) == AfterAll(After(p, call), rest)
  {
    hide Output, After;
    assert ([call] + rest)[1..] == rest;
  }

  // ---- One packet's callbacks ----

  function PayloadCalls(chunks: seq<seq<Byte>>): seq<Call> {
    if chunks == [] then [] else [Payload(Data(chunks[0]))] + PayloadCalls(chunks[1..])
  }

  function PacketCalls(header: seq<Byte>, chunks: seq<seq<Byte>>): seq<Call> {
    [Start(Data(header))] + PayloadCalls(chunks) + [End]
  }

  /** An oversized packet is dropped as a whole; any other becomes one frame. */
  function PacketBytes(packet: seq<Byte>): seq<Byte> {
    if |packet| <= MAX_PAYLOAD then Slip.Frame(TYPE_BINARY, packet) else []
  }

  lemma {:induction false} PayloadCallsEmit(a: seq<Byte>, chunks: seq<seq<Byte>>)
    requires |a| <= MAX_PAYLOAD
    ensures Emitted(Some(a), PayloadCalls(chunks)) == []
    ensures AfterAll(Some(a), PayloadCalls(chunks))
            == if |a + Flatten(chunks)| <= MAX_PAYLOAD then Some(a + Flatten(chunks)) else None
    decreases chunks
  {
    hide Emitted, AfterAll;
    NoCalls(Some(a));
    if chunks == [] {
      assert a + Flatten(chunks) == a;
    } else {
      OneCall(Some(a), Payload(Data(chunks[0])), PayloadCalls(chunks[1..]));
      assert a + chunks[0] + Flatten(chunks[1..]) == a + Flatten(chunks);
      if |a + chunks[0]| <= MAX_PAYLOAD {
        PayloadCallsEmit(a + chunks[0], chunks[1..]);
      } else {
        DroppedStaysDropped(chunks[1..]);
      }
    }
  }

  lemma {:induction false} DroppedStaysDropped(chunks: seq<seq<Byte>>)
    ensures Emitted(None, PayloadCalls(chunks)) == []
    ensures AfterAll(None, PayloadCalls(chunks)) == None
  {
    hide Emitted, AfterAll;
    NoCalls(None);
    if chunks != [] {
      OneCall(None, Payload(Data(chunks[0])), PayloadCalls(chunks[1..]));
      DroppedStaysDropped(chunks[1..]);
    }
  }

  /** The chunking of a packet does not matter: a transport emits one frame holding the whole packet, or nothing. */
  lemma PacketCallsEmit(p: Pending, header: seq<Byte>, chunks: seq<seq<Byte>>)
    ensures Emitted(p, PacketCalls(header, chunks)) == PacketBytes(header + Flatten(chunks))
  {
    hide Slip.Frame, Emitted, AfterAll;
    var calls := PayloadCalls(chunks);
    var first := Begin(Data(header));
    assert PacketCalls(header, chunks) == [Start(Data(header))] + (calls + [End]);
    OneCall(p, Start(Data(header)), calls + [End]);
    EmittedAppend(first, calls, [End]);
    var last := AfterAll(first, calls);
    assert [End] == [End] + [];
    OneCall(last, End, []);
    NoCalls(After(last, End));
    if |header| <= MAX_PAYLOAD {
      assert [] + header == header;
      PayloadCallsEmit(header, chunks);
    } else {
      DroppedStaysDropped(chunks);
    }
  }

  // ---- Callbacks with any buffers ----

  function BufferCalls(chunks: seq<Buffer>): seq<Call> {
    if chunks == [] then [] else [Payload(chunks[0])] + BufferCalls(chunks[1..])
  }

  function AllReadable(chunks: seq<Buffer>): seq<seq<Byte>> {
    if chunks == [] then [] else [Readable(chunks[0])] + AllReadable(chunks[1..])
  }

  lemma {:induction false} DroppedForGood(chunks: seq<Buffer>)
    ensures Emitted(None, BufferCalls(chunks)) == [] && AfterAll(None, BufferCalls(chunks)) == None
  {
    hide Emitted, AfterAll;
    NoCalls(None);
    if chunks != [] {
      OneCall(None, Payload(chunks[0]), BufferCalls(chunks[1..]));
      DroppedForGood(chunks[1..]);
    }
  }

  lemma ChunkCollected(a: seq<Byte>, c: Buffer)
    requires |a| <= 3072
    ensures Output(Some(a), Payload(c)) == []
    ensures After(Some(a), Payload(c))
            == if (c.Data? || c.len == 0) && |a + Readable(c)| <= 3072 then Some(a + Readable(c)) else None
  {
    assert a + [] == a;
  }

  lemma {:induction false} BuffersCollected(a: seq<Byte>, chunks: seq<Buffer>)
    requires |a| <= 3072
    ensures Emitted(Some(a), BufferCalls(chunks)) == []
    ensures var all := a + Flatten(AllReadable(chunks));
            AfterAll(Some(a), BufferCalls(chunks))
            == if (forall c :: c in chunks ==> c.Data? || c.len == 0) && |all| <= 3072 then Some(all) else None
    decreases chunks
  {
    hide Emitted, AfterAll, After, Output, Readable;
    NoCalls(Some(a));
    if chunks == [] {
      assert a + Flatten(AllReadable(chunks)) == a;
    } else {
      var c, rest := chunks[0], chunks[1..];
      OneCall(Some(a), Payload(c), BufferCalls(rest));
      assert AllReadable(chunks)[1..] == AllReadable(rest);
      assert a + Readable(c) + Flatten(AllReadable(rest)) == a + Flatten(AllReadable(chunks));
      ChunkCollected(a, c);
      if (c.Data? || c.len == 0) && |a + Readable(c)| <= 3072 {
        BuffersCollected(a + Readable(c), rest);
      } else {
        DroppedForGood(rest);
      }
    }
  }

  /**
   * A packet becomes one frame of type 1 or nothing: nothing if and only if its header is NULL, a NULL chunk has a
   * length, or header and chunks are more than 3072 bytes. What the transport collected before makes no difference.
   */
  lemma AnyPacketEmits(p: Pending, header: Buffer, chunks: seq<Buffer>)
    ensures var packet := Readable(header) + Flatten(AllReadable(chunks));
            Emitted(p, [Start(header)] + (BufferCalls(chunks) + [End]))
            == if header.Data? && (forall c :: c in chunks ==> c.Data? || c.len == 0) && |packet| <= 3072
               then Slip.Frame(0x01, packet) else []
  {
    hide Slip.Frame, Emitted, AfterAll;
    var calls := BufferCalls(chunks);
    var first := Begin(header);
    OneCall(p, Start(header), calls + [End]);
    EmittedAppend(first, calls, [End]);
    var last := AfterAll(first, calls);
    assert [End] == [End] + [];
    OneCall(last, End, []);
    NoCalls(After(last, End));
    if header.Data? && |header.bytes| <= 3072 {
      assert [] + header.bytes == header.bytes;
      BuffersCollected(header.bytes, chunks);
    } else {
      DroppedForGood(chunks);
    }
  }
}
