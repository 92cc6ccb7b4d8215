/** The two transports side by side. */
module Transports {
  import opened Bytes
  import opened Sinks
  import opened UnixSink
  import opened EspTransport

  /**
   * For every run of callbacks the ESP sink can read, when no write fails: the
   * stdio sink puts out what the callbacks mean, and every ESP output gets what
   * they mean with an empty header in the place of a NULL one. Without NULL
   * headers that is the same.
   */
  method SameBytes(unix: UnixSink, esp: EspTransport, self: nat, calls: seq<Call>)
    returns (ghost out: seq<Byte>, ghost espOut: seq<Byte>)
    requires unix.Valid() && true !in unix.faults && !unix.writeFailed
    requires esp.Valid() && esp.owner == None
    requires unix.payload != esp.data && unix.payload as object != esp.outputs
    requires forall i :: 0 <= i < esp.outputs.Length && esp.outputs[i].Device? ==>
               forall r :: r in esp.outputs[i].script ==> !Fault(r)
    requires unix.Collected() == esp.Collected()
    requires forall i :: 0 <= i < |calls| ==> CanRead(calls[i])
    modifies unix, unix.payload, esp, esp.data, esp.outputs
    ensures unix.stream == old(unix.stream) + out
    ensures esp.outputs == old(esp.outputs)
    ensures forall i :: 0 <= i < esp.outputs.Length && old(esp.outputs[i].Device?) ==>
              esp.outputs[i].Device? && esp.outputs[i].received == old(esp.outputs[i].received) + espOut
    ensures out == Emitted(old(unix.Collected()), calls) && espOut == Emitted(old(unix.Collected()), AllSeen(calls))
    ensures (forall i :: 0 <= i < |calls| && calls[i].Start? ==> calls[i].header.Data?) ==> espOut == out
  {
    hide Emitted, AllSeen;
    out, espOut := Emitted(unix.Collected(), calls), Emitted(unix.Collected(), AllSeen(calls));
    if forall i :: 0 <= i < |calls| && calls[i].Start? ==> calls[i].header.Data? { SeenAsTheyAre(calls); }
    ghost var before := esp.outputs[..];
    ghost var states := unix.Run(calls);
    assert esp.outputs[..] == before;
    ghost var ok := esp.Run(self, calls);
    assert forall i :: 0 <= i < |before| ==> before[i] == old(esp.outputs[i]);
    assert ok;
    forall i | 0 <= i < esp.outputs.Length && old(esp.outputs[i].Device?)
      ensures esp.outputs[i].Device? && esp.outputs[i].received == old(esp.outputs[i].received) + espOut
    {
      assert esp.outputs[..][i] == esp.outputs[i];
    }
  }

  function NullHeaderCalls(chunks: seq<seq<Byte>>): seq<Call> {
    [Start(Null(0))] + PayloadCalls(chunks) + [End]
  }

  /**
   * A packet with a NULL header: the stdio sink drops it, the ESP sink frames
   * its payload alone. They agree if and only if the payload is too long for a
   * frame.
   */
  lemma NullHeaderDiffers(p: Pending, chunks: seq<seq<Byte>>)
    ensures forall call :: call in NullHeaderCalls(chunks) ==> CanRead(call)
    ensures Emitted(p, NullHeaderCalls(chunks)) == []
    ensures Emitted(p, AllSeen(NullHeaderCalls(chunks))) == PacketBytes(Flatten(chunks))
    ensures Emitted(p, NullHeaderCalls(chunks)) == Emitted(p, AllSeen(NullHeaderCalls(chunks)))
            <==> |Flatten(chunks)| > MAX_PAYLOAD
  {
    hide Emitted, AfterAll;
    var calls, payload := NullHeaderCalls(chunks), PayloadCalls(chunks);
    PayloadsCanBeRead(chunks);
    assert calls == [Start(Null(0))] + (payload + [End]);
    OneCall(p, Start(Null(0)), payload + [End]);
    EmittedAppend(None, payload, [End]);
    DroppedStaysDropped(chunks);
    assert [End] == [End] + [];
    OneCall(None, End, []);
    NoCalls(None);
    assert AllSeen(calls) == PacketCalls([], chunks);
    PacketCallsEmit(p, [], chunks);
    assert [] + Flatten(chunks) == Flatten(chunks);
  }

  lemma {:induction false} PayloadsCanBeRead(chunks: seq<seq<Byte>>)
    ensures forall call :: call in PayloadCalls(chunks) ==> CanRead(call) && Seen(call) == call
  {
    if chunks != [] { PayloadsCanBeRead(chunks[1..]); }
  }
}
