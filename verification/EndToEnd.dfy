/**
 * From log calls to decoded packets: the bytes a packet transport emits for
 * what the emission protocol calls it with, run through the frame decoder and
 * the packet decoder.
 */
module EndToEnd {
  import opened Bytes
  import opened Wire
  import opened Sinks
  import opened Packets
  import opened PacketDecoder
  import opened EmissionProtocol
  import Encoder
  import Slip

  /** The bytes of an entry's packet, number and time filled in. */
  ghost function PacketOf(e: Entry, max: MaxString): seq<Byte>
    requires e.Packet? && e.p.Valid(max)
  {
    WholePacket(e.p, max, e.number % 0x1_0000, e.time % WRAP)
  }

  ghost predicate AllValid(entries: seq<Entry>, max: MaxString) {
    forall e :: e in entries && e.Packet? ==> e.p.Valid(max)
  }

  /** What sink x's transport puts on the line for the packets it was given. */
  ghost function LineOf(entries: seq<Entry>, x: nat, max: MaxString): seq<Byte>
    requires AllValid(entries, max)
  {
    if entries == [] then []
    else
      var n := |entries| - 1;
      LineOf(entries[..n], x, max)
      + (if entries[n].Packet? && x in entries[n].sinks then PacketBytes(PacketOf(entries[n], max)) else [])
  }

  /** The packets a receiver on that line should end up with: all that fit a frame, in order. */
  ghost function Delivered(entries: seq<Entry>, x: nat, max: MaxString): seq<Option<Packet>>
    requires AllValid(entries, max)
  {
    if entries == [] then []
    else
      var n := |entries| - 1;
      Delivered(entries[..n], x, max)
      + (if entries[n].Packet? && x in entries[n].sinks && |PacketOf(entries[n], max)| <= MAX_PAYLOAD
         then [Expected(entries[n].p, max, entries[n].number % 0x1_0000, entries[n].time % WRAP)] else [])
  }

  /** What a receiver does: decode frames, then the packet in each valid binary frame. */
  function Receive(frames: seq<Slip.DecodedFrame>): seq<Option<Packet>> {
    if frames == [] then []
    else (if frames[0].valid && frames[0].typ == TYPE_BINARY then [DecodePacket(frames[0].payload)] else [])
         + Receive(frames[1..])
  }

  lemma {:induction false} GroupsEmitLine(entries: seq<Entry>, x: nat, max: MaxString, p: Pending)
    requires AllValid(entries, max)
    ensures Emitted(p, Groups(entries, x, max)) == LineOf(entries, x, max)
  {
    hide Emitted, PacketBytes, HeaderFor, Chunks, Packets.Payload, Outgoing.Valid, PacketCalls;
    NoCalls(p);
    if entries != [] {
      var n := |entries| - 1;
      var e := entries[n];
      GroupsEmitLine(entries[..n], x, max, p);
      EmittedAppend(p, Groups(entries[..n], x, max), GroupOf(e, x, max));
      var q := AfterAll(p, Groups(entries[..n], x, max));
      NoCalls(q);
      if e.Packet? && x in e.sinks {
        assert e in entries;
        ChunksAreThePayload(e.p, max);
        PacketCallsEmit(q, HeaderFor(e.p, max, e.number % 0x1_0000, e.time % WRAP), Chunks(e.p, max));
      }
    }
  }

  lemma {:induction false} LineDelivers(entries: seq<Entry>, x: nat, max: MaxString, rest: seq<Byte>)
    requires AllValid(entries, max)
    ensures Receive(Slip.Decode(LineOf(entries, x, max) + rest)) == Delivered(entries, x, max) + Receive(Slip.Decode(rest))
  {
    hide Slip.Decode, Slip.Frame, DecodePacket, WholePacket, Expected, Outgoing.Valid;
    if entries == [] {
      assert LineOf(entries, x, max) + rest == rest;
    } else {
      var n := |entries| - 1;
      var e := entries[n];
      var bytes := if e.Packet? && x in e.sinks then PacketBytes(PacketOf(e, max)) else [];
      assert LineOf(entries, x, max) + rest == LineOf(entries[..n], x, max) + (bytes + rest);
      LineDelivers(entries[..n], x, max, bytes + rest);
      if e.Packet? && x in e.sinks && |PacketOf(e, max)| <= MAX_PAYLOAD {
        Slip.DecodeFrame(TYPE_BINARY, PacketOf(e, max), rest);
        var frame := Slip.DecodedFrame(TYPE_BINARY, PacketOf(e, max), true);
        assert ([frame] + Slip.Decode(rest))[1..] == Slip.Decode(rest);
        PacketRoundTrip(e.p, max, e.number % 0x1_0000, e.time % WRAP);
      } else {
        assert bytes + rest == rest;
      }
    }
  }

  // ---- A packet that is still being sent ----

  lemma {:induction false} NoEndNoOutput(calls: seq<Call>, p: Pending)
    requires forall c :: c in calls ==> !c.End?
    ensures Emitted(p, calls) == []
    decreases |calls|
  {
    if calls != [] {
      NoEndNoOutput(calls[1..], After(p, calls[0]));
    }
  }

  lemma {:induction false} PayloadCallsDoNotEnd(chunks: seq<seq<Byte>>)
    ensures forall c :: c in PayloadCalls(chunks) ==> !c.End?
  {
    if chunks != [] { PayloadCallsDoNotEnd(chunks[1..]); }
  }

  /** Until its end callback a packet puts nothing on the line. */
  lemma UnfinishedGroupIsSilent(header: seq<Byte>, chunks: seq<seq<Byte>>, begun: seq<Call>, p: Pending)
    requires begun <= PacketCalls(header, chunks) && |begun| < |PacketCalls(header, chunks)|
    ensures Emitted(p, begun) == []
  {
    PayloadCallsDoNotEnd(chunks);
    forall c | c in begun ensures !c.End? {
      var i :| 0 <= i < |begun| && begun[i] == c;
      assert begun[i] == PacketCalls(header, chunks)[i];
    }
    NoEndNoOutput(begun, p);
  }

  /** In any state, the line carries all packets handed to the sink, or all but the one in flight. */
  lemma LineInAnyState(s: State, x: nat, p: Pending)
    requires Inv(s)
    ensures AllValid(s.em.entries, s.max)
    ensures var n := |s.em.entries|;
            || Emitted(p, CallsTo(s.em.trace, x)) == LineOf(s.em.entries, x, s.max)
            || (n > 0 && s.lock.Some? && Emitted(p, CallsTo(s.em.trace, x)) == LineOf(s.em.entries[..n - 1], x, s.max))
  {
    SinksSeeWholePackets(s, x);
    hide Inv, Emitted, CallsTo, LineOf, Outgoing.Valid, GroupOf, Groups;
    var entries, calls := s.em.entries, CallsTo(s.em.trace, x);
    var rest := CallsTo(Rest(Holder(s)), x);
    if rest == [] || entries == [] {
      assert entries == [] ==> calls + rest == [] by { NoGroups(x, s.max); }
      assert calls == Groups(entries, x, s.max);
      GroupsEmitLine(entries, x, s.max, p);
    } else {
      assert |calls + rest| > |calls|;
      UnfinishedLine(entries, x, s.max, calls, rest, p);
    }
  }

  lemma NoGroups(x: nat, max: MaxString)
    ensures Groups([], x, max) == []
  {
  }

  lemma UnfinishedLine(entries: seq<Entry>, x: nat, max: MaxString, calls: seq<Call>, rest: seq<Call>, p: Pending)
    requires AllValid(entries, max) && entries != [] && rest != []
    requires calls + rest == Groups(entries, x, max) && Groups(entries[..|entries| - 1], x, max) <= calls
    ensures Emitted(p, calls) == LineOf(entries[..|entries| - 1], x, max)
  {
    hide Emitted, LineOf, Outgoing.Valid, PacketCalls, HeaderFor, Chunks;
    var n := |entries| - 1;
    var e := entries[n];
    var front, last := Groups(entries[..n], x, max), GroupOf(e, x, max);
    var begun := calls[|front|..];
    assert calls == front + begun;
    assert front + (begun + rest) == front + last;
    assert begun + rest == (front + (begun + rest))[|front|..];
    assert last == (front + last)[|front|..];
    EmittedAppend(p, front, begun);
    GroupsEmitLine(entries[..n], x, max, p);
    assert e in entries;
    UnfinishedGroupIsSilent(HeaderFor(e.p, max, e.number % 0x1_0000, e.time % WRAP), Chunks(e.p, max), begun,
                            AfterAll(p, front));
  }

  // ---- The main theorem ----

  /**
   * For any interleaving of log, buffer, boot, ISR and dispatch calls with changes to the sink table: what a receiver
   * decodes from the bytes of a sink's transport is exactly the packets that were streamed while the sink was
   * registered and fit a frame, in order and each recovered in full; only the packet in flight may still be missing.
   */
  lemma EverythingArrives(start: State, turns: seq<Turn>, x: nat, p: Pending)
    requires IsInitial(start) && Runs(start, turns)
    ensures Inv(start)
    ensures var r := Run(start, turns);
            var received := Receive(Slip.Decode(Emitted(p, CallsTo(r.em.trace, x))));
            && AllValid(r.em.entries, r.max)
            && (|| received == Delivered(r.em.entries, x, r.max)
                || (|r.em.entries| > 0 && r.lock.Some?
                    && received == Delivered(r.em.entries[..|r.em.entries| - 1], x, r.max)))
  {
    hide *;
    InitialInv(start);
    var r := Run(start, turns);
    ReceivedInAnyState(r, x, p);
  }

  lemma ReceivedInAnyState(r: State, x: nat, p: Pending)
    requires Inv(r)
    ensures AllValid(r.em.entries, r.max)
    ensures var received := Receive(Slip.Decode(Emitted(p, CallsTo(r.em.trace, x))));
            || received == Delivered(r.em.entries, x, r.max)
            || (|r.em.entries| > 0 && r.lock.Some?
                && received == Delivered(r.em.entries[..|r.em.entries| - 1], x, r.max))
  {
    hide Inv, Emitted, CallsTo, LineOf, Delivered, Slip.Decode, Outgoing.Valid;
    LineInAnyState(r, x, p);
    var entries, n := r.em.entries, |r.em.entries|;
    LineDelivers(entries, x, r.max, []);
    assert LineOf(entries, x, r.max) + [] == LineOf(entries, x, r.max);
    if n > 0 {
      LineDelivers(entries[..n - 1], x, r.max, []);
      assert LineOf(entries[..n - 1], x, r.max) + [] == LineOf(entries[..n - 1], x, r.max);
    }
    NothingReceived();
  }

  lemma NothingReceived()
    ensures Receive(Slip.Decode([])) == []
  {
  }

  // ---- Sequence numbers at the receiver ----

  /** The sequence fields of the decoded packets, TIME_SYNC packets aside. */
  function SeqFields(received: seq<Option<Packet>>): seq<U16> {
    if received == [] then [] else SeqField(received[0]) + SeqFields(received[1..])
  }

  function SeqField(q: Option<Packet>): seq<U16> {
    if q.Some? && q.value.header.typ != PKT_TIME_SYNC then [q.value.header.seqNo] else []
  }

  /** The packet fits a frame and its payload can be decoded, which only a prebuilt one may fail. */
  ghost predicate Arrives(e: Entry, max: MaxString)
    requires e.Packet? && e.p.Valid(max)
  {
    |PacketOf(e, max)| <= MAX_PAYLOAD && Expected(e.p, max, e.number % 0x1_0000, e.time % WRAP).Some?
  }

  /** The numbers due in entries[i..j]: counted on from the start of the run, modulo 2^16, less those that cannot arrive. */
  ghost function NumbersDue(entries: seq<Entry>, i: nat, j: nat, max: MaxString): seq<U16>
    requires i <= j <= |entries| && AllValid(entries, max)
    decreases j
  {
    if i == j then []
    else
      NumbersDue(entries, i, j - 1, max)
      + (if IsNumbered(entries[j - 1]) && Arrives(entries[j - 1], max) then [CountNumbered(entries[..j - 1]) % 0x1_0000] else [])
  }

  lemma {:induction false} SeqFieldsAppend(a: seq<Option<Packet>>, b: seq<Option<Packet>>)
    ensures SeqFields(a + b) == SeqFields(a) + SeqFields(b)
  {
    hide SeqField;
    if a == [] {
      assert a + b == b;
    } else {
      assert (a + b)[0] == a[0] && (a + b)[1..] == a[1..] + b;
      SeqFieldsAppend(a[1..], b);
    }
  }

  /** What is decoded from a packet has the number of the packet, and the type TIME_SYNC only if that has none. */
  lemma ExpectedField(p: Outgoing, max: MaxString, seqNo: U16, time: U32)
    requires p.Valid(max)
    ensures SeqField(Expected(p, max, seqNo, time))
            == if p.Numbered() && Expected(p, max, seqNo, time).Some? then [seqNo] else []
  {
    hide DecodeBody, LogBodyOf, LogPayload, WireStrBytes, Locate, FromLe32;
  }

  lemma OneField(q: Option<Packet>)
    ensures SeqFields([q]) == SeqField(q) && SeqFields([]) == []
  {
    assert [q][1..] == [];
  }

  lemma DeliveredOne(entries: seq<Entry>, x: nat, j: nat, max: MaxString)
    requires AllValid(entries, max) && 0 < j <= |entries|
    ensures var e := entries[j - 1];
            SeqFields(Delivered(entries[..j], x, max))
            == SeqFields(Delivered(entries[..j - 1], x, max))
               + (if IsNumbered(e) && x in e.sinks && Arrives(e, max) then [e.number % 0x1_0000] else [])
  {
    hide SeqFields, SeqField, Expected, WholePacket, Outgoing.Valid;
    var e := entries[j - 1];
    assert e in entries && entries[..j][..j - 1] == entries[..j - 1];
    var q := if e.Packet? then Expected(e.p, max, e.number % 0x1_0000, e.time % WRAP) else None;
    var last := if e.Packet? && x in e.sinks && |PacketOf(e, max)| <= MAX_PAYLOAD then [q] else [];
    assert Delivered(entries[..j], x, max) == Delivered(entries[..j - 1], x, max) + last;
    SeqFieldsAppend(Delivered(entries[..j - 1], x, max), last);
    OneField(q);
    if e.Packet? {
      ExpectedField(e.p, max, e.number % 0x1_0000, e.time % WRAP);
      ValidIsNumbered(e, max);
    }
  }

  lemma {:induction false} NumbersDelivered(entries: seq<Entry>, x: nat, i: nat, j: nat, max: MaxString)
    requires EntriesOk(entries, max) && AllValid(entries, max) && i <= j <= |entries|
    requires RegisteredThroughout(entries, x, i, j)
    ensures SeqFields(Delivered(entries[..j], x, max))
            == SeqFields(Delivered(entries[..i], x, max)) + NumbersDue(entries, i, j, max)
    decreases j
  {
    hide EntriesOk, AllValid, SeqFields, Delivered, Arrives, IsNumbered, Registered, CountNumbered;
    if i < j {
      NumbersDelivered(entries, x, i, j - 1, max);
      DeliveredOne(entries, x, j, max);
      NumberIsCount(entries, x, j, max);
    }
  }

  lemma NumberIsCount(entries: seq<Entry>, x: nat, j: nat, max: MaxString)
    requires EntriesOk(entries, max) && 0 < j <= |entries| && Registered(entries[..j - 1], x)
    ensures var e := entries[j - 1]; IsNumbered(e) ==> x in e.sinks && e.number == CountNumbered(entries[..j - 1])
  {
    hide LastTime, NoRepeats, Registered, CountNumbered, Outgoing.Valid, Outgoing.Numbered;
    assert EntryOk(entries[..j - 1], entries[j - 1], max);
  }

  /** If every numbered packet of the stretch can arrive, the numbers due are consecutive modulo 2^16. */
  lemma {:induction false} NothingMissing(entries: seq<Entry>, i: nat, j: nat, max: MaxString)
    requires i <= j <= |entries| && AllValid(entries, max)
    requires forall k :: i <= k < j && IsNumbered(entries[k]) ==> Arrives(entries[k], max)
    ensures var first := CountNumbered(entries[..i]);
            && CountNumbered(entries[..j]) == first + |NumbersDue(entries, i, j, max)|
            && forall m :: 0 <= m < |NumbersDue(entries, i, j, max)| ==>
                 NumbersDue(entries, i, j, max)[m] == (first + m) % 0x1_0000
    decreases j
  {
    hide AllValid, Arrives, IsNumbered;
    if i < j {
      NothingMissing(entries, i, j - 1, max);
      assert entries[..j][..j - 1] == entries[..j - 1];
    }
  }

  /**
   * What a receiver reads in the sequence fields, in any reachable state with no packet in flight: over any stretch
   * to the present during which the sink stayed registered it is the next number for every packet, modulo 2^16, with
   * gaps for the packets alone that are too long for a frame or were malformed when dispatched.
   */
  lemma ReceivedNumbers(start: State, turns: seq<Turn>, x: nat, p: Pending, i: nat)
    requires IsInitial(start) && Runs(start, turns) && Inv(start)
    requires var r := Run(start, turns);
             r.lock.None? && i <= |r.em.entries| && RegisteredThroughout(r.em.entries, x, i, |r.em.entries|)
    ensures var r := Run(start, turns);
            var entries := r.em.entries;
            && AllValid(entries, r.max)
            && SeqFields(Receive(Slip.Decode(Emitted(p, CallsTo(r.em.trace, x)))))
               == SeqFields(Delivered(entries[..i], x, r.max)) + NumbersDue(entries, i, |entries|, r.max)
  {
    hide *;
    var r := Run(start, turns);
    ReceivedInAnyState(r, x, p);
    InvEntries(r);
    NumbersDelivered(r.em.entries, x, i, |r.em.entries|, r.max);
    assert r.em.entries[..|r.em.entries|] == r.em.entries;
  }

  lemma InvEntries(r: State)
    requires Inv(r)
    ensures EntriesOk(r.em.entries, r.max)
  {
    hide EntriesOk, TraceOk, NumbersOk, TableOk, HolderValid, Locked, TodosOk, QueueOk, Fifo, Served, Conserved, LastTime;
  }

  /** A log call from an interrupt arrives like one from a task, with its own time and the number given on dispatch. */
  lemma IsrCallArrives(c: LogCall, max: MaxString, time: U32, seqNo: U16, dispatchTime: U32)
    requires c.Valid(max) && |LogPayload(c, max)| <= PAYLOAD_LEN_MAX
    ensures Prebuilt(Encoder.IsrPacket(c, max, time)).Valid(max)
    ensures Expected(Prebuilt(Encoder.IsrPacket(c, max, time)), max, seqNo, dispatchTime)
            == Some(PacketDecoder.Packet.Packet(LogHeader(c, max, seqNo, time), LogBodyOf(c, max)))
  {
    hide LogPayload, LogBodyOf, DecodePacket, LogCall.Valid, Locate;
    IsrPacketIsDispatchable(c, max, time);
    var packet := Encoder.IsrPacket(c, max, time);
    assert packet == HeaderBytes(LogHeader(c, max, 0, time)) + LogPayload(c, max);
    LogRoundTrip(c, max, 0, time);
    assert packet[1] / 16 == PKT_LOG;
  }
}
