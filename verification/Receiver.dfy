/**
 * What a receiver can tell of the packets it got: the times they were stamped
 * with, and that each thread's requests came through in order.
 */
module Receiver {
  import opened Bytes
  import opened Wire
  import opened Sinks
  import opened Packets
  import opened PacketDecoder
  import opened EmissionProtocol
  import opened EndToEnd
  import Slip

  // ---- Which entry of the history a received packet is ----

  /** The entry's packet goes out on sink x's line. */
  ghost predicate Carried(e: Entry, x: nat, max: MaxString)
    requires e.Packet? ==> e.p.Valid(max)
  {
    e.Packet? && x in e.sinks && |PacketOf(e, max)| <= MAX_PAYLOAD
  }

  predicate PacketsAt(entries: seq<Entry>, ks: seq<nat>) {
    forall a :: 0 <= a < |ks| ==> ks[a] < |entries| && entries[ks[a]].Packet?
  }

  /** The entries from i to j that sink x's line carries, in order. */
  ghost function Arrivals(entries: seq<Entry>, x: nat, i: nat, j: nat, max: MaxString): (ks: seq<nat>)
    requires i <= j <= |entries| && AllValid(entries, max)
    ensures forall a :: 0 <= a < |ks| ==> i <= ks[a] < j && Carried(entries[ks[a]], x, max)
    ensures PacketsAt(entries, ks) && forall a, b :: 0 <= a < b < |ks| ==> ks[a] < ks[b]
    decreases j
  {
    if i == j then []
    else Arrivals(entries, x, i, j - 1, max) + (if Carried(entries[j - 1], x, max) then [j - 1] else [])
  }

  lemma {:induction false} ArrivalsSplit(entries: seq<Entry>, x: nat, i: nat, j: nat, max: MaxString)
    requires i <= j <= |entries| && AllValid(entries, max)
    ensures Arrivals(entries, x, 0, j, max) == Arrivals(entries, x, 0, i, max) + Arrivals(entries, x, i, j, max)
    decreases j
  {
    hide Carried, AllValid;
    if i < j { ArrivalsSplit(entries, x, i, j - 1, max); }
  }

  /** What the entry's packet is decoded to. */
  ghost function Decoded(e: Entry, max: MaxString): Option<Packet>
    requires e.Packet? && e.p.Valid(max)
  {
    Expected(e.p, max, e.number % 0x1_0000, e.time % WRAP)
  }

  /** The received packets are those of the entries ks, one by one. */
  ghost predicate AreDecoded(received: seq<Option<Packet>>, entries: seq<Entry>, ks: seq<nat>, max: MaxString)
    requires AllValid(entries, max) && PacketsAt(entries, ks)
  {
    |received| == |ks| && forall a :: 0 <= a < |ks| ==> received[a] == Decoded(entries[ks[a]], max)
  }

  lemma {:induction false} DeliveredAre(entries: seq<Entry>, x: nat, j: nat, max: MaxString)
    requires j <= |entries| && AllValid(entries, max)
    ensures AreDecoded(Delivered(entries[..j], x, max), entries, Arrivals(entries, x, 0, j, max), max)
    decreases j
  {
    hide Expected, WholePacket, Outgoing.Valid;
    if j > 0 {
      DeliveredAre(entries, x, j - 1, max);
      assert entries[..j][..j - 1] == entries[..j - 1];
      assert entries[j - 1] in entries;
    }
  }

  // ---- Times ----

  lemma ExpectedTime(p: Outgoing, max: MaxString, seqNo: U16, time: U32)
    requires p.Valid(max) && !p.Prebuilt?
    ensures Expected(p, max, seqNo, time).Some? && Expected(p, max, seqNo, time).value.header.time == time
  {
    hide LogBodyOf, LogPayload, WireStrBytes, Locate, LogCall.Valid;
  }

  /**
   * In any reachable state: a packet that was not serialised earlier is decoded with the time read under the lock,
   * modulo 2^32, and those times never go back from one received packet to a later one. All entries are covered, or all
   * but the one in flight.
   */
  lemma ReceivedTimes(s: State, x: nat, p: Pending) returns (j: nat)
    requires Inv(s)
    ensures var entries, received := s.em.entries, EndToEnd.Receive(Slip.Decode(Emitted(p, CallsTo(s.em.trace, x))));
            && AllValid(entries, s.max) && j <= |entries| <= j + 1 && (s.lock.None? ==> j == |entries|)
            && var ks := Arrivals(entries, x, 0, j, s.max);
               && AreDecoded(received, entries, ks, s.max)
               && (forall a :: 0 <= a < |ks| && !entries[ks[a]].p.Prebuilt? ==>
                     received[a].Some? && received[a].value.header.time == entries[ks[a]].time % WRAP)
               && (forall a, b :: 0 <= a < b < |ks| ==> entries[ks[a]].time <= entries[ks[b]].time)
  {
    hide Inv, Arrivals, Delivered, EntriesOk, AllValid, Emitted, CallsTo, Slip.Decode, EndToEnd.Receive, AreDecoded;
    var entries := s.em.entries;
    ReceivedInAnyState(s, x, p);
    InvEntries(s);
    j := if EndToEnd.Receive(Slip.Decode(Emitted(p, CallsTo(s.em.trace, x)))) == Delivered(entries, x, s.max)
         then |entries| else |entries| - 1;
    assert entries[..|entries|] == entries;
    DeliveredAre(entries, x, j, s.max);
    TimesOf(entries, x, j, s.max);
    DecodedTimes(EndToEnd.Receive(Slip.Decode(Emitted(p, CallsTo(s.em.trace, x)))), entries,
                 Arrivals(entries, x, 0, j, s.max), s.max);
  }

  lemma DecodedTimes(received: seq<Option<Packet>>, entries: seq<Entry>, ks: seq<nat>, max: MaxString)
    requires AllValid(entries, max) && PacketsAt(entries, ks)
    requires AreDecoded(received, entries, ks, max)
    ensures forall a :: 0 <= a < |ks| && !entries[ks[a]].p.Prebuilt? ==>
              received[a].Some? && received[a].value.header.time == entries[ks[a]].time % WRAP
  {
    hide Expected, Outgoing.Valid;
    forall a | 0 <= a < |ks| && !entries[ks[a]].p.Prebuilt?
      ensures received[a].Some? && received[a].value.header.time == entries[ks[a]].time % WRAP
    {
      var e := entries[ks[a]];
      assert e in entries;
      ExpectedTime(e.p, max, e.number % 0x1_0000, e.time % WRAP);
    }
  }

  lemma TimesOf(entries: seq<Entry>, x: nat, j: nat, max: MaxString)
    requires EntriesOk(entries, max) && AllValid(entries, max) && j <= |entries|
    ensures var ks := Arrivals(entries, x, 0, j, max);
            forall a, b :: 0 <= a < b < |ks| ==> entries[ks[a]].time <= entries[ks[b]].time
  {
    hide EntriesOk, AllValid, Arrivals;
    var ks := Arrivals(entries, x, 0, j, max);
    forall a, b | 0 <= a < b < |ks| ensures entries[ks[a]].time <= entries[ks[b]].time {
      TimesNeverGoBack(entries, ks[a], ks[b], max);
    }
  }

  // ---- The packets of one thread ----

  /** Those of the entries that are packets of thread t, drop reports aside. */
  function OfThread(entries: seq<Entry>, owners: seq<nat>, ks: seq<nat>, t: nat): (r: seq<nat>)
    requires |owners| == |entries| && PacketsAt(entries, ks)
    ensures PacketsAt(entries, r)
  {
    if ks == [] then []
    else
      var k := ks[|ks| - 1];
      OfThread(entries, owners, ks[..|ks| - 1], t) + (if owners[k] == t && !entries[k].p.Dropped? then [k] else [])
  }

  /** A decoded packet without the number and the time it was sent with. */
  function Content(q: Option<Packet>): Option<Packet> {
    match q
    case None => None
    case Some(packet) => Some(packet.(header := packet.header.(seqNo := 0, time := 0)))
  }

  ghost function Contents(entries: seq<Entry>, ks: seq<nat>, max: MaxString): seq<Option<Packet>>
    requires AllValid(entries, max) && PacketsAt(entries, ks)
  {
    if ks == [] then []
    else
      var k := ks[|ks| - 1];
      Contents(entries, ks[..|ks| - 1], max) + [Content(Decoded(entries[k], max))]
  }

  /** What a receiver should find in the packets ps, those too long for a frame left out. */
  function ContentsDue(ps: seq<Outgoing>, max: MaxString): seq<Option<Packet>>
    requires forall p :: p in ps ==> p.Valid(max)
  {
    if ps == [] then []
    else
      var n := |ps| - 1;
      ContentsDue(ps[..n], max)
      + (if |WholePacket(ps[n], max, 0, 0)| <= MAX_PAYLOAD then [Content(Expected(ps[n], max, 0, 0))] else [])
  }

  /** What thread t streamed from entry i to entry j. */
  function StreamedSince(entries: seq<Entry>, owners: seq<nat>, t: nat, i: nat, j: nat): seq<Outgoing>
    requires |owners| == |entries| && i <= j <= |entries|
    decreases j
  {
    if i == j then []
    else StreamedSince(entries, owners, t, i, j - 1)
         + (if owners[j - 1] == t && entries[j - 1].Packet? && !entries[j - 1].p.Dropped? then [entries[j - 1].p] else [])
  }

  lemma {:induction false} StreamedSplit(entries: seq<Entry>, owners: seq<nat>, t: nat, i: nat, j: nat)
    requires |owners| == |entries| && i <= j <= |entries|
    ensures StreamedFor(entries[..j], owners[..j], t)
            == StreamedFor(entries[..i], owners[..i], t) + StreamedSince(entries, owners, t, i, j)
    decreases j
  {
    if i < j {
      StreamedSplit(entries, owners, t, i, j - 1);
      assert entries[..j][..j - 1] == entries[..j - 1] && owners[..j][..j - 1] == owners[..j - 1];
    }
  }

  lemma {:induction false} StreamedIsValid(entries: seq<Entry>, owners: seq<nat>, t: nat, i: nat, j: nat, max: MaxString)
    requires |owners| == |entries| && i <= j <= |entries| && AllValid(entries, max)
    ensures forall p :: p in StreamedSince(entries, owners, t, i, j) ==> p.Valid(max)
    decreases j
  {
    hide Outgoing.Valid;
    if i < j {
      StreamedIsValid(entries, owners, t, i, j - 1, max);
      assert entries[j - 1] in entries;
    }
  }

  /** Neither the length nor the content of a packet depends on its number and time. */
  lemma ContentIsFixed(p: Outgoing, max: MaxString, seqNo: U16, time: U32)
    requires p.Valid(max)
    ensures |WholePacket(p, max, seqNo, time)| == |WholePacket(p, max, 0, 0)|
    ensures Content(Expected(p, max, seqNo, time)) == Content(Expected(p, max, 0, 0))
  {
    hide DecodePacket, LogBodyOf, LogPayload, WireStrBytes, Locate, LogCall.Valid, HeaderFor, Packets.Payload;
  }

  lemma ContentsOneMore(entries: seq<Entry>, owners: seq<nat>, ks: seq<nat>, k: nat, t: nat, max: MaxString)
    requires |owners| == |entries| && AllValid(entries, max)
    requires PacketsAt(entries, ks) && k < |entries| && entries[k].Packet?
    ensures Contents(entries, OfThread(entries, owners, ks + [k], t), max)
            == Contents(entries, OfThread(entries, owners, ks, t), max)
               + (if owners[k] == t && !entries[k].p.Dropped? then [Content(Decoded(entries[k], max))] else [])
  {
    hide Content, Decoded, AllValid;
    assert (ks + [k])[..|ks|] == ks;
    var before, after := OfThread(entries, owners, ks, t), OfThread(entries, owners, ks + [k], t);
    if owners[k] == t && !entries[k].p.Dropped? {
      assert after == before + [k] && after[..|before|] == before;
    } else {
      assert after == before;
    }
  }

  lemma DueOneMore(ps: seq<Outgoing>, p: Outgoing, max: MaxString)
    requires forall q :: q in ps + [p] ==> q.Valid(max)
    ensures p in ps + [p]
    ensures ContentsDue(ps + [p], max)
            == ContentsDue(ps, max)
               + (if |WholePacket(p, max, 0, 0)| <= MAX_PAYLOAD then [Content(Expected(p, max, 0, 0))] else [])
  {
    hide Content, Expected, WholePacket, Outgoing.Valid;
    assert (ps + [p])[..|ps|] == ps;
  }

  /** While the sink is registered, each packet that fits a frame is carried. */
  lemma CarriedWhenRegistered(entries: seq<Entry>, x: nat, k: nat, max: MaxString)
    requires EntriesOk(entries, max) && AllValid(entries, max) && k < |entries| && Registered(entries[..k], x)
    ensures var e := entries[k];
            e.Packet? ==> e.p.Valid(max) && (Carried(e, x, max) <==> |WholePacket(e.p, max, 0, 0)| <= MAX_PAYLOAD)
                          && Content(Decoded(e, max)) == Content(Expected(e.p, max, 0, 0))
  {
    hide LastTime, NoRepeats, Registered, CountNumbered, Outgoing.Valid, WholePacket, Expected, Content;
    var e := entries[k];
    assert EntryOk(entries[..k], e, max) && e in entries;
    if e.Packet? { ContentIsFixed(e.p, max, e.number % 0x1_0000, e.time % WRAP); }
  }

  lemma {:induction false} ThreadContents(entries: seq<Entry>, owners: seq<nat>, x: nat, t: nat, i: nat, j: nat, max: MaxString)
    requires |owners| == |entries| && i <= j <= |entries| && EntriesOk(entries, max) && AllValid(entries, max)
    requires RegisteredThroughout(entries, x, i, j)
    ensures forall p :: p in StreamedSince(entries, owners, t, i, j) ==> p.Valid(max)
    ensures Contents(entries, OfThread(entries, owners, Arrivals(entries, x, i, j, max), t), max)
            == ContentsDue(StreamedSince(entries, owners, t, i, j), max)
    decreases j
  {
    hide EntriesOk, AllValid, Registered, Contents, ContentsDue, OfThread, Content, Expected, WholePacket, Decoded, Carried,
      Outgoing.Valid;
    StreamedIsValid(entries, owners, t, i, j, max);
    if i == j {
      NothingDue(entries, owners, t, max);
    } else {
      var e, ks, ps := entries[j - 1], Arrivals(entries, x, i, j - 1, max), StreamedSince(entries, owners, t, i, j - 1);
      ThreadContents(entries, owners, x, t, i, j - 1, max);
      CarriedWhenRegistered(entries, x, j - 1, max);
      if Carried(e, x, max) {
        CarriedIsPacket(e, x, max);
        ContentsOneMore(entries, owners, ks, j - 1, t, max);
      } else {
        assert ks + [] == ks;
      }
      if owners[j - 1] == t && e.Packet? && !e.p.Dropped? {
        assert StreamedSince(entries, owners, t, i, j) == ps + [e.p];
        DueOneMore(ps, e.p, max);
      } else {
        assert StreamedSince(entries, owners, t, i, j) == ps;
      }
    }
  }

  lemma CarriedIsPacket(e: Entry, x: nat, max: MaxString)
    requires (e.Packet? ==> e.p.Valid(max)) && Carried(e, x, max)
    ensures e.Packet?
  {
  }

  lemma NothingDue(entries: seq<Entry>, owners: seq<nat>, t: nat, max: MaxString)
    requires |owners| == |entries| && AllValid(entries, max)
    ensures OfThread(entries, owners, [], t) == [] && Contents(entries, [], max) == [] && ContentsDue([], max) == []
  {
  }

  /**
   * From request to receiver: of what is received while the sink stays registered, from entry i of the history to the
   * present with no packet in flight, the packets of thread t have, one by one and in order, the contents of the packets
   * its requests gave it to stream, from the first it had not streamed by then to the last it has streamed now, those
   * too long for a frame left out.
   */
  lemma RequestsArrive(s: State, x: nat, p: Pending, t: nat, i: nat)
    requires Inv(s) && s.lock.None? && t < |s.threads|
    requires i <= |s.em.entries| && RegisteredThroughout(s.em.entries, x, i, |s.em.entries|)
    ensures AllValid(s.em.entries, s.max) && |s.owners| == |s.em.entries| && |s.asked| == |s.threads|
    ensures var entries, n := s.em.entries, |s.em.entries|;
            && AreDecoded(EndToEnd.Receive(Slip.Decode(Emitted(p, CallsTo(s.em.trace, x)))), entries,
                          Arrivals(entries, x, 0, n, s.max), s.max)
            && Arrivals(entries, x, 0, n, s.max) == Arrivals(entries, x, 0, i, s.max) + Arrivals(entries, x, i, n, s.max)
    ensures var entries, n := s.em.entries, |s.em.entries|;
            var from, to := |StreamedFor(entries[..i], s.owners[..i], t)|, |s.asked[t]| - |Tasks(s.threads[t].todo)|;
            && from <= to && (forall q :: q in s.asked[t][from..to] ==> q.Valid(s.max))
            && Contents(entries, OfThread(entries, s.owners, Arrivals(entries, x, i, n, s.max), t), s.max)
               == ContentsDue(s.asked[t][from..to], s.max)
  {
    hide Inv, Arrivals, Delivered, EntriesOk, AllValid, Emitted, CallsTo, Slip.Decode, EndToEnd.Receive, AreDecoded,
      StreamedFor, StreamedSince, Tasks, OfThread, Contents, ContentsDue, Registered, RegisteredThroughout, Outgoing.Valid;
    var entries, n := s.em.entries, |s.em.entries|;
    ReceivedInAnyState(s, x, p);
    InvEntries(s);
    InvServed(s);
    assert entries[..n] == entries && s.owners[..n] == s.owners;
    DeliveredAre(entries, x, n, s.max);
    ArrivalsSplit(entries, x, i, n, s.max);
    StreamedSplit(entries, s.owners, t, i, n);
    ThreadContents(entries, s.owners, x, t, i, n, s.max);
    Middle(StreamedFor(entries[..i], s.owners[..i], t), StreamedSince(entries, s.owners, t, i, n), Tasks(s.threads[t].todo));
  }

  lemma InvServed(s: State)
    requires Inv(s)
    ensures |s.owners| == |s.em.entries| && |s.asked| == |s.threads|
    ensures forall t :: 0 <= t < |s.threads| ==>
              s.asked[t] == StreamedFor(s.em.entries, s.owners, t) + Tasks(s.threads[t].todo)
  {
    hide StreamedFor, Tasks, EmissionOk, Locked, TodosOk, Conserved, Fifo, QueueOk;
  }

  lemma Middle(a: seq<Outgoing>, b: seq<Outgoing>, c: seq<Outgoing>)
    ensures (a + b + c)[|a|..|a + b + c| - |c|] == b
  {
  }
}
