/**
 * Everything that streams packets, interleaved: task threads and interrupts
 * that log, the ISR queue and the thread that drains it, and changes to the
 * sink table. Every callback, fetch-add, exchange and queue operation is a
 * step of its own.
 */
module EmissionProtocol {
  import opened Bytes
  import opened Wire
  import opened Sinks
  import opened Packets
  import opened Streams
  import Encoder

  const WRAP := 0x1_0000_0000

  /** The thread that drains the ISR queue; the only one that receives from it. */
  const DRAIN: nat := 0

  // ---- What threads do ----

  datatype Request =
    | WriteLog(call: LogCall)
    | WriteBuffer(level: Nibble, tag: CString, buffer: Buffer)
    | EmitBoot(bootId: U32, reason: Byte, idKind: Byte, id: seq<Byte>)
    | WriteIsr(call: LogCall, cap: nat, time: U32)
    | Dispatch(packet: Buffer)
    | DrainOne
    | AddSink(sink: SinkId)
    | RemoveSink(sink: SinkId)

  /** The shared-memory actions a request consists of, in order. */
  datatype Action =
    | Exchange                                 // take the drop count
    | Refuse                                   // fetch-add one to the drop count
    | Emit(p: Outgoing, queued: bool)          // stream a packet; queued when it came from the ISR queue
    | Enqueue(packet: seq<Byte>)
    | Receive
    | Add(sink: SinkId)
    | Remove(sink: SinkId)

  ghost predicate RequestOk(r: Request, max: MaxString) {
    match r
    case WriteLog(c) => c.Valid(max)
    case WriteBuffer(_, tag, _) => ValidString(tag, max)
    case EmitBoot(_, _, _, id) => |id| <= IMAGE_ID_MAX_LEN
    case WriteIsr(c, cap, _) => c.Valid(max) && 32 <= cap <= 3072
    case _ => true
  }

  function Dispatchable(packet: seq<Byte>): bool {
    |packet| >= HEADER_LEN && packet[0] == MAGIC
  }

  function Emits(ps: seq<Outgoing>): seq<Action> {
    if ps == [] then [] else [Emit(ps[0], false)] + Emits(ps[1..])
  }

  ghost function Actions(r: Request, max: MaxString, chunkSize: nat): seq<Action>
    requires RequestOk(r, max) && chunkSize >= 1
  {
    match r
    case WriteLog(c) => if Fits(c, max) then [Exchange, Emit(Log(c), false)] else [Exchange, Refuse]
    case WriteBuffer(level, tag, buffer) =>
      if !Acceptable(buffer) then [Refuse]
      else if !BufferFits(tag, max, chunkSize) then [Exchange, Refuse]
      else [Exchange] + Emits(BufferParts(level, tag, Readable(buffer), max, chunkSize))
    case EmitBoot(bootId, reason, idKind, id) => [Emit(Boot(bootId, reason, idKind, id), false)]
    case WriteIsr(c, cap, time) =>
      if Encoder.IsrSafe(c.args) && HEADER_LEN + |LogPayload(c, max)| <= cap then [Enqueue(Encoder.IsrPacket(c, max, time))]
      else [Refuse]
    case Dispatch(packet) =>
      if packet.Data? && Dispatchable(packet.bytes) then [Exchange, Emit(Prebuilt(packet.bytes), false)] else []
    case DrainOne => [Receive]
    case AddSink(x) => [Add(x)]
    case RemoveSink(x) => [Remove(x)]
  }

  // ---- State ----

  /** Where a thread stands with respect to the emit lock; every stage but Outside holds it. */
  datatype Stage =
    | Outside
    | Updating                                     // about to change the sink table
    | Opened(sinks: seq<SinkId>)                   // sinks captured
    | Numbered(sinks: seq<SinkId>, number: nat)    // sequence number taken
    | Sending(rest: seq<Event>)                    // callbacks still to be made

  datatype Thread = Thread(todo: seq<Action>, stage: Stage)

  /** History: what was streamed or registered, in the order of the lock. Numbers and times are unwrapped. */
  datatype Entry =
    | Packet(p: Outgoing, sinks: seq<SinkId>, number: nat, time: nat, queued: bool)
    | Added(sink: SinkId)
    | Removed(sink: SinkId)

  /** What the emit lock protects, with its history. */
  datatype Emission = Emission(slots: seq<Option<SinkId>>, seqNo: nat, entries: seq<Entry>, trace: seq<Event>)

  datatype State = State(
    max: MaxString,
    chunkSize: nat,
    threads: seq<Thread>,
    lock: Option<nat>,
    em: Emission,
    clock: nat,
    dropped: U32,
    queue: seq<seq<Byte>>,
    refusals: nat,                 // calls refused so far
    accepted: seq<seq<Byte>>,      // packets the queue took so far
    asked: seq<seq<Outgoing>>,     // for each thread, the packets its requests gave it to stream so far
    owners: seq<nat>)              // for each entry of the history, the thread that made it

  /** What the environment decides: the next request of an idle thread, or whether the queue takes a packet. */
  datatype Choice = Call(r: Request) | Proceed(granted: bool)

  /** A thread's turn, or time passing. */
  datatype Turn = Step(t: nat, c: Choice) | Tick(n: nat)

  // ---- The sink table ----

  predicate Registered(entries: seq<Entry>, x: SinkId) {
    if entries == [] then false
    else
      var e := entries[|entries| - 1];
      if e.Added? && e.sink == x then true
      else if e.Removed? && e.sink == x then false
      else Registered(entries[..|entries| - 1], x)
  }

  function Updated(em: Emission, a: Action): Emission
    requires a.Add? || a.Remove?
  {
    var i := FirstSlot(em.slots, Some(a.sink));
    if a.Add? then
      var free := FirstSlot(em.slots, None);
      if i < |em.slots| || free == |em.slots| then em
      else em.(slots := em.slots[free := Some(a.sink)], entries := em.entries + [Added(a.sink)])
    else if i < |em.slots| then em.(slots := em.slots[i := None], entries := em.entries + [Removed(a.sink)])
    else em
  }

  // ---- Steps of the lock holder ----

  predicate HolderShape(th: Thread) {
    && (th.stage.Opened? || th.stage.Numbered? ==> th.todo != [] && th.todo[0].Emit?)
    && (th.stage.Updating? ==> th.todo != [] && (th.todo[0].Add? || th.todo[0].Remove?))
  }

  ghost predicate HolderValid(th: Thread, max: MaxString) {
    HolderShape(th) && (th.stage.Opened? || th.stage.Numbered? ==> th.todo[0].p.Valid(max))
  }

  ghost function EmissionAfter(em: Emission, th: Thread, clock: nat, max: MaxString): Emission
    requires HolderValid(th, max)
  {
    match th.stage
    case Outside => em
    case Updating => Updated(em, th.todo[0])
    case Opened(_) => if th.todo[0].p.Numbered() then em.(seqNo := em.seqNo + 1) else em
    case Numbered(sinks, n) =>
      em.(entries := em.entries + [Packet(th.todo[0].p, sinks, n, clock, th.todo[0].queued)])
    case Sending(rest) => if rest == [] then em else em.(trace := em.trace + [rest[0]])
  }

  ghost function HolderAfter(em: Emission, th: Thread, clock: nat, max: MaxString): Thread
    requires HolderValid(th, max)
  {
    match th.stage
    case Outside => th
    case Updating => Thread(th.todo[1..], Sending([]))
    case Opened(sinks) => th.(stage := Numbered(sinks, em.seqNo))
    case Numbered(sinks, n) => Thread(th.todo[1..], Sending(Streamed(sinks, th.todo[0].p, max, n, clock % WRAP)))
    case Sending(rest) => th.(stage := if rest == [] then Outside else Sending(rest[1..]))
  }

  // ---- History ----

  predicate IsNumbered(e: Entry) {
    e.Packet? && (e.p.Prebuilt? ==> |e.p.packet| >= HEADER_LEN) && e.p.Numbered()
  }

  function CountNumbered(entries: seq<Entry>): nat {
    if entries == [] then 0
    else CountNumbered(entries[..|entries| - 1]) + (if IsNumbered(entries[|entries| - 1]) then 1 else 0)
  }

  function LastTime(entries: seq<Entry>): nat {
    if entries == [] then 0
    else if entries[|entries| - 1].Packet? then entries[|entries| - 1].time
    else LastTime(entries[..|entries| - 1])
  }

  predicate NoRepeats(sinks: seq<SinkId>) {
    forall i, j :: 0 <= i < j < |sinks| ==> sinks[i] != sinks[j]
  }

  /** An entry fits the history before it. */
  ghost predicate EntryOk(before: seq<Entry>, e: Entry, max: MaxString) {
    e.Packet? ==>
      && e.p.Valid(max) && (e.p.Dropped? ==> e.p.count != 0) && (e.queued ==> e.p.Prebuilt?)
      && e.number == CountNumbered(before)
      && e.time >= LastTime(before)
      && NoRepeats(e.sinks) && forall x: SinkId :: x in e.sinks <==> Registered(before, x)
  }

  ghost predicate EntriesOk(entries: seq<Entry>, max: MaxString) {
    forall k :: 0 <= k < |entries| ==> EntryOk(entries[..k], entries[k], max)
  }

  ghost function EventsOf(entries: seq<Entry>, max: MaxString): seq<Event>
    requires forall e :: e in entries && e.Packet? ==> e.p.Valid(max)
  {
    if entries == [] then []
    else EventsOf(entries[..|entries| - 1], max) + EntryEvents(entries[|entries| - 1], max)
  }

  ghost function EntryEvents(e: Entry, max: MaxString): seq<Event>
    requires e.Packet? ==> e.p.Valid(max)
  {
    if e.Packet? then Streamed(e.sinks, e.p, max, e.number, e.time % WRAP) else []
  }

  // ---- The invariant of what the lock protects ----

  function Rest(th: Thread): seq<Event> {
    if th.stage.Sending? then th.stage.rest else []
  }

  ghost predicate TraceOk(em: Emission, th: Thread, max: MaxString) {
    && (forall e :: e in em.entries && e.Packet? ==> e.p.Valid(max))
    && em.trace + Rest(th) == EventsOf(em.entries, max)
    && (em.entries == [] || !em.entries[|em.entries| - 1].Packet? ==> Rest(th) == [])
    && (em.entries != [] ==> |Rest(th)| <= |EntryEvents(em.entries[|em.entries| - 1], max)|)
  }

  predicate NumbersOk(em: Emission, th: Thread)
    requires HolderShape(th)
  {
    && em.seqNo == CountNumbered(em.entries)
                   + (if th.stage.Numbered? && IsNumbered(Packet(th.todo[0].p, [], 0, 0, false)) then 1 else 0)
    && (th.stage.Numbered? ==> th.stage.number == CountNumbered(em.entries))
  }

  ghost predicate TableOk(em: Emission, th: Thread) {
    && (forall i, j :: 0 <= i < j < |em.slots| && em.slots[i].Some? ==> em.slots[i] != em.slots[j])
    && (forall x: SinkId :: Some(x) in em.slots <==> Registered(em.entries, x))
    && (th.stage.Opened? ==> th.stage.sinks == Captured(em.slots))
    && (th.stage.Numbered? ==> th.stage.sinks == Captured(em.slots))
  }

  ghost predicate EmissionOk(em: Emission, th: Thread, clock: nat, max: MaxString) {
    && HolderValid(th, max) && EntriesOk(em.entries, max)
    && TraceOk(em, th, max) && NumbersOk(em, th) && TableOk(em, th) && LastTime(em.entries) <= clock
  }

  // ---- The lock holder's steps keep it ----

  lemma EntriesGrow(entries: seq<Entry>, e: Entry, max: MaxString)
    requires EntriesOk(entries, max) && EntryOk(entries, e, max)
    ensures EntriesOk(entries + [e], max)
  {
    hide EntryOk;
    var all := entries + [e];
    forall k | 0 <= k < |all| ensures EntryOk(all[..k], all[k], max) {
      if k < |entries| {
        assert all[..k] == entries[..k];
      } else {
        assert all[..k] == entries;
      }
    }
  }

  lemma {:induction false} InCaptured(slots: seq<Option<SinkId>>, x: SinkId)
    ensures x in Captured(slots) <==> Some(x) in slots
  {
    if slots != [] {
      var n := |slots| - 1;
      InCaptured(slots[..n], x);
      assert slots == slots[..n] + [slots[n]];
    }
  }

  lemma {:induction false} CapturedOnce(slots: seq<Option<SinkId>>)
    requires forall i, j :: 0 <= i < j < |slots| && slots[i].Some? ==> slots[i] != slots[j]
    ensures NoRepeats(Captured(slots))
  {
    if slots != [] {
      var n := |slots| - 1;
      CapturedOnce(slots[..n]);
      if slots[n].Some? {
        InCaptured(slots[..n], slots[n].value);
        assert slots[n] !in slots[..n];
      }
    }
  }

  /** Adding or removing a sink changes what the table holds by exactly that sink. */
  lemma TableUpdate(em: Emission, a: Action)
    requires a.Add? || a.Remove?
    requires forall i, j :: 0 <= i < j < |em.slots| && em.slots[i].Some? ==> em.slots[i] != em.slots[j]
    requires forall x: SinkId :: Some(x) in em.slots <==> Registered(em.entries, x)
    ensures var em' := Updated(em, a);
            && (forall i, j :: 0 <= i < j < |em'.slots| && em'.slots[i].Some? ==> em'.slots[i] != em'.slots[j])
            && (forall x: SinkId :: Some(x) in em'.slots <==> Registered(em'.entries, x))
            && |em'.slots| == |em.slots|
            && (forall x: SinkId :: x != a.sink ==> (Some(x) in em'.slots <==> Some(x) in em.slots))
            && (a.Add? ==> (Some(a.sink) in em'.slots <==> Some(a.sink) in em.slots || None in em.slots))
            && (a.Remove? ==> Some(a.sink) !in em'.slots)
  {
    var em' := Updated(em, a);
    if em'.entries != em.entries {
      assert em'.entries[..|em'.entries| - 1] == em.entries;
      forall x: SinkId ensures Some(x) in em'.slots <==> Registered(em'.entries, x) {
        SlotChange(em.slots, em'.slots, a.sink, x);
      }
    }
  }

  lemma SlotChange(slots: seq<Option<SinkId>>, slots': seq<Option<SinkId>>, sink: SinkId, x: SinkId)
    requires forall i, j :: 0 <= i < j < |slots| && slots[i].Some? ==> slots[i] != slots[j]
    requires || (None in slots && Some(sink) !in slots && slots' == slots[FirstSlot(slots, None) := Some(sink)])
             || (Some(sink) in slots && slots' == slots[FirstSlot(slots, Some(sink)) := None])
    ensures x != sink ==> (Some(x) in slots' <==> Some(x) in slots)
    ensures Some(sink) in slots' <==> Some(sink) !in slots
  {
    var i := if Some(sink) in slots then FirstSlot(slots, Some(sink)) else FirstSlot(slots, None);
    assert slots'[i] != slots[i];
    if x != sink && Some(x) in slots {
      var j :| 0 <= j < |slots| && slots[j] == Some(x);
      assert slots'[j] == Some(x);
    }
  }

  lemma OneMoreTime(entries: seq<Entry>, e: Entry)
    ensures LastTime(entries + [e]) == if e.Packet? then e.time else LastTime(entries)
  {
    assert (entries + [e])[..|entries|] == entries;
  }

  /** The packet about to be streamed fits the history: number, time and captured sinks are right. */
  lemma PacketFits(em: Emission, th: Thread, clock: nat, max: MaxString)
    requires HolderValid(th, max) && NumbersOk(em, th) && TableOk(em, th) && LastTime(em.entries) <= clock
    requires th.stage.Numbered? && (th.todo[0].p.Dropped? ==> th.todo[0].p.count != 0)
    requires th.todo[0].queued ==> th.todo[0].p.Prebuilt?
    ensures EntryOk(em.entries, Packet(th.todo[0].p, th.stage.sinks, th.stage.number, clock, th.todo[0].queued), max)
  {
    hide LastTime, CountNumbered, Registered, Outgoing.Valid, IsNumbered, Captured, NoRepeats;
    CapturedOnce(em.slots);
    forall x: SinkId ensures x in th.stage.sinks <==> Registered(em.entries, x) { InCaptured(em.slots, x); }
  }

  lemma EntriesStep(em: Emission, th: Thread, clock: nat, max: MaxString)
    requires EmissionOk(em, th, clock, max)
    requires forall a :: a in th.todo && a.Emit? ==> (a.p.Dropped? ==> a.p.count != 0) && (a.queued ==> a.p.Prebuilt?)
    ensures EntriesOk(EmissionAfter(em, th, clock, max).entries, max)
    ensures LastTime(EmissionAfter(em, th, clock, max).entries) <= clock
  {
    hide TraceOk, NumbersOk, TableOk, EntriesOk, EntryOk, LastTime, Outgoing.Valid, Streamed, FirstSlot;
    var em' := EmissionAfter(em, th, clock, max);
    if em'.entries != em.entries {
      var e := em'.entries[|em.entries|];
      assert em'.entries == em.entries + [e];
      if e.Packet? {
        assert th.todo[0] in th.todo;
        PacketFits(em, th, clock, max);
      } else {
        TableEntryFits(em.entries, e, max);
      }
      EntriesGrow(em.entries, e, max);
      OneMoreTime(em.entries, e);
    }
  }

  lemma TableEntryFits(entries: seq<Entry>, e: Entry, max: MaxString)
    requires !e.Packet?
    ensures EntryOk(entries, e, max)
  {
  }

  /** A callback moves the first event still to be made to the end of the trace. */
  lemma CallbackStep(em: Emission, th: Thread, max: MaxString)
    requires TraceOk(em, th, max) && th.stage.Sending? && th.stage.rest != []
    ensures TraceOk(em.(trace := em.trace + [th.stage.rest[0]]), th.(stage := Sending(th.stage.rest[1..])), max)
  {
    hide EventsOf, EntryEvents, Outgoing.Valid;
    assert em.trace + [th.stage.rest[0]] + th.stage.rest[1..] == em.trace + th.stage.rest;
  }

  /** A new entry brings its events: all still to be made, or none if it only changes the table. */
  lemma EntryStep(em: Emission, th: Thread, e: Entry, th': Thread, max: MaxString)
    requires TraceOk(em, th, max) && Rest(th) == [] && (e.Packet? ==> e.p.Valid(max))
    requires Rest(th') == EntryEvents(e, max)
    ensures TraceOk(em.(entries := em.entries + [e]), th', max)
  {
    hide Streamed, Outgoing.Valid;
    var all := em.entries + [e];
    assert all[..|all| - 1] == em.entries;
  }

  lemma TraceStep(em: Emission, th: Thread, clock: nat, max: MaxString)
    requires HolderValid(th, max) && TraceOk(em, th, max)
    ensures TraceOk(EmissionAfter(em, th, clock, max), HolderAfter(em, th, clock, max), max)
  {
    var em' := EmissionAfter(em, th, clock, max);
    var th' := HolderAfter(em, th, clock, max);
    if th.stage.Sending? && th.stage.rest != [] {
      CallbackStep(em, th, max);
    } else if th.stage.Numbered? {
      hide Outgoing.Valid, TraceOk, Streamed;
      EntryStep(em, th, Packet(th.todo[0].p, th.stage.sinks, th.stage.number, clock, th.todo[0].queued), th', max);
    } else if th.stage.Updating? && em' != em {
      hide Outgoing.Valid, TraceOk;
      UpdatedAddsEntry(em, th.todo[0]);
      EntryStep(em, th, em'.entries[|em.entries|], th', max);
      TraceIgnoresTable(em.(entries := em'.entries), em', th', max);
    } else {
      TraceIgnoresTable(em, em', th', max);
    }
  }

  lemma UpdatedAddsEntry(em: Emission, a: Action)
    requires a.Add? || a.Remove?
    ensures var em' := Updated(em, a);
            em' != em ==> |em'.entries| == |em.entries| + 1 && em'.entries == em.entries + [em'.entries[|em.entries|]]
                          && !em'.entries[|em.entries|].Packet? && em'.trace == em.trace
  {
  }

  lemma TraceIgnoresTable(em: Emission, em': Emission, th: Thread, max: MaxString)
    requires TraceOk(em, th, max) && em'.entries == em.entries && em'.trace == em.trace
    ensures TraceOk(em', th, max)
  {
    hide EventsOf, EntryEvents, Outgoing.Valid;
  }

  lemma OneMoreNumbered(entries: seq<Entry>, e: Entry)
    ensures CountNumbered(entries + [e]) == CountNumbered(entries) + (if IsNumbered(e) then 1 else 0)
  {
    hide IsNumbered;
    assert (entries + [e])[..|entries|] == entries;
  }

  lemma ValidIsNumbered(e: Entry, max: MaxString)
    requires e.Packet? && e.p.Valid(max)
    ensures IsNumbered(e) <==> e.p.Numbered()
  {
  }

  lemma TakesNoNumber(e: Entry)
    requires !e.Packet?
    ensures !IsNumbered(e)
  {
  }

  lemma NumbersStep(em: Emission, th: Thread, clock: nat, max: MaxString)
    requires HolderValid(th, max) && NumbersOk(em, th)
    ensures NumbersOk(EmissionAfter(em, th, clock, max), HolderAfter(em, th, clock, max))
  {
    hide Streamed, CountNumbered, Outgoing.Valid, Outgoing.Numbered, IsNumbered, FirstSlot;
    if th.stage.Opened? || th.stage.Numbered? {
      ValidIsNumbered(Packet(th.todo[0].p, [], 0, 0, false), max);
    }
    var em' := EmissionAfter(em, th, clock, max);
    if em'.entries != em.entries {
      var e := em'.entries[|em.entries|];
      assert em'.entries == em.entries + [e];
      OneMoreNumbered(em.entries, e);
      if e.Packet? { ValidIsNumbered(e, max); } else { assert !IsNumbered(e) by { TakesNoNumber(e); } }
    }
  }

  lemma TableStep(em: Emission, th: Thread, clock: nat, max: MaxString)
    requires HolderValid(th, max) && TableOk(em, th)
    ensures TableOk(EmissionAfter(em, th, clock, max), HolderAfter(em, th, clock, max))
  {
    hide Streamed, Outgoing.Valid;
    var em' := EmissionAfter(em, th, clock, max);
    if th.stage.Updating? {
      TableUpdate(em, th.todo[0]);
    } else if em'.entries != em.entries {
      assert em'.entries[..|em.entries|] == em.entries;
    }
  }

  lemma EmissionStep(em: Emission, th: Thread, clock: nat, max: MaxString)
    requires EmissionOk(em, th, clock, max)
    requires forall a :: a in th.todo && a.Emit? ==> (a.p.Dropped? ==> a.p.count != 0) && (a.queued ==> a.p.Prebuilt?)
    ensures EmissionOk(EmissionAfter(em, th, clock, max), HolderAfter(em, th, clock, max), clock, max)
  {
    EntriesStep(em, th, clock, max);
    TraceStep(em, th, clock, max);
    NumbersStep(em, th, clock, max);
    TableStep(em, th, clock, max);
    hide EntriesOk, TraceOk, NumbersOk, TableOk, EmissionAfter, LastTime, Streamed, Outgoing.Valid;
  }

  // ---- Sums over threads ----

  function CountIn(a: Action): nat {
    if a.Emit? && a.p.Dropped? then a.p.count else 0
  }

  /** Drop counts taken out of the counter by these actions and not streamed yet. */
  function InFlight(todo: seq<Action>): nat {
    if todo == [] then 0 else CountIn(todo[0]) + InFlight(todo[1..])
  }

  function AllInFlight(threads: seq<Thread>): nat {
    if threads == [] then 0 else AllInFlight(threads[..|threads| - 1]) + InFlight(threads[|threads| - 1].todo)
  }

  /** Counts carried by the DROPPED packets streamed so far. */
  function Reported(entries: seq<Entry>): nat {
    if entries == [] then 0
    else
      var e := entries[|entries| - 1];
      Reported(entries[..|entries| - 1]) + (if e.Packet? && e.p.Dropped? then e.p.count else 0)
  }

  lemma {:induction false} InFlightUpdate(threads: seq<Thread>, t: nat, th: Thread)
    requires t < |threads|
    ensures AllInFlight(threads[t := th]) == AllInFlight(threads) - InFlight(threads[t].todo) + InFlight(th.todo)
  {
    hide InFlight;
    var n := |threads| - 1;
    if t == n {
      assert threads[t := th][..n] == threads[..n];
    } else {
      assert threads[t := th][..n] == threads[..n][t := th];
      InFlightUpdate(threads[..n], t, th);
    }
  }

  /** Packets from the queue that these actions still have to stream. */
  function InHand(todo: seq<Action>): seq<seq<Byte>> {
    if todo == [] then [] else HandOf(todo[0]) + InHand(todo[1..])
  }

  function HandOf(a: Action): seq<seq<Byte>> {
    if a.Emit? && a.queued && a.p.Prebuilt? then [a.p.packet] else []
  }

  lemma OneAction(a: Action)
    ensures InFlight([a]) == CountIn(a) && InHand([a]) == HandOf(a) && Tasks([a]) == TaskOf(a)
  {
    assert [a][1..] == [];
  }

  lemma TwoActions(a: Action, b: Action)
    ensures InFlight([a, b]) == CountIn(a) + CountIn(b) && InHand([a, b]) == HandOf(a) + HandOf(b)
    ensures Tasks([a, b]) == TaskOf(a) + TaskOf(b)
  {
    assert [a, b][1..] == [b];
    OneAction(b);
  }

  /** Packets from the queue that were streamed, in order. */
  function FromQueue(entries: seq<Entry>): seq<seq<Byte>> {
    if entries == [] then []
    else
      var e := entries[|entries| - 1];
      FromQueue(entries[..|entries| - 1]) + (if e.Packet? && e.queued && e.p.Prebuilt? then [e.p.packet] else [])
  }

  /** Packets these actions still have to stream, drop reports aside. */
  function Tasks(todo: seq<Action>): seq<Outgoing> {
    if todo == [] then [] else TaskOf(todo[0]) + Tasks(todo[1..])
  }

  function TaskOf(a: Action): seq<Outgoing> {
    if a.Emit? && !a.p.Dropped? then [a.p] else []
  }

  /** Packets thread t has streamed, drop reports aside. */
  function StreamedFor(entries: seq<Entry>, owners: seq<nat>, t: nat): seq<Outgoing>
    requires |owners| == |entries|
  {
    if entries == [] then []
    else
      var n := |entries| - 1;
      var e := entries[n];
      StreamedFor(entries[..n], owners[..n], t) + (if owners[n] == t && e.Packet? && !e.p.Dropped? then [e.p] else [])
  }

  function DrainTodo(threads: seq<Thread>): seq<Action> {
    if DRAIN < |threads| then threads[DRAIN].todo else []
  }

  // ---- The invariant of the whole machine ----

  /** The lock holder; an idle thread when the lock is free. */
  function Holder(s: State): Thread {
    if s.lock.Some? && s.lock.value < |s.threads| then s.threads[s.lock.value] else Thread([], Outside)
  }

  predicate Locked(s: State) {
    && (s.lock.Some? ==> s.lock.value < |s.threads|)
    && forall t :: 0 <= t < |s.threads| ==> (!s.threads[t].stage.Outside? <==> s.lock == Some(t))
  }

  ghost predicate ActionOk(a: Action, t: nat, max: MaxString) {
    match a
    case Emit(p, queued) => p.Valid(max) && (p.Dropped? ==> p.count != 0) && (queued ==> t == DRAIN && p.Prebuilt?)
    case Enqueue(packet) => Dispatchable(packet)
    case Receive => t == DRAIN
    case _ => true
  }

  ghost predicate TodoOk(todo: seq<Action>, t: nat, max: MaxString) {
    (forall a :: a in todo ==> ActionOk(a, t, max)) && (Receive in todo ==> |todo| == 1)
  }

  ghost predicate TodosOk(s: State) {
    forall t :: 0 <= t < |s.threads| ==> TodoOk(s.threads[t].todo, t, s.max)
  }

  predicate QueueOk(s: State) {
    forall packet :: packet in s.queue ==> Dispatchable(packet)
  }

  /** Drop conservation: every refusal was reported, is on its way to be, or is still counted. */
  predicate Conserved(s: State) {
    (s.refusals - Reported(s.em.entries) - AllInFlight(s.threads) - s.dropped) % WRAP == 0
  }

  /** FIFO: what the queue took was streamed in that order, is in the drain thread's hands, or is queued. */
  predicate Fifo(s: State) {
    s.accepted == FromQueue(s.em.entries) + InHand(DrainTodo(s.threads)) + s.queue
  }

  /** What a thread was given to stream, it has streamed in that order or still has to. */
  predicate Served(s: State) {
    && |s.asked| == |s.threads| && |s.owners| == |s.em.entries|
    && forall t :: 0 <= t < |s.threads| ==>
         s.asked[t] == StreamedFor(s.em.entries, s.owners, t) + Tasks(s.threads[t].todo)
  }

  ghost predicate Inv(s: State) {
    && s.chunkSize >= 1 && Locked(s) && TodosOk(s) && QueueOk(s)
    && EmissionOk(s.em, Holder(s), s.clock, s.max) && Conserved(s) && Fifo(s) && Served(s)
  }

  // ---- Steps ----

  function With(s: State, t: nat, todo: seq<Action>): State
    requires t < |s.threads|
  {
    s.(threads := s.threads[t := s.threads[t].(todo := todo)])
  }

  ghost function RequestStep(s: State, t: nat, c: Choice): State
    requires t < |s.threads| == |s.asked| && s.chunkSize >= 1
  {
    if c.Call? && RequestOk(c.r, s.max) && (c.r.DrainOne? ==> t == DRAIN) then
      var todo := Actions(c.r, s.max, s.chunkSize);
      With(s, t, todo).(asked := s.asked[t := s.asked[t] + Tasks(todo)])
    else s
  }

  /** Steps outside the lock. */
  function ActionStep(s: State, t: nat, granted: bool): State
    requires t < |s.threads| == |s.asked| && s.threads[t].todo != []
  {
    var rest := s.threads[t].todo[1..];
    match s.threads[t].todo[0]
    case Exchange => With(s, t, (if s.dropped != 0 then [Emit(Dropped(s.dropped), false)] else []) + rest).(dropped := 0)
    case Refuse => With(s, t, rest).(dropped := (s.dropped + 1) % WRAP, refusals := s.refusals + 1)
    case Enqueue(packet) =>
      if granted then With(s, t, rest).(queue := s.queue + [packet], accepted := s.accepted + [packet])
      else With(s, t, [Refuse] + rest)
    case Receive =>
      if s.queue == [] then s
      else
        var work := if Dispatchable(s.queue[0]) then [Exchange, Emit(Prebuilt(s.queue[0]), true)] else [];
        With(s, t, work + rest).(queue := s.queue[1..], asked := s.asked[t := s.asked[t] + Tasks(work)])
    case Emit(_, _) => if s.lock.None? then Take(s, t, Opened(Captured(s.em.slots))) else s
    case Add(_) => if s.lock.None? then Take(s, t, Updating) else s
    case Remove(_) => if s.lock.None? then Take(s, t, Updating) else s
  }

  function Take(s: State, t: nat, stage: Stage): State
    requires t < |s.threads|
  {
    s.(lock := Some(t), threads := s.threads[t := s.threads[t].(stage := stage)])
  }

  ghost function HolderStep(s: State, t: nat): State
    requires t < |s.threads| && HolderValid(s.threads[t], s.max)
  {
    var th := s.threads[t];
    var th' := HolderAfter(s.em, th, s.clock, s.max);
    var em' := EmissionAfter(s.em, th, s.clock, s.max);
    s.(em := em', threads := s.threads[t := th'], lock := if th'.stage.Outside? then None else s.lock,
       owners := if |em'.entries| > |s.em.entries| then s.owners + [t] else s.owners)
  }

  ghost function Next(s: State, turn: Turn): State
    requires Inv(s) && (turn.Step? ==> turn.t < |s.threads|)
  {
    match turn
    case Tick(n) => s.(clock := s.clock + n)
    case Step(t, c) =>
      if !s.threads[t].stage.Outside? then
        LockOf(s, t);
        HolderStep(s, t)
      else if s.threads[t].todo == [] then RequestStep(s, t, c)
      else ActionStep(s, t, c.Proceed? && c.granted)
  }

  // ---- Every step keeps the invariant ----

  lemma LockedUpdate(s: State, s': State, t: nat)
    requires t < |s.threads| && Locked(s) && |s'.threads| == |s.threads| && s'.threads == s.threads[t := s'.threads[t]]
    requires !s'.threads[t].stage.Outside? && s.threads[t].stage.Outside? ==> s.lock.None?
    requires s'.lock == if !s'.threads[t].stage.Outside? then Some(t)
                        else if !s.threads[t].stage.Outside? then None else s.lock
    ensures Locked(s')
  {
  }

  lemma TodosUpdate(s: State, s': State, t: nat)
    requires t < |s.threads| && TodosOk(s) && |s'.threads| == |s.threads| && s'.threads == s.threads[t := s'.threads[t]]
    requires s'.max == s.max && TodoOk(s'.threads[t].todo, t, s.max)
    ensures TodosOk(s')
  {
    hide TodoOk;
  }

  lemma TodoPrefix(head: seq<Action>, todo: seq<Action>, t: nat, max: MaxString)
    requires TodoOk(todo, t, max) && todo != [] && TodoOk(head, t, max) && Receive !in head
    ensures TodoOk(head + todo[1..], t, max) && TodoOk(todo[1..], t, max) && ActionOk(todo[0], t, max)
  {
    hide ActionOk;
    assert todo[0] in todo;
  }

  lemma TodoTail(todo: seq<Action>, t: nat, max: MaxString)
    requires TodoOk(todo, t, max) && todo != []
    ensures TodoOk(todo[1..], t, max) && ActionOk(todo[0], t, max)
  {
    hide ActionOk;
    assert todo[0] in todo;
  }

  lemma OutsideHolder(em: Emission, th: Thread, th': Thread, clock: nat, max: MaxString)
    requires EmissionOk(em, th, clock, max)
    requires th.stage.Outside? && th'.stage.Outside?
    ensures EmissionOk(em, th', clock, max)
  {
    hide EntriesOk, Captured, CountNumbered, Registered, EventsOf, LastTime;
  }

  /** Taking the lock captures the sinks as they are. */
  lemma LockTaken(em: Emission, th: Thread, th': Thread, clock: nat, max: MaxString)
    requires EmissionOk(em, th, clock, max) && th.stage.Outside? && th'.todo != []
    requires (th'.stage == Opened(Captured(em.slots)) && th'.todo[0].Emit? && th'.todo[0].p.Valid(max))
             || (th'.stage == Updating && (th'.todo[0].Add? || th'.todo[0].Remove?))
    ensures EmissionOk(em, th', clock, max)
  {
    hide EntriesOk, Captured, CountNumbered, Registered, EventsOf, LastTime, Outgoing.Valid;
  }

  lemma FirstAction(todo: seq<Action>)
    requires todo != []
    ensures InFlight(todo) == CountIn(todo[0]) + InFlight(todo[1..])
    ensures InHand(todo) == HandOf(todo[0]) + InHand(todo[1..]) && Tasks(todo) == TaskOf(todo[0]) + Tasks(todo[1..])
  {
  }

  lemma OneMoreEntry(entries: seq<Entry>, e: Entry)
    ensures Reported(entries + [e]) == Reported(entries) + (if e.Packet? && e.p.Dropped? then e.p.count else 0)
    ensures FromQueue(entries + [e])
            == FromQueue(entries) + (if e.Packet? && e.queued && e.p.Prebuilt? then [e.p.packet] else [])
  {
    assert (entries + [e])[..|entries|] == entries;
  }

  lemma OneMoreStreamed(entries: seq<Entry>, owners: seq<nat>, e: Entry, t: nat, u: nat)
    requires |owners| == |entries|
    ensures StreamedFor(entries + [e], owners + [t], u)
            == StreamedFor(entries, owners, u) + (if t == u && e.Packet? && !e.p.Dropped? then [e.p] else [])
  {
    assert (entries + [e])[..|entries|] == entries && (owners + [t])[..|owners|] == owners;
  }

  /** A step under the lock adds at most one entry: the packet the thread was about to stream, or a change to the table. */
  lemma HolderEntry(em: Emission, th: Thread, clock: nat, max: MaxString)
    requires HolderValid(th, max)
    ensures var em', th' := EmissionAfter(em, th, clock, max), HolderAfter(em, th, clock, max);
            || (em'.entries == em.entries && th'.todo == th.todo)
            || (th.todo != [] && th'.todo == th.todo[1..] && (th.todo[0].Add? || th.todo[0].Remove?)
                && em'.entries == em.entries)
            || (th.todo != [] && th'.todo == th.todo[1..] && |em'.entries| == |em.entries| + 1
                && var e := em'.entries[|em.entries|];
                   && em'.entries == em.entries + [e]
                   && if th.todo[0].Emit? then
                        e.Packet? && e.p == th.todo[0].p && e.queued == th.todo[0].queued
                      else !e.Packet? && (th.todo[0].Add? || th.todo[0].Remove?))
  {
    hide Streamed, Outgoing.Valid, FirstSlot;
  }

  /** Streaming a DROPPED packet turns a count in flight into a reported one; nothing else moves either. */
  lemma HolderMoves(em: Emission, th: Thread, clock: nat, max: MaxString)
    requires HolderValid(th, max)
    ensures var em', th' := EmissionAfter(em, th, clock, max), HolderAfter(em, th, clock, max);
            && Reported(em'.entries) + InFlight(th'.todo) == Reported(em.entries) + InFlight(th.todo)
            && FromQueue(em'.entries) + InHand(th'.todo) == FromQueue(em.entries) + InHand(th.todo)
            && (th'.todo == th.todo || (th.todo != [] && th'.todo == th.todo[1..]))
  {
    hide EmissionAfter, HolderAfter, HolderValid, Reported, FromQueue, InFlight, InHand, Tasks;
    HolderEntry(em, th, clock, max);
    var em' := EmissionAfter(em, th, clock, max);
    if th.todo != [] { FirstAction(th.todo); }
    if em'.entries != em.entries { OneMoreEntry(em.entries, em'.entries[|em.entries|]); }
  }

  /** The packet a thread streams is the next it was given; nobody else's move. */
  lemma HolderServes(s: State, t: nat)
    requires Inv(s) && t < |s.threads| && HolderValid(s.threads[t], s.max)
    ensures Served(HolderStep(s, t))
  {
    hide EmissionOk, EmissionAfter, HolderAfter, HolderValid, Locked, QueueOk, TodosOk, Conserved, Fifo, StreamedFor, Tasks;
    var th, s' := s.threads[t], HolderStep(s, t);
    HolderEntry(s.em, th, s.clock, s.max);
    if th.todo != [] { FirstAction(th.todo); }
    forall u | 0 <= u < |s.threads|
      ensures s'.asked[u] == StreamedFor(s'.em.entries, s'.owners, u) + Tasks(s'.threads[u].todo)
    {
      if s'.em.entries != s.em.entries { OneMoreStreamed(s.em.entries, s.owners, s'.em.entries[|s.em.entries|], t, u); }
    }
  }

  lemma NotFromQueue(em: Emission, th: Thread, clock: nat, max: MaxString, t: nat)
    requires HolderValid(th, max) && TodoOk(th.todo, t, max) && t != DRAIN
    ensures FromQueue(EmissionAfter(em, th, clock, max).entries) == FromQueue(em.entries)
  {
    hide Streamed, Outgoing.Valid;
    var em' := EmissionAfter(em, th, clock, max);
    if em'.entries != em.entries {
      assert em'.entries[..|em.entries|] == em.entries;
      assert th.todo[0] in th.todo;
    }
  }

  lemma HolderKeepsSums(s: State, t: nat)
    requires Inv(s) && t < |s.threads| && Holder(s) == s.threads[t] && HolderValid(s.threads[t], s.max)
    ensures Conserved(HolderStep(s, t)) && Fifo(HolderStep(s, t))
  {
    hide EmissionOk, EmissionAfter, HolderAfter, HolderValid, Locked, QueueOk, InFlight, AllInFlight, Reported, FromQueue,
      InHand, TodoOk;
    var th, s' := s.threads[t], HolderStep(s, t);
    HolderMoves(s.em, th, s.clock, s.max);
    InFlightUpdate(s.threads, t, s'.threads[t]);
    if t != DRAIN { NotFromQueue(s.em, th, s.clock, s.max, t); }
  }

  lemma TodosFor(s: State, t: nat)
    requires TodosOk(s) && t < |s.threads|
    ensures TodoOk(s.threads[t].todo, t, s.max)
    ensures forall a :: a in s.threads[t].todo && a.Emit? ==>
              (a.p.Dropped? ==> a.p.count != 0) && (a.queued ==> a.p.Prebuilt?)
  {
    forall a | a in s.threads[t].todo ensures ActionOk(a, t, s.max) { }
  }

  lemma HolderKeepsInv(s: State, t: nat)
    requires Inv(s) && t < |s.threads| && Holder(s) == s.threads[t] && s.lock == Some(t)
    requires HolderValid(s.threads[t], s.max)
    ensures Inv(HolderStep(s, t))
  {
    hide EmissionOk, EmissionAfter, HolderAfter, HolderValid, QueueOk, Conserved, Fifo, TodoOk, TodosOk, Served;
    var th, s' := s.threads[t], HolderStep(s, t);
    HolderKeepsSums(s, t);
    HolderServes(s, t);
    TodosFor(s, t);
    EmissionStep(s.em, th, s.clock, s.max);
    HolderMoves(s.em, th, s.clock, s.max);
    if th.todo != [] { TodoTail(th.todo, t, s.max); }
    TodosUpdate(s, s', t);
    if s'.threads[t].stage.Outside? {
      OutsideHolder(s'.em, s'.threads[t], Holder(s'), s.clock, s.max);
    }
    assert QueueOk(s') by { SameQueue(s, s'); }
  }

  lemma SameQueue(s: State, s': State)
    requires QueueOk(s) && s'.queue == s.queue
    ensures QueueOk(s')
  {
  }

  lemma ServedUpdate(s: State, s': State, t: nat, given: seq<Outgoing>)
    requires Served(s) && t < |s.threads| && |s'.threads| == |s.threads| && s'.threads == s.threads[t := s'.threads[t]]
    requires s'.em == s.em && |s'.asked| == |s.asked| && s'.asked == s.asked[t := s'.asked[t]] && s'.owners == s.owners
    requires s'.asked[t] == s.asked[t] + given && Tasks(s'.threads[t].todo) == Tasks(s.threads[t].todo) + given
    ensures Served(s')
  {
    hide StreamedFor, Tasks;
  }

  /** A step outside the lock that leaves alone what the lock protects; given is what the thread has to stream on top. */
  lemma OutsideKeepsInv(s: State, s': State, t: nat, given: seq<Outgoing>)
    requires Inv(s) && t < |s.threads| && s.threads[t].stage.Outside?
    requires |s'.threads| == |s.threads| && s'.threads == s.threads[t := s'.threads[t]] && s'.threads[t].stage.Outside?
    requires s'.em == s.em && s'.lock == s.lock && s'.max == s.max && s'.clock == s.clock && s'.chunkSize == s.chunkSize
    requires TodoOk(s'.threads[t].todo, t, s.max) && QueueOk(s')
    requires ((s'.refusals - s.refusals) - (s'.dropped - s.dropped)
              - (InFlight(s'.threads[t].todo) - InFlight(s.threads[t].todo))) % WRAP == 0
    requires Fifo(s')
    requires |s'.asked| == |s.asked| && s'.asked == s.asked[t := s'.asked[t]] && s'.owners == s.owners
    requires s'.asked[t] == s.asked[t] + given && Tasks(s'.threads[t].todo) == Tasks(s.threads[t].todo) + given
    ensures Inv(s')
  {
    hide EmissionOk, QueueOk, Fifo, TodoOk, TodosOk, InFlight, AllInFlight, Reported, Served, Tasks;
    ServedUpdate(s, s', t, given);
    LockedUpdate(s, s', t);
    TodosUpdate(s, s', t);
    InFlightUpdate(s.threads, t, s'.threads[t]);
    ModSum(s.refusals - Reported(s.em.entries) - AllInFlight(s.threads) - s.dropped,
           (s'.refusals - s.refusals) - (s'.dropped - s.dropped)
           - (InFlight(s'.threads[t].todo) - InFlight(s.threads[t].todo)));
    if s.lock == Some(t) { assert false; }
    assert Holder(s') == Holder(s);
  }

  lemma ModSum(a: int, b: int)
    requires a % WRAP == 0 && b % WRAP == 0
    ensures (a + b) % WRAP == 0
  {
  }

  /** The whole count goes to the thread that took it, and the counter starts again from zero. */
  lemma ExchangeKeepsInv(s: State, t: nat, granted: bool)
    requires Inv(s) && t < |s.threads| && s.threads[t].stage.Outside?
    requires s.threads[t].todo != [] && s.threads[t].todo[0].Exchange?
    ensures var s' := ActionStep(s, t, granted);
            && Inv(s') && s'.dropped == 0 && s'.refusals == s.refusals
            && AllInFlight(s'.threads) == AllInFlight(s.threads) + s.dropped
  {
    hide EmissionOk, TodosOk, Conserved, Locked, FromQueue, AllInFlight, Served;
    SameAsked(s);
    var s' := ActionStep(s, t, granted);
    var todo := s.threads[t].todo;
    var head := if s.dropped != 0 then [Emit(Dropped(s.dropped), false)] else [];
    TodosFor(s, t);
    TodoPrefix(head, todo, t, s.max);
    assert s'.threads[t].todo == head + todo[1..];
    assert head != [] ==> (head + todo[1..])[1..] == todo[1..];
    assert head == [] ==> head + todo[1..] == todo[1..];
    assert InHand(s'.threads[t].todo) == InHand(todo);
    assert InFlight(s'.threads[t].todo) == InFlight(todo) + s.dropped;
    assert Tasks(s'.threads[t].todo) == Tasks(todo);
    InFlightUpdate(s.threads, t, s'.threads[t]);
    OutsideKeepsInv(s, s', t, []);
  }

  lemma SameAsked(s: State)
    requires Served(s)
    ensures |s.asked| == |s.threads| && forall t :: 0 <= t < |s.asked| ==> s.asked == s.asked[t := s.asked[t]]
  {
    hide StreamedFor, Tasks;
  }

  /** A refusal is counted once, modulo 2^32. */
  lemma RefuseKeepsInv(s: State, t: nat, granted: bool)
    requires Inv(s) && t < |s.threads| && s.threads[t].stage.Outside?
    requires s.threads[t].todo != [] && s.threads[t].todo[0].Refuse?
    ensures var s' := ActionStep(s, t, granted);
            && Inv(s') && s'.refusals == s.refusals + 1 && s'.dropped == (s.dropped + 1) % WRAP
            && AllInFlight(s'.threads) == AllInFlight(s.threads)
  {
    hide EmissionOk, TodosOk, Conserved, Locked, FromQueue, AllInFlight, Served;
    SameAsked(s);
    var s' := ActionStep(s, t, granted);
    TodosFor(s, t);
    TodoPrefix([], s.threads[t].todo, t, s.max);
    InFlightUpdate(s.threads, t, s'.threads[t]);
    OutsideKeepsInv(s, s', t, []);
  }

  lemma EnqueueKeepsInv(s: State, t: nat, granted: bool)
    requires Inv(s) && t < |s.threads| && s.threads[t].stage.Outside?
    requires s.threads[t].todo != [] && s.threads[t].todo[0].Enqueue?
    ensures Inv(ActionStep(s, t, granted))
  {
    hide EmissionOk, TodosOk, Conserved, Locked, FromQueue, TodoOk, Served;
    SameAsked(s);
    var s' := ActionStep(s, t, granted);
    var todo := s.threads[t].todo;
    TodosFor(s, t);
    if granted {
      TodoTail(todo, t, s.max);
    } else {
      TodoPrefix([Refuse], todo, t, s.max) by { RefusalIsOk(t, s.max); }
      assert ([Refuse] + todo[1..])[1..] == todo[1..];
    }
    OutsideKeepsInv(s, s', t, []);
  }

  lemma RefusalIsOk(t: nat, max: MaxString)
    ensures TodoOk([Refuse], t, max)
  {
  }

  lemma ReceiveKeepsInv(s: State, t: nat, granted: bool)
    requires Inv(s) && t < |s.threads| && s.threads[t].stage.Outside?
    requires s.threads[t].todo != [] && s.threads[t].todo[0].Receive? && s.queue != []
    ensures Inv(ActionStep(s, t, granted))
  {
    hide EmissionOk, TodosOk, Conserved, Locked, FromQueue, Served, InFlight, AllInFlight, InHand, Tasks;
    SameAsked(s);
    var s' := ActionStep(s, t, granted);
    TodosFor(s, t);
    assert Receive in s.threads[t].todo && ActionOk(Receive, t, s.max);
    assert s.queue[0] in s.queue;
    var work := [Exchange, Emit(Prebuilt(s.queue[0]), true)];
    assert s.threads[t].todo == [Receive] && s'.threads[t].todo == work;
    TwoActions(Exchange, Emit(Prebuilt(s.queue[0]), true));
    OneAction(Receive);
    OutsideKeepsInv(s, s', t, Tasks(work));
  }

  lemma TakeKeepsInv(s: State, t: nat, stage: Stage)
    requires Inv(s) && t < |s.threads| && s.threads[t].stage.Outside? && s.threads[t].todo != [] && s.lock.None?
    requires var a := s.threads[t].todo[0];
             (stage == Opened(Captured(s.em.slots)) && a.Emit?) || (stage == Updating && (a.Add? || a.Remove?))
    ensures Inv(Take(s, t, stage))
  {
    hide EmissionOk, TodosOk, InFlight, AllInFlight, Reported, FromQueue, InHand, Captured, Outgoing.Valid, StreamedFor,
      Tasks;
    var s' := Take(s, t, stage);
    TodosFor(s, t);
    assert ActionOk(s.threads[t].todo[0], t, s.max) by { TodoPrefix([], s.threads[t].todo, t, s.max); }
    LockedUpdate(s, s', t);
    TodosUpdate(s, s', t);
    InFlightUpdate(s.threads, t, s'.threads[t]);
    LockTaken(s.em, Holder(s), s'.threads[t], s.clock, s.max);
  }

  lemma ActionKeepsInv(s: State, t: nat, granted: bool)
    requires Inv(s) && t < |s.threads| && s.threads[t].stage.Outside? && s.threads[t].todo != []
    ensures Inv(ActionStep(s, t, granted))
  {
    hide Inv, Captured;
    match s.threads[t].todo[0] {
      case Exchange => ExchangeKeepsInv(s, t, granted);
      case Refuse => RefuseKeepsInv(s, t, granted);
      case Enqueue(_) => EnqueueKeepsInv(s, t, granted);
      case Receive => if s.queue != [] { ReceiveKeepsInv(s, t, granted); }
      case Emit(_, _) => if s.lock.None? { TakeKeepsInv(s, t, Opened(Captured(s.em.slots))); }
      case Add(_) => if s.lock.None? { TakeKeepsInv(s, t, Updating); }
      case Remove(_) => if s.lock.None? { TakeKeepsInv(s, t, Updating); }
    }
  }

  // ---- Requests ----

  lemma {:induction false} EmitsAreOk(ps: seq<Outgoing>, t: nat, max: MaxString)
    requires forall p :: p in ps ==> p.Valid(max) && !p.Dropped?
    ensures TodoOk(Emits(ps), t, max) && InFlight(Emits(ps)) == 0 && InHand(Emits(ps)) == []
    ensures Receive !in Emits(ps)
  {
    hide Outgoing.Valid;
    if ps != [] {
      EmitsAreOk(ps[1..], t, max);
      assert Emits(ps)[1..] == Emits(ps[1..]);
    }
  }

  /** What a request puts on the list is valid, carries no count and nothing from the queue. */
  lemma RequestIsOk(r: Request, t: nat, max: MaxString, chunkSize: nat)
    requires RequestOk(r, max) && chunkSize >= 1 && (r.DrainOne? ==> t == DRAIN)
    ensures var todo := Actions(r, max, chunkSize); TodoOk(todo, t, max) && InFlight(todo) == 0 && InHand(todo) == []
  {
    hide BufferParts, LogPayload, Fits, Encoder.IsrPacket, BufferFits, Encoder.IsrSafe, Emits, Reassembled, InFlight, InHand;
    var todo := Actions(r, max, chunkSize);
    if r.WriteBuffer? && Acceptable(r.buffer) && BufferFits(r.tag, max, chunkSize) {
      var parts := BufferParts(r.level, r.tag, Readable(r.buffer), max, chunkSize);
      BufferArrivesWhole(r.level, r.tag, Readable(r.buffer), max, chunkSize);
      forall p | p in parts ensures p.BufferPart? { }
      EmitsAreOk(parts, t, max);
      assert todo[1..] == Emits(parts);
      FirstAction(todo);
    } else {
      if r.WriteIsr? && todo[0].Enqueue? { IsrPacketIsDispatchable(r.call, max, r.time); }
      FewActions(todo);
    }
  }

  lemma FewActions(todo: seq<Action>)
    requires |todo| <= 2 && forall i :: 0 <= i < |todo| ==> CountIn(todo[i]) == 0 && HandOf(todo[i]) == []
    ensures InFlight(todo) == 0 && InHand(todo) == []
  {
    hide InFlight, InHand, CountIn, HandOf, Tasks, TaskOf;
    NoTasks();
    if |todo| == 2 {
      TwoActions(todo[0], todo[1]);
      assert todo == [todo[0], todo[1]];
    } else if |todo| == 1 {
      OneAction(todo[0]);
      assert todo == [todo[0]];
    }
  }

  lemma NoTasks()
    ensures Tasks([]) == [] && InFlight([]) == 0 && InHand([]) == []
  {
  }

  /** The drain thread's dispatch never rejects a packet built in an interrupt. */
  lemma IsrPacketIsDispatchable(c: LogCall, max: MaxString, time: U32)
    requires c.Valid(max) && |LogPayload(c, max)| <= PAYLOAD_LEN_MAX
    ensures Dispatchable(Encoder.IsrPacket(c, max, time))
  {
    hide LogPayload, Locate, LogCall.Valid;
  }

  lemma RequestKeepsInv(s: State, t: nat, c: Choice)
    requires Inv(s) && t < |s.threads| && s.threads[t].stage.Outside? && s.threads[t].todo == []
    ensures Inv(RequestStep(s, t, c))
  {
    hide EmissionOk, TodosOk, Conserved, Locked, FromQueue, Actions, RequestOk, Served, Tasks, InFlight, InHand,
      AllInFlight, QueueOk, TodoOk;
    SameAsked(s);
    if c.Call? && RequestOk(c.r, s.max) && (c.r.DrainOne? ==> t == DRAIN) {
      RequestIsOk(c.r, t, s.max, s.chunkSize);
      NoTasks();
      SameQueue(s, RequestStep(s, t, c));
      OutsideKeepsInv(s, RequestStep(s, t, c), t, Tasks(Actions(c.r, s.max, s.chunkSize)));
    }
  }

  lemma TickKeepsInv(s: State, n: nat)
    requires Inv(s)
    ensures Inv(s.(clock := s.clock + n))
  {
    hide TraceOk, EntriesOk, TableOk, TodoOk, InFlight, AllInFlight, Reported, FromQueue, InHand, CountNumbered, StreamedFor,
      Tasks;
  }

  lemma LockOf(s: State, t: nat)
    requires Inv(s) && t < |s.threads| && !s.threads[t].stage.Outside?
    ensures s.lock == Some(t) && Holder(s) == s.threads[t] && HolderValid(s.threads[t], s.max)
  {
    hide EntriesOk, TraceOk, NumbersOk, TableOk, TodosOk, Conserved, Fifo, HolderValid, Served;
  }

  lemma NextKeepsInv(s: State, turn: Turn)
    requires Inv(s) && (turn.Step? ==> turn.t < |s.threads|)
    ensures Inv(Next(s, turn)) && |Next(s, turn).threads| == |s.threads|
  {
    hide Inv, HolderAfter, EmissionAfter, HolderValid, Actions, Captured;
    match turn
    case Tick(n) => TickKeepsInv(s, n);
    case Step(t, c) =>
      if !s.threads[t].stage.Outside? {
        LockOf(s, t);
        HolderKeepsInv(s, t);
      } else if s.threads[t].todo == [] {
        RequestKeepsInv(s, t, c);
      } else {
        ActionKeepsInv(s, t, c.Proceed? && c.granted);
      }
  }

  // ---- Runs ----

  predicate IsInitial(s: State) {
    && s.chunkSize >= 1 && s.lock.None? && s.dropped == 0 && s.queue == [] && s.refusals == 0 && s.accepted == []
    && (forall t :: 0 <= t < |s.threads| ==> s.threads[t] == Thread([], Outside))
    && s.em.seqNo == 0 && s.em.entries == [] && s.em.trace == [] && s.owners == []
    && |s.asked| == |s.threads| && (forall t :: 0 <= t < |s.asked| ==> s.asked[t] == [])
    && forall i :: 0 <= i < |s.em.slots| ==> s.em.slots[i] == None
  }

  lemma InitialInv(s: State)
    requires IsInitial(s)
    ensures Inv(s)
  {
    NothingInFlight(s.threads);
    assert forall x: SinkId :: Some(x) !in s.em.slots;
  }

  lemma {:induction false} NothingInFlight(threads: seq<Thread>)
    requires forall t :: 0 <= t < |threads| ==> threads[t].todo == []
    ensures AllInFlight(threads) == 0
  {
    if threads != [] { NothingInFlight(threads[..|threads| - 1]); }
  }

  ghost predicate Runs(s: State, turns: seq<Turn>) {
    forall i :: 0 <= i < |turns| && turns[i].Step? ==> turns[i].t < |s.threads|
  }

  /** Any turns in any order. */
  ghost function Run(s: State, turns: seq<Turn>): (r: State)
    requires Inv(s) && Runs(s, turns)
    ensures Inv(r) && |r.threads| == |s.threads|
    decreases |turns|
  {
    if turns == [] then s
    else
      NextKeepsInv(s, turns[0]);
      Run(Next(s, turns[0]), turns[1..])
  }

  // ---- What each sink sees ----

  function CallsTo(events: seq<Event>, x: SinkId): seq<Call> {
    if events == [] then []
    else (if events[0].sink == x then [events[0].call] else []) + CallsTo(events[1..], x)
  }

  lemma {:induction false} CallsToAppend(a: seq<Event>, b: seq<Event>, x: SinkId)
    ensures CallsTo(a + b, x) == CallsTo(a, x) + CallsTo(b, x)
  {
    if a == [] {
      assert a + b == b;
    } else {
      var first := if a[0].sink == x then [a[0].call] else [];
      assert (a + b)[0] == a[0] && (a + b)[1..] == a[1..] + b;
      CallsToAppend(a[1..], b, x);
      assert CallsTo(a + b, x) == first + (CallsTo(a[1..], x) + CallsTo(b, x));
    }
  }

  lemma {:induction false} OneCallEach(sinks: seq<SinkId>, call: Call, x: SinkId)
    requires NoRepeats(sinks)
    ensures CallsTo(ToAll(sinks, call), x) == if x in sinks then [call] else []
  {
    if sinks != [] {
      assert ToAll(sinks, call)[1..] == ToAll(sinks[1..], call);
      OneCallEach(sinks[1..], call, x);
    }
  }

  lemma {:induction false} AllCallsEach(sinks: seq<SinkId>, calls: seq<Call>, x: SinkId)
    requires NoRepeats(sinks)
    ensures CallsTo(Broadcast(sinks, calls), x) == if x in sinks then calls else []
  {
    hide CallsTo, ToAll, NoRepeats;
    if calls == [] {
      assert CallsTo([], x) == [] by { NoEvents(x); }
    } else {
      CallsToAppend(ToAll(sinks, calls[0]), Broadcast(sinks, calls[1..]), x);
      OneCallEach(sinks, calls[0], x);
      AllCallsEach(sinks, calls[1..], x);
      assert calls == [calls[0]] + calls[1..];
    }
  }

  lemma NoEvents(x: SinkId)
    ensures CallsTo([], x) == []
  {
  }

  /** The callbacks of one packet, for a sink that was captured. */
  ghost function GroupOf(e: Entry, x: SinkId, max: MaxString): seq<Call>
    requires e.Packet? ==> e.p.Valid(max)
  {
    if e.Packet? && x in e.sinks then
      PacketCalls(HeaderFor(e.p, max, e.number % 0x1_0000, e.time % WRAP), Chunks(e.p, max))
    else []
  }

  ghost function Groups(entries: seq<Entry>, x: SinkId, max: MaxString): seq<Call>
    requires forall e :: e in entries && e.Packet? ==> e.p.Valid(max)
  {
    if entries == [] then [] else Groups(entries[..|entries| - 1], x, max) + GroupOf(entries[|entries| - 1], x, max)
  }

  lemma EntryCalls(e: Entry, x: SinkId, max: MaxString)
    requires e.Packet? ==> e.p.Valid(max) && NoRepeats(e.sinks)
    ensures CallsTo(EntryEvents(e, max), x) == GroupOf(e, x, max)
  {
    hide Broadcast, PacketEvents, PacketCalls, HeaderFor, Chunks, Outgoing.Valid, NoRepeats;
    if e.Packet? {
      var header := HeaderFor(e.p, max, e.number % 0x1_0000, e.time % WRAP);
      PacketEventsAreCalls(e.sinks, header, Chunks(e.p, max));
      AllCallsEach(e.sinks, PacketCalls(header, Chunks(e.p, max)), x);
    }
  }

  lemma {:induction false} GroupsAreCalls(entries: seq<Entry>, x: SinkId, max: MaxString)
    requires forall e :: e in entries && e.Packet? ==> e.p.Valid(max) && NoRepeats(e.sinks)
    ensures CallsTo(EventsOf(entries, max), x) == Groups(entries, x, max)
  {
    hide EntryEvents, GroupOf, Outgoing.Valid, NoRepeats;
    if entries != [] {
      var n := |entries| - 1;
      GroupsAreCalls(entries[..n], x, max);
      CallsToAppend(EventsOf(entries[..n], max), EntryEvents(entries[n], max), x);
      EntryCalls(entries[n], x, max);
    }
  }

  lemma EntriesAreValid(entries: seq<Entry>, max: MaxString)
    requires EntriesOk(entries, max)
    ensures forall e :: e in entries && e.Packet? ==> e.p.Valid(max) && NoRepeats(e.sinks)
  {
    forall e | e in entries && e.Packet? ensures e.p.Valid(max) && NoRepeats(e.sinks) {
      var k :| 0 <= k < |entries| && entries[k] == e;
      assert EntryOk(entries[..k], entries[k], max);
    }
  }

  /**
   * In every reachable state each sink has been called in whole start, payload*, end groups, one for every packet
   * streamed while it was registered, in order; only the last can be incomplete, and not while the lock is free.
   */
  lemma SinksSeeWholePackets(s: State, x: SinkId)
    requires Inv(s)
    ensures forall e :: e in s.em.entries && e.Packet? ==> e.p.Valid(s.max)
    ensures CallsTo(s.em.trace, x) + CallsTo(Rest(Holder(s)), x) == Groups(s.em.entries, x, s.max)
    ensures var n := |s.em.entries|;
            n > 0 ==> Groups(s.em.entries[..n - 1], x, s.max) <= CallsTo(s.em.trace, x)
    ensures s.lock.None? ==> CallsTo(s.em.trace, x) == Groups(s.em.entries, x, s.max)
  {
    EntriesAreValid(s.em.entries, s.max);
    GroupsAreCalls(s.em.entries, x, s.max);
    CallsToAppend(s.em.trace, Rest(Holder(s)), x);
    if s.em.entries != [] {
      LastGroup(s, x);
    }
    hide EntriesOk, CallsTo, Groups, EventsOf, EntryEvents, NumbersOk, TableOk, Locked, TodosOk;
    if s.lock.None? { NoEvents(x); }
  }

  lemma LastGroup(s: State, x: SinkId)
    requires Inv(s) && s.em.entries != []
    requires forall e :: e in s.em.entries && e.Packet? ==> e.p.Valid(s.max) && NoRepeats(e.sinks)
    ensures Groups(s.em.entries[..|s.em.entries| - 1], x, s.max) <= CallsTo(s.em.trace, x)
  {
    hide EntriesOk, NumbersOk, TableOk, Locked, TodosOk, CallsTo, GroupOf, Groups, Outgoing.Valid, NoRepeats, EntryEvents;
    var n := |s.em.entries| - 1;
    var front, last := EventsOf(s.em.entries[..n], s.max), EntryEvents(s.em.entries[n], s.max);
    var rest := Rest(Holder(s));
    assert s.em.trace + rest == front + last && |rest| <= |last|;
    var begun := s.em.trace[|front|..];
    assert s.em.trace == (front + last)[..|s.em.trace|] && front == (front + last)[..|front|];
    assert s.em.trace == front + begun;
    CallsToAppend(front, begun, x);
    GroupsAreCalls(s.em.entries[..n], x, s.max);
  }

  // ---- Numbers and times ----

  /** The numbers of the packets in the TIME_SYNC-free sequence that a sink was given in entries[i..j]. */
  function NumbersSeen(entries: seq<Entry>, x: SinkId, i: nat, j: nat): seq<nat>
    requires i <= j <= |entries|
    decreases j
  {
    if i == j then []
    else
      var e := entries[j - 1];
      NumbersSeen(entries, x, i, j - 1) + (if IsNumbered(e) && x in e.sinks then [e.number] else [])
  }

  /** The sink was registered whenever one of entries[i..j] was made. */
  predicate RegisteredThroughout(entries: seq<Entry>, x: SinkId, i: nat, j: nat)
    requires i <= j <= |entries|
  {
    forall k :: i <= k < j ==> Registered(entries[..k], x)
  }

  lemma NumbersSeenStep(entries: seq<Entry>, x: SinkId, i: nat, j: nat, max: MaxString)
    requires EntriesOk(entries, max) && i < j <= |entries| && Registered(entries[..j - 1], x)
    ensures var before := CountNumbered(entries[..j - 1]);
            && NumbersSeen(entries, x, i, j)
               == NumbersSeen(entries, x, i, j - 1) + (if IsNumbered(entries[j - 1]) then [before] else [])
            && CountNumbered(entries[..j]) == before + (if IsNumbered(entries[j - 1]) then 1 else 0)
  {
    hide LastTime, NoRepeats, Registered, Outgoing.Valid, Outgoing.Numbered;
    assert entries[..j][..j - 1] == entries[..j - 1];
    assert EntryOk(entries[..j - 1], entries[j - 1], max);
  }

  /** While a sink is registered it sees every sequence number, each once and in order; headers carry them modulo 2^16. */
  lemma {:induction false} NumbersAreConsecutive(entries: seq<Entry>, x: SinkId, i: nat, j: nat, max: MaxString)
    requires EntriesOk(entries, max) && i <= j <= |entries| && RegisteredThroughout(entries, x, i, j)
    ensures var seen := NumbersSeen(entries, x, i, j);
            && |seen| == CountNumbered(entries[..j]) - CountNumbered(entries[..i])
            && forall m :: 0 <= m < |seen| ==> seen[m] == CountNumbered(entries[..i]) + m
    decreases j
  {
    hide EntriesOk, IsNumbered, Registered, CountNumbered;
    if i < j {
      NumbersAreConsecutive(entries, x, i, j - 1, max);
      NumbersSeenStep(entries, x, i, j, max);
    }
  }

  lemma HeaderCarriesNumber(p: Outgoing, max: MaxString, number: U16, time: U32)
    requires p.Valid(max) && p.Numbered()
    ensures FromLe16(HeaderFor(p, max, number, time)[2..4]) == number
  {
    hide Le32, LogPayload, WireStrBytes, Locate, LogCall.Valid, Fits;
  }

  /** A sink that is not registered gets nothing, one that is gets everything. */
  lemma CapturedIffRegistered(s: State, k: nat, x: SinkId)
    requires Inv(s) && k < |s.em.entries| && s.em.entries[k].Packet?
    ensures x in s.em.entries[k].sinks <==> Registered(s.em.entries[..k], x)
    ensures Some(x) in s.em.slots <==> Registered(s.em.entries, x)
  {
    assert EntryOk(s.em.entries[..k], s.em.entries[k], s.max);
  }

  lemma {:induction false} LastTimeCovers(entries: seq<Entry>, i: nat, j: nat, max: MaxString)
    requires EntriesOk(entries, max) && i < j <= |entries| && entries[i].Packet?
    ensures entries[i].time <= LastTime(entries[..j])
    decreases j
  {
    hide CountNumbered, Registered, NoRepeats, Outgoing.Valid, IsNumbered;
    assert entries[..j][..j - 1] == entries[..j - 1];
    if i < j - 1 {
      LastTimeCovers(entries, i, j - 1, max);
      assert EntryOk(entries[..j - 1], entries[j - 1], max);
    }
  }

  /** Times read under the lock never go back, whatever the headers' 32 bits wrap to. */
  lemma TimesNeverGoBack(entries: seq<Entry>, i: nat, j: nat, max: MaxString)
    requires EntriesOk(entries, max) && i < j < |entries| && entries[i].Packet? && entries[j].Packet?
    ensures entries[i].time <= entries[j].time
  {
    hide CountNumbered, Registered, NoRepeats, Outgoing.Valid, LastTime;
    LastTimeCovers(entries, i, j, max);
    assert EntryOk(entries[..j], entries[j], max);
  }

  // ---- A removed sink stays silent ----

  /** Time that passes over some turns. */
  function Elapsed(turns: seq<Turn>): nat {
    if turns == [] then 0 else (if turns[0].Tick? then turns[0].n else 0) + Elapsed(turns[1..])
  }

  lemma StepEntries(s: State, turn: Turn)
    requires Inv(s) && (turn.Step? ==> turn.t < |s.threads|)
    ensures var r := Next(s, turn);
            && r.clock == s.clock + (if turn.Tick? then turn.n else 0)
            && (r.em.entries == s.em.entries
                || (turn.Step? && |r.em.entries| == |s.em.entries| + 1 && r.em.entries[..|s.em.entries|] == s.em.entries
                    && (r.em.entries[|s.em.entries|].Packet? ==> r.em.entries[|s.em.entries|].time == s.clock)))
  {
    hide Inv, HolderValid, RequestOk, Actions, Streamed, FirstSlot, Tasks, Dispatchable;
    if turn.Step? {
      ThreadsAsked(s);
      if !s.threads[turn.t].stage.Outside? { LockOf(s, turn.t); }
    }
  }

  lemma {:induction false} EntriesStay(s: State, turns: seq<Turn>)
    requires Inv(s) && Runs(s, turns)
    ensures |s.em.entries| <= |Run(s, turns).em.entries| && Run(s, turns).em.entries[..|s.em.entries|] == s.em.entries
    decreases |turns|
  {
    hide Inv, Next;
    if turns != [] {
      NextKeepsInv(s, turns[0]);
      StepEntries(s, turns[0]);
      var s' := Next(s, turns[0]);
      EntriesStay(s', turns[1..]);
      assert s.em.entries == s'.em.entries[..|s.em.entries|] == Run(s', turns[1..]).em.entries[..|s.em.entries|];
    }
  }

  /** Each packet's time is the reading of the clock at the turn that stamped it: what had passed by then, to the tick. */
  lemma {:induction false} TimesAreReadings(s: State, turns: seq<Turn>, k: nat) returns (j: nat)
    requires Inv(s) && Runs(s, turns) && |s.em.entries| <= k < |Run(s, turns).em.entries|
    ensures j < |turns| && turns[j].Step? && Runs(s, turns[..j]) && |Run(s, turns[..j]).em.entries| == k
    ensures Runs(s, turns[..j + 1]) && |Run(s, turns[..j + 1]).em.entries| == k + 1
    ensures var e := Run(s, turns).em.entries[k]; e.Packet? ==> e.time == s.clock + Elapsed(turns[..j])
    decreases |turns|
  {
    hide Inv, Next;
    NextKeepsInv(s, turns[0]);
    StepEntries(s, turns[0]);
    var s', rest := Next(s, turns[0]), turns[1..];
    EntriesStay(s', rest);
    if k < |s'.em.entries| {
      j := 0;
      assert Run(s, turns).em.entries[k] == s'.em.entries[k] && turns[..1][1..] == [];
    } else {
      var i := TimesAreReadings(s', rest, k);
      j := i + 1;
      assert turns[..j][1..] == rest[..i] && turns[..j + 1][1..] == rest[..i + 1];
    }
  }

  /** Sink x is not registered, not about to be, and not part of the packet in flight. */
  ghost predicate Silent(s: State, x: SinkId) {
    && Some(x) !in s.em.slots
    && (forall t :: 0 <= t < |s.threads| ==> Add(x) !in s.threads[t].todo && StageSilent(s.threads[t].stage, x))
  }

  predicate StageSilent(stage: Stage, x: SinkId) {
    match stage
    case Opened(sinks) => x !in sinks
    case Numbered(sinks, _) => x !in sinks
    case Sending(rest) => CallsTo(rest, x) == []
    case _ => true
  }

  predicate Asks(turn: Turn, x: SinkId) {
    turn.Step? && turn.c == Call(AddSink(x))
  }

  lemma HolderStaysSilent(em: Emission, th: Thread, clock: nat, max: MaxString, x: SinkId)
    requires EmissionOk(em, th, clock, max) && Some(x) !in em.slots && Add(x) !in th.todo && StageSilent(th.stage, x)
    ensures var em', th' := EmissionAfter(em, th, clock, max), HolderAfter(em, th, clock, max);
            && Some(x) !in em'.slots && Add(x) !in th'.todo && StageSilent(th'.stage, x)
            && CallsTo(em'.trace, x) == CallsTo(em.trace, x)
  {
    hide EntriesOk, TraceOk, NumbersOk, Streamed, Broadcast;
    var em', th' := EmissionAfter(em, th, clock, max), HolderAfter(em, th, clock, max);
    if th.stage.Sending? && th.stage.rest != [] {
      CallsToAppend(em.trace, [th.stage.rest[0]], x);
    } else if th.stage.Numbered? {
      StreamedIsSilent(em, th, clock, max, x);
    } else if th.stage.Updating? {
      assert th.todo[0] in th.todo;
      SlotOrTheOthers(em, th.todo[0], x);
    }
  }

  lemma SlotOrTheOthers(em: Emission, a: Action, x: SinkId)
    requires (a.Add? || a.Remove?) && a != Add(x) && Some(x) !in em.slots
    ensures Some(x) !in Updated(em, a).slots
  {
  }

  lemma StreamedIsSilent(em: Emission, th: Thread, clock: nat, max: MaxString, x: SinkId)
    requires TableOk(em, th) && HolderValid(th, max) && th.stage.Numbered? && x !in th.stage.sinks
    ensures CallsTo(Streamed(th.stage.sinks, th.todo[0].p, max, th.stage.number, clock % WRAP), x) == []
  {
    hide Broadcast, PacketEvents, PacketCalls, HeaderFor, Chunks, Outgoing.Valid;
    CapturedOnce(em.slots);
    var e := Packet(th.todo[0].p, th.stage.sinks, th.stage.number, clock, false);
    EntryCalls(e, x, max);
  }

  lemma HolderIsSilent(s: State, t: nat, x: SinkId)
    requires Inv(s) && t < |s.threads| && !s.threads[t].stage.Outside? && Silent(s, x) && HolderValid(s.threads[t], s.max)
    ensures Silent(HolderStep(s, t), x) && CallsTo(HolderStep(s, t).em.trace, x) == CallsTo(s.em.trace, x)
  {
    LockOf(s, t);
    hide HolderAfter, EmissionAfter, HolderValid, StageSilent, CallsTo, EmissionOk, TodosOk, Served, Locked;
    HolderStaysSilent(s.em, s.threads[t], s.clock, s.max, x);
  }

  lemma RequesterIsSilent(s: State, t: nat, c: Choice, x: SinkId)
    requires t < |s.threads| == |s.asked| && s.chunkSize >= 1 && s.threads[t].stage.Outside? && s.threads[t].todo == []
    requires Silent(s, x) && c != Call(AddSink(x))
    ensures Silent(RequestStep(s, t, c), x) && RequestStep(s, t, c).em == s.em
  {
    hide StageSilent, CallsTo, Actions, Tasks;
    if c.Call? && RequestOk(c.r, s.max) { RequestIsSilent(c.r, s.max, s.chunkSize, x); }
  }

  lemma SilentStep(s: State, turn: Turn, x: SinkId)
    requires Inv(s) && (turn.Step? ==> turn.t < |s.threads|) && Silent(s, x) && !Asks(turn, x)
    ensures Silent(Next(s, turn), x) && CallsTo(Next(s, turn).em.trace, x) == CallsTo(s.em.trace, x)
  {
    hide Inv, StageSilent, CallsTo, HolderStep, HolderValid, RequestStep, ActionStep;
    if turn.Step? {
      var t := turn.t;
      ThreadsAsked(s);
      if !s.threads[t].stage.Outside? {
        LockOf(s, t);
        HolderIsSilent(s, t, x);
      } else if s.threads[t].todo == [] {
        RequesterIsSilent(s, t, turn.c, x);
      } else {
        ActionIsSilent(s, t, turn.c.Proceed? && turn.c.granted, x);
      }
    }
  }

  lemma ThreadsAsked(s: State)
    requires Inv(s)
    ensures |s.asked| == |s.threads| && s.chunkSize >= 1
  {
    hide EmissionOk, TodosOk, Conserved, Fifo, StreamedFor, Tasks, Locked, QueueOk;
  }

  lemma RequestIsSilent(r: Request, max: MaxString, chunkSize: nat, x: SinkId)
    requires RequestOk(r, max) && chunkSize >= 1 && r != AddSink(x)
    ensures Add(x) !in Actions(r, max, chunkSize)
  {
    hide BufferParts, LogPayload, Fits, Encoder.IsrPacket, BufferFits, Encoder.IsrSafe;
    if r.WriteBuffer? && Acceptable(r.buffer) && BufferFits(r.tag, max, chunkSize) {
      EmitsAreEmits(BufferParts(r.level, r.tag, Readable(r.buffer), max, chunkSize));
    }
  }

  lemma {:induction false} EmitsAreEmits(ps: seq<Outgoing>)
    ensures forall a :: a in Emits(ps) ==> a.Emit?
  {
    if ps != [] { EmitsAreEmits(ps[1..]); }
  }

  lemma ActionIsSilent(s: State, t: nat, granted: bool, x: SinkId)
    requires t < |s.threads| == |s.asked| && s.threads[t].todo != [] && s.threads[t].stage.Outside? && Silent(s, x)
    ensures Silent(ActionStep(s, t, granted), x) && ActionStep(s, t, granted).em == s.em
  {
    hide StageSilent, CallsTo, Tasks, Captured;
    InCaptured(s.em.slots, x);
    assert StageSilent(Opened(Captured(s.em.slots)), x) && StageSilent(Updating, x) by { OpenedIsSilent(s.em.slots, x); }
    LessToAdd(s.threads[t].todo, x);
  }

  lemma OpenedIsSilent(slots: seq<Option<SinkId>>, x: SinkId)
    requires x !in Captured(slots)
    ensures StageSilent(Opened(Captured(slots)), x) && StageSilent(Updating, x)
  {
  }

  lemma LessToAdd(todo: seq<Action>, x: SinkId)
    requires todo != [] && Add(x) !in todo
    ensures Add(x) !in todo[1..] && todo[0] != Add(x)
  {
    assert todo[0] in todo;
  }

  /** Once a sink is removed it is never called again, unless somebody asks to add it. */
  lemma {:induction false} RemovedSinksStaySilent(s: State, turns: seq<Turn>, x: SinkId)
    requires Inv(s) && Runs(s, turns) && Silent(s, x)
    requires forall i :: 0 <= i < |turns| ==> !Asks(turns[i], x)
    ensures CallsTo(Run(s, turns).em.trace, x) == CallsTo(s.em.trace, x)
    decreases |turns|
  {
    hide Inv, Next, Silent, CallsTo, Asks;
    if turns != [] {
      NextKeepsInv(s, turns[0]);
      SilentStep(s, turns[0], x);
      RemovedSinksStaySilent(Next(s, turns[0]), turns[1..], x);
    }
  }

  /** Removing a sink, with no call to add it under way, silences it before the lock is released. */
  lemma RemovalSilences(s: State, t: nat, c: Choice, x: SinkId)
    requires Inv(s) && t < |s.threads| && s.threads[t].stage.Updating? && s.threads[t].todo[..1] == [Remove(x)]
    requires forall u :: 0 <= u < |s.threads| ==> Add(x) !in s.threads[u].todo
    ensures Silent(Next(s, Step(t, c)), x)
  {
    LockOf(s, t);
    assert s.threads[t].todo[0] == s.threads[t].todo[..1][0];
    var s' := Next(s, Step(t, c));
    assert Locked(s) && TableOk(s.em, s.threads[t]);
    hide Inv, Locked, TableOk;
    TableUpdateRemoves(s, t, x);
    assert forall u :: 0 <= u < |s.threads| && u != t ==> s.threads[u].stage.Outside? by { OthersOutside(s, t); }
  }

  lemma OthersOutside(s: State, t: nat)
    requires Inv(s) && t < |s.threads| && !s.threads[t].stage.Outside?
    ensures forall u :: 0 <= u < |s.threads| && u != t ==> s.threads[u].stage.Outside?
  {
    hide EmissionOk, TodosOk, Conserved, Fifo;
  }

  lemma TableUpdateRemoves(s: State, t: nat, x: SinkId)
    requires t < |s.threads| && TableOk(s.em, s.threads[t])
    ensures Some(x) !in Updated(s.em, Remove(x)).slots
  {
    var i := FirstSlot(s.em.slots, Some(x));
    if i < |s.em.slots| {
      assert forall j :: 0 <= j < |s.em.slots| && j != i ==> s.em.slots[j] != Some(x);
    }
  }

  // ---- Drops and the queue, over whole runs ----

  /**
   * Modulo 2^32, the refusals so far are the counts in the DROPPED packets streamed, plus the counts threads have
   * taken and not streamed yet, plus the counter. No DROPPED packet carries zero.
   */
  lemma DropsAreConserved(start: State, turns: seq<Turn>)
    requires IsInitial(start) && Runs(start, turns)
    ensures Inv(start)
    ensures var r := Run(start, turns);
            && r.refusals % WRAP == (Reported(r.em.entries) + AllInFlight(r.threads) + r.dropped) % WRAP
            && forall e :: e in r.em.entries && e.Packet? && e.p.Dropped? ==> e.p.count != 0
  {
    hide *;
    InitialInv(start);
    DropsBalance(Run(start, turns));
  }

  lemma DropInvariant(r: State)
    requires Inv(r)
    ensures EntriesOk(r.em.entries, r.max) && Conserved(r)
  {
    hide EntriesOk, Conserved, TraceOk, NumbersOk, TableOk, HolderValid, Locked, TodosOk, QueueOk, Fifo, Served, LastTime;
  }

  lemma DropsBalance(r: State)
    requires Inv(r)
    ensures r.refusals % WRAP == (Reported(r.em.entries) + AllInFlight(r.threads) + r.dropped) % WRAP
    ensures forall e :: e in r.em.entries && e.Packet? && e.p.Dropped? ==> e.p.count != 0
  {
    hide Inv, Reported, AllInFlight, EntriesOk;
    DropInvariant(r);
    SameResidue(r.refusals, Reported(r.em.entries) + AllInFlight(r.threads) + r.dropped);
    NoZeroReports(r.em.entries, r.max);
  }

  lemma NoZeroReports(entries: seq<Entry>, max: MaxString)
    requires EntriesOk(entries, max)
    ensures forall e :: e in entries && e.Packet? && e.p.Dropped? ==> e.p.count != 0
  {
    hide Outgoing.Valid, LastTime, CountNumbered, Registered, NoRepeats;
    forall k | 0 <= k < |entries| && entries[k].Packet? && entries[k].p.Dropped? ensures entries[k].p.count != 0 {
      assert EntryOk(entries[..k], entries[k], max);
    }
  }

  lemma SameResidue(a: int, b: int)
    requires (a - b) % WRAP == 0
    ensures a % WRAP == b % WRAP
  {
  }

  /**
   * Packets the queue took are streamed once each and in that order; the rest is with the drain thread or queued,
   * and dispatch rejects none of it.
   */
  lemma QueueIsFifo(start: State, turns: seq<Turn>)
    requires IsInitial(start) && Runs(start, turns)
    ensures Inv(start)
    ensures var r := Run(start, turns);
            && r.accepted == FromQueue(r.em.entries) + InHand(DrainTodo(r.threads)) + r.queue
            && forall packet :: packet in r.queue ==> Dispatchable(packet)
  {
    InitialInv(start);
    hide IsInitial, Run, FromQueue, InHand, EmissionOk, Locked, TodosOk, Conserved;
  }

  /**
   * Nothing a thread was given to stream is lost, repeated, reordered or streamed for another thread: its packets in
   * the history, followed by those it still has to stream, are the packets of its requests.
   */
  lemma RequestsAreServed(start: State, turns: seq<Turn>, t: nat)
    requires IsInitial(start) && Runs(start, turns) && t < |start.threads|
    ensures Inv(start)
    ensures var r := Run(start, turns);
            && |r.asked| == |r.threads| == |start.threads| && |r.owners| == |r.em.entries|
            && r.asked[t] == StreamedFor(r.em.entries, r.owners, t) + Tasks(r.threads[t].todo)
  {
    InitialInv(start);
    hide IsInitial, Run, StreamedFor, Tasks, EmissionOk, Locked, TodosOk, Conserved, Fifo;
  }
}
