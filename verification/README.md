# A verified model of on9log

on9log is a logger for firmware and desktop programs. A log call becomes a
binary packet, each packet is handed to every registered sink under one emit
lock, and transport sinks frame packets for a serial line. This project models
that path in Dafny, with the store of per-tag levels that decides which calls
are made, and proves what the code promises about it. Nothing in it was
executed; every statement is checked by Dafny's verifier
(`dafny verify dfyconfig.toml`).

## Parts

- **TagFilterMachine.dfy**: the lock-free tag-filter store as a step machine.
  Lookups take no lock; set and clear calls do, recycle cleared nodes in place
  and wait for the readers of a node. Safety over all interleavings, the end
  of every walk and of every wait.
- **TagFilterCalls.dfy**: calls on that machine from start to return: critical
  sections end, and a call left alone does what its arguments say.
- **TagFilterLookups.dfy**: what a lookup may return while others change the
  filters, and a run in which it returns a level that was never in force.
- **TagFilter.dfy**: the same store as a linked list changed by one caller at a
  time, which behaves as a map from tags to levels.
- **EmissionProtocol.dfy**: threads, interrupts, the ISR queue and its drain
  thread, the sink table, the sequence number and the drop counter as a step
  machine with one step per callback, fetch-add, exchange and queue operation.
- **Logger.dfy**, **Streams.dfy**: the logger's methods with their state, and
  the callbacks a packet means. **Requests.dfy** ties the methods to the step
  machine: a request that runs alone does what the method does.
- **Wire.dfy**, **Packets.dfy**, **PacketDecoder.dfy**, **Encoder.dfy**: the
  two-pass codec (measure, then send, with memory that may change in between),
  the ISR encoder, and a decoder written from the documented format.
  **WireFormat.dfy**: the bytes of packets and frames, field by field, without
  reference to the encoder.
- **Crc16.dfy**, **Slip.dfy**, **Sinks.dfy**, **UnixSink.dfy**,
  **EspTransport.dfy**, **Transports.dfy**: both CRCs, both framed transports
  and the reference frame decoder. The framing extends SLIP (RFC 1055, section
  "PROTOCOL") with a start byte and CR/LF escapes; the CRC has polynomial
  0x1021 and initial value 0xffff.
- **EndToEnd.dfy**: what a receiver decodes is what was logged.
- **Receiver.dfy**: the times a receiver reads, and each thread's requests as
  it gets them.
- **ElfNotes.dfy**: the search for the build ID (System V gABI, chapter 5,
  "Note Section"). **FormatScan.dfy**: the printf scanner, against a grammar
  (a subset of section 7.21.6.1 of ISO/IEC 9899:2011). **FormatMask.dfy**: what
  the scanner's mask means for the bytes sent. **CrFilter.dfy**: the text
  filter. **Bytes.dfy**: integers and their little-endian form.

Where the code is imperative the model is too: `UnixSink`, `EspTransport`,
`FrameWriter`, `Encoder`, `Logger`, `FilterList` and `Filter` are classes with
the fields of the code, and loops are loops, each proved against a function
whose properties are then proved as lemmas. The two step machines are values,
because their subject is every interleaving of the steps.

## What turned out not to hold

- A task-path log call with more than 32 arguments is refused, while the ISR
  path sends it if it fits its buffer. `Encoder.IsrAloneTakes33Integers` is
  such a call; `Encoder.IsrTakesMoreArguments` says that this is the only
  difference.
- The scanner looks for bounded strings only in formats with the literal text
  `%.*s`, so `%-.*s` alone is missed (`FormatScan.FlaggedPrecisionIsMissed`);
  `FormatScan.MarksAreCompleteIff` says when nothing is missed.
- `%.*s` promises that only as many bytes as the precision says are copied, also
  of a slice without a NUL. The scan for the NUL runs to the configured maximum
  before the precision is applied (on9log.c:663-674, README.md:188-195 of the
  program), so a slice with nothing readable behind it is read past its end:
  `Wire.OneByteSliceIsOverread` is the shortest such call. It stays inside if
  and only if the slice holds a NUL or reaches the maximum
  (`Wire.SliceIsOverread`, `Wire.MeasurePayload`). What is sent is right in any
  case (`Wire.SliceDecides`).
- `clear` returns OK for a tag whose filter was cleared before
  (`TagFilter.ClearTwice`). OK means that the tag had a filter if and only if no
  cleared node still carries it (`TagFilter.CarriedIsFiltered`).
- The transports differ on a packet with a NULL header of length 0: the stdio
  sink drops the packet, the ESP sink frames its payload alone. They agree on it
  if and only if the payload is too long for a frame
  (`Transports.NullHeaderDiffers`), and on everything else
  (`Transports.SameBytes`). The logger makes no such callback in binary mode.
- A concurrent lookup is not an atomic read of the map: in the run of
  `TagFilterLookups.LookupIsNotAtomic` it stands before the load of the level
  while the filter is cleared and set to another level, and returns that level
  before the store of `active` puts it in force. The level it loads is in force
  if and only if the node is active (`TagFilterLookups.ReadIsInForceIffActive`);
  otherwise it has been since the recheck or is about to be
  (`TagFilterLookups.ReadIsBacked`). A filter that stands throughout is found
  (`TagFilterLookups.StandingFilterIsFound`).

## Reading the model

- `hide` statements in proofs only keep definitions from the solver.
- `Prebuilt` is a packet serialised earlier; `Outgoing.Valid` collects what the
  callers of the emitting functions guarantee.
- Sequence numbers and times are kept unwrapped in histories and reduced
  modulo 2^16 and 2^32 where they reach a header; the drop counter wraps at
  2^32 in the state itself.
- A transport is seen through `Sinks.Emitted`, the bytes of a collecting
  transport; both transports are proved to put out exactly those.

## Model

| member | source | states |
|---|---|---|
| `TagFilterMachine.LookupsAreSafe` | on9log.c:1388-1416 | In every interleaving of lookups with set and clear calls: no lookup between its recheck of `active` and its fetch-sub stands at a node whose tag is being freed or replaced, lookups reach only nodes `head` leads to, `readers` is exactly the number of lookups inside, and no two nodes carry the same tag |
| `TagFilterMachine.NextKeepsInv` | on9log.c:1622-1747 | Every step of every thread (each atomic access of a lookup, each store of a set or clear call, taking and releasing the lock) keeps the invariant behind the other rows |
| `TagFilterMachine.InitialInv` | on9log.c:109-122 | An empty store with a free lock satisfies that invariant |
| `TagFilterMachine.Run` | on9log.c:1382-1747 | A run is any schedule of turns and outcomes; the invariant holds after all of them |
| `TagFilterMachine.BystanderOk` | on9log.c:1678-1684 | A writer gets past its wait for `readers` only when no lookup has confirmed the node, so freeing and replacing the tag cannot hit one |
| `TagFilterMachine.ComparedTagIsStable` | on9log.c:1402-1407 | While a lookup compares a tag, no step of any other thread changes that tag |
| `TagFilterMachine.LookupsReturnWhatWasSet` | on9log.c:1382-1419 | A lookup that matches returns a level that in some earlier turn a thread stood at storing for that very tag; one that does not returns the default at start or one stored in an earlier turn. A NULL tag never matches |
| `TagFilterMachine.HistoryIsReal` | on9log.c:1622-1709 | The history used to say so holds a level for a tag if and only if some turn of the run stored it in a node for that tag, and a default if and only if some turn stored it |
| `TagFilterMachine.StoresAreCalledFor` | on9log.c:1622-1709 | Whichever thread stores a level for a tag had, while idle, called set with exactly that tag and level earlier in the run |
| `TagFilterMachine.CountIsExact` | on9log.c:1384-1386 | With the lock free the filter count is the number of active nodes, so zero means that no node is active |
| `TagFilterMachine.CountStep` | on9log.c:1645-1649 | Each step of a writer moves the counter so that it differs from the active nodes only between the two stores of one call |
| `TagFilterMachine.StepsRefineMap` | on9log.c:1622-1747 | The store refines a map from tags to levels: a set call changes it at exactly one store, to its level for its tag alone, a clear call at exactly one, dropping its tag alone, and no other step of any thread changes it |
| `TagFilterMachine.CallsCommitOnce` | on9log.c:1622-1747 | From its call to its return, whatever other threads do, a set or clear call changes the map exactly once, to its own level for its own tag, or gives up exactly once and changes nothing; until it has done either it is still inside, and afterwards it does nothing more |
| `TagFilterMachine.DecisionIsRight` | on9log.c:1622-1747 | At the step that decides a call, by its store or by giving up, the outcome is the one the list calls for: a set call that stores has its level in force for its tag right after, one that gives up had an allocation refused with no node of its tag and none to recycle, and after a clear call is decided its tag has no level in force |
| `TagFilterMachine.GivesUpForCause` | on9log.c:1656-1747 | In every reachable state, a set call waiting for its copy or its node has found no node of its tag in the list, and at the allocation none to recycle; a clear call at the end of its scan has no node with its tag anywhere |
| `TagFilterMachine.OneLevelInForce` | on9log.c:1634-1639 | At any time a tag has at most one level in force |
| `TagFilterMachine.UndisturbedLookup` | on9log.c:1382-1419 | Started with the lock free and left alone, a lookup returns the level of the active node with its tag, else the default; the shortcut for a zero count gives the same answer as the walk |
| `TagFilterMachine.NodeCountIsPeakUse` | on9log.c:1670-1706 | The number of nodes is the largest number of filters that were active at the same time at any point of the run |
| `TagFilterMachine.PeakStep` | on9log.c:1670-1706 | A node is only added when all nodes are active |
| `TagFilterMachine.WalksEnd` | on9log.c:1388-1416 | A lookup that has loaded the head returns within a number of its own steps fixed by the node it stands at, whatever other threads insert, clear and recycle |
| `TagFilterMachine.WalkStep` | on9log.c:1391-1416 | Every step of a walk brings it closer to its end |
| `TagFilterMachine.DelayShrinks` | on9log.c:1391-1414 | While a node is inactive, each step a lookup makes there shortens the writer's wait by one and no lookup can enter |
| `TagFilterMachine.BusyBounds` | on9log.c:1678-1682 | The measure of the wait covers the readers of the node and is at most three per thread |
| `TagFilterMachine.WriterLooks` | on9log.c:1679-1683 | The waiting writer goes on exactly when `readers` is zero |
| `TagFilterMachine.RoundShrinks` | on9log.c:1678-1682 | Over any stretch of a run in which the writer keeps waiting the measure never grows, and shrinks if a lookup in the way gets a turn |
| `TagFilterMachine.WaitEnds` | on9log.c:1678-1682 | If every thread gets a turn in every round, the wait is over after as many rounds as the measure says plus one |
| `TagFilterCalls.HolderStepCounts` | on9log.c:1622-1747 | Every step of the lock holder brings its release closer, except a look at a node whose readers are still there |
| `TagFilterCalls.CriticalSectionsEnd` | on9log.c:1622-1747 | While a thread holds the lock it makes, besides looks at a node with readers, at most three steps for each node and 14 more, whatever lookups do meanwhile |
| `TagFilterCalls.CallAlone` | on9log.c:1622-1747 | A set or clear call started with the lock free and no lookup inside a node, and left alone, returns, leaves the lock free, and has changed the map exactly as its arguments, the list and the two allocations call for |
| `TagFilterCalls.DefaultAlone` | on9log.c:1590-1596 | The same for a change of the default level |
| `TagFilterCalls.LookupAlone` | on9log.c:1382-1419 | The same for a lookup: it returns the level of its tag in the map, else the default; with a filter count of zero it takes two steps at most |
| `TagFilterLookups.ReadIsInForceIffActive` | on9log.c:1402-1411 | Where a lookup whose tag matched is about to load the level, that level is in force for the tag if and only if the node is active |
| `TagFilterLookups.ReadIsBacked` | on9log.c:1402-1411 | Active or not, the level such a lookup is about to load has been in force for the tag at some point since the recheck, or the lock holder has stored it and is about to store `active` |
| `TagFilterLookups.StandingFilterIsFound` | on9log.c:1382-1419 | A tag that has had a filter ever since a point with the lock free, before the lookup began, until now is found: whatever other threads set, clear and recycle, the lookup does not fall back to the default, and the level it returns was in force in the course of it |
| `TagFilterLookups.WasInForceAt` | on9log.c:1634-1639 | What "in force at some point of a run" means in these rows: after some prefix of its turns an active node carries the tag with that level |
| `TagFilterLookups.LookupIsNotAtomic` | on9log.c:1634-1639 | A schedule in which a lookup returns level 2 for a tag although level 2 has been in force for it at no point of the run |
| `TagFilter.FilterList.LevelForTag` | on9log.c:1382-1419 | The level of the tag in the map of active filters, else the default |
| `TagFilter.FilterList.LevelEnabled` | on9log.c:1434-1449 | A message is enabled if and only if its level is ERROR to VERBOSE, within the compiled-in level and within the level in force for its tag |
| `TagFilter.FilterList.SetTagLevel` | on9log.c:1622-1709 | Success sets exactly that tag in the map and failure changes nothing; which of OK, INVALID_ARG and NO_MEM is returned in terms of the list and of the two allocations; the node count is the larger of its old value and the active count |
| `TagFilter.FilterList.Update` | on9log.c:1631-1645 | A tag that has a node, active or not, gets its level there; otherwise nothing changes |
| `TagFilter.FilterList.Install` | on9log.c:1656-1708 | Second half of a set call: recheck, recycle a cleared node, or allocate; refused only when all three fail |
| `TagFilter.FilterList.Recycle` | on9log.c:1677-1690 | Renaming a cleared node adds the new tag to the map and touches no other |
| `TagFilter.FilterList.Insert` | on9log.c:1692-1706 | The new node goes to the head; the map gains exactly its tag |
| `TagFilter.FilterList.ClearTagLevel` | on9log.c:1725-1747 | The tag leaves the map and no node changes its tag. OK is returned if and only if some node carries the tag, cleared before or not |
| `TagFilter.ClearTwice` | on9log.c:1725-1747 | Set once and cleared twice: both clears return OK, although before the second the tag has no filter |
| `TagFilter.CarriedIsFiltered` | on9log.c:1725-1747 | OK from a clear coincides with the tag having a filter if and only if no cleared node carries the tag |
| `TagFilter.FilterList.SetDefaultLevel` | on9log.c:1590-1596 | Valid levels become the default, others are ignored |
| `TagFilter.FiltersUpdate` | on9log.c:1634-1639 | Changing one node of a list with distinct tags changes the map at exactly its tag |
| `TagFilter.FiltersAre` | on9log.c:1388-1416 | A tag is in the map if and only if an active node carries it, and with that node's level |
| `EmissionProtocol.NextKeepsInv` | on9log.c:1764-1821 | Every step (callback, fetch-add, exchange, queue operation, table change, lock) keeps the invariant behind the rows below |
| `EmissionProtocol.InitialInv` | on9log.c:86-122 | The state at start satisfies it |
| `EmissionProtocol.Run` | on9log.c:2024-2109 | Any number of threads, requests and turns in any order: the invariant holds after each run |
| `EmissionProtocol.SinksSeeWholePackets` | on9log.c:276-338 | In every reachable state each sink got whole start, payload*, end groups, one for each packet streamed while it was registered, in the order of the lock; only the last group can be incomplete, and not while the lock is free |
| `EmissionProtocol.NumbersAreConsecutive` | on9log.c:938-958 | A sink is given, over any stretch during which it stays registered, every sequence number once and in order; TIME_SYNC takes none. What the headers and the receiver make of it are the rows `HeaderCarriesNumber` and `EndToEnd.ReceivedNumbers` |
| `EmissionProtocol.HeaderCarriesNumber` | on9log.c:906-922 | The header bytes 2 and 3 of a numbered packet are its number modulo 2^16 |
| `EmissionProtocol.TimesNeverGoBack` | on9log.c:938-958 | Unwrapped times read under the lock never decrease from packet to packet |
| `EmissionProtocol.TimesAreReadings` | on9log.c:938-958 | The time of each packet of a run is what the clock showed, to the tick, at the turn that put the packet into the history |
| `EmissionProtocol.CapturedIffRegistered` | on9log.c:276-285 | A packet goes to exactly the sinks registered when its stream was opened |
| `EmissionProtocol.TableUpdate` | on9log.c:1519-1570 | Adding or removing leaves every other sink as it is, the added sink is in the table afterwards if and only if it was or a slot was free, the removed one is not, and no sink is ever listed twice |
| `EmissionProtocol.RemovalSilences` | on9log.c:1554-1570 | After the removal step, with no add of that sink under way, the sink is out of the table and of every open stream |
| `EmissionProtocol.RemovedSinksStaySilent` | on9log.c:1540-1570 | From then on no callback goes to the sink, over any run in which nobody asks to add it |
| `EmissionProtocol.DropsAreConserved` | on9log.c:2065-2092 | In every reachable state, modulo 2^32, refusals are the counts in the DROPPED packets streamed plus the counts exchanged out and not yet streamed plus the counter; no DROPPED packet carries zero |
| `EmissionProtocol.ExchangeKeepsInv` | on9log.c:1782-1785 | Exchanging the counter leaves zero and adds the whole count to what threads have taken and not streamed yet |
| `EmissionProtocol.RefuseKeepsInv` | on9log.c:2087-2092 | A refusal adds one to the counter, wrapping at 2^32, and to nothing in flight |
| `EmissionProtocol.QueueIsFifo` | on9log_esp_isr.c:55-113 | What the queue accepted is what was streamed from it (with the report and the number of a dispatch: `Requests.DrainRunsAlone`), then what the drain thread holds, then what is queued, in order and once each; everything queued will pass the check on dispatch |
| `EmissionProtocol.RequestsAreServed` | on9log.c:2024-2109 | In every reachable state and for every thread, the packets its requests gave it to stream are those streamed from it followed by those it still has to stream, in order and once each |
| `EmissionProtocol.IsrPacketIsDispatchable` | on9log.c:1771-1780 | Dispatch never rejects a packet built by the ISR encoder |
| `EmissionProtocol.RequestIsOk` | on9log.c:2467-2516 | Every request breaks down into packets a header can describe |
| `Requests.RunAlone` | on9log.c:938-958 | A thread that runs its actions undisturbed makes exactly the callbacks, queues exactly the packets and leaves the counters that the actions say, whatever the clock shows at each reading and whether or not the queue is full |
| `Requests.WriteAlone` | on9log.c:2061-2107 | The log method and the log request of the interleaved model agree for every clock: callbacks with their times, sequence number, drop counter and clock readings |
| `Requests.BufferAlone` | on9log.c:2452-2518 | The buffer method and the buffer request agree, refusals included |
| `Requests.BootAlone` | on9log.c:1222-1263 | The boot method and the boot request agree |
| `Requests.DispatchAlone` | on9log.c:1764-1821 | The dispatch method and the dispatch request agree, rejected packets included |
| `Requests.DrainAlone` | on9log_esp_isr.c:55-75 | Receiving a packet and dispatching it is what the dispatch request of that packet does, and the queue loses its first packet |
| `Requests.DrainRunsAlone` | on9log_esp_isr.c:55-75 | A drain thread that runs undisturbed from a nonempty queue, until it is idle again, has taken the first packet off the queue and made the callbacks and left the number and the drop counter of the dispatch request for it |
| `Requests.RequestAlone` | on9log.c:2024-2109 | An idle thread that makes a request and runs undisturbed does what the request says and is idle again |
| `Requests.TableRunsAlone` | on9log.c:1519-1570 | An idle thread that adds or removes a sink undisturbed leaves the table of the add and remove rows and makes no callback |
| `Requests.IsrAlone` | on9log.c:2324-2353 | The ISR method and the ISR request agree on the queue and the drop counter, whether or not the queue takes the packet |
| `Requests.AddAlone` | on9log.c:1519-1538 | The table change of the add method is that of the interleaved model |
| `Requests.RemoveAlone` | on9log.c:1554-1570 | The table change of the remove method is that of the interleaved model |
| `EndToEnd.EverythingArrives` | on9log_unix_stdio.c:99-166 | For any run of log, buffer, boot, ISR and dispatch calls and table changes: decoding the bytes of a sink's transport yields exactly the packets streamed while the sink was registered and at most 3072 bytes long, in order and recovered in full; only the packet in flight may be missing |
| `EndToEnd.ReceivedNumbers` | on9log.c:938-958 | In every reachable state with no packet in flight, the sequence fields a receiver decodes from the bytes of a sink, over any stretch to the present during which the sink stayed registered, count on by one modulo 2^16, leaving out TIME_SYNC, with gaps only where a packet was too long for a frame or a dispatched one was malformed |
| `EndToEnd.NothingMissing` | on9log.c:938-958 | With no such packet in the stretch the fields are consecutive modulo 2^16, one for each number taken |
| `Receiver.ReceivedTimes` | on9log.c:938-958 | In every reachable state the received packets are those of the entries the line carries, one by one; each not serialised earlier is decoded with the time read under the lock modulo 2^32, and those times never go back |
| `Receiver.RequestsArrive` | on9log.c:2024-2109 | In every reachable state with no packet in flight: over any stretch to the present during which the sink stayed registered, the packets received for a thread have, in order and one by one, the contents of those its requests gave it to stream and it streamed in that stretch, those too long for a frame left out |
| `Receiver.ContentIsFixed` | on9log.c:938-958 | Neither the length nor the decoded content of a packet depends on its number and time |
| `EndToEnd.LineDelivers` | tests/on9log_test.cpp:203-245 | The frame decoder followed by the packet decoder recovers the packets of a line, whatever follows it |
| `EndToEnd.GroupsEmitLine` | on9log_unix_stdio.c:99-166 | Whole groups of callbacks become one frame for each packet that fits and nothing for the others |
| `EndToEnd.UnfinishedGroupIsSilent` | on9log_unix_stdio.c:149-166 | Before its end callback a packet puts nothing on the line |
| `EndToEnd.IsrCallArrives` | on9log.c:1014-1085 | A call logged in an interrupt is decoded like one from a task, with its own time and the number given on dispatch |
| `Logger.Logger.AddSink` | on9log.c:1519-1538 | Which status is returned, and that only the first free slot changes and only for a sink not listed yet |
| `Logger.Logger.RemoveSink` | on9log.c:1554-1570 | Exactly the slot of the sink is freed, whether or not its descriptor is complete; NULL and unknown sinks change nothing |
| `Logger.Logger.StreamOpen` | on9log.c:276-285 | The captured sinks are the registered ones in slot order |
| `Logger.Logger.CallAll` | on9log.c:294-338 | One callback for each captured sink, in order |
| `Logger.Logger.StreamPayload` | on9log.c:312-325 | Empty chunks make no callback, others one for each sink |
| `Logger.Logger.EmitHeader` | on9log.c:938-958 | Number and time are taken after the sinks are captured, each packet takes one number, and with the measured payload length the header is that of the packet |
| `Logger.Logger.EmitPayloadArgs` | on9log.c:822-851 | The second pass sends, for every argument, the chunks fixed by the lengths of the first pass |
| `Logger.Logger.EmitDropped` | on9log.c:1111-1127 | One DROPPED packet with the count |
| `Logger.Logger.ReportDrops` | on9log.c:2065-2069 | The counter is taken; a report is streamed if and only if it was not zero |
| `Logger.Logger.Write` | on9log.c:2061-2107 | The report of earlier drops, then the log packet, or one more drop; nothing at all for a disabled level. For a slice whose scan leaves the readable bytes it says just that, and nothing but the report has happened |
| `Logger.Logger.EmitBoot` | on9log.c:1222-1263 | The BOOT packet with its fields |
| `Logger.Logger.EmitBufferPart` | on9log.c:1310-1334 | One BUFFER packet: inline tag, three lengths, data |
| `Logger.Logger.WriteBuffer` | on9log.c:2452-2518 | The packets the buffer splits into, consecutively numbered, or one more drop |
| `Logger.Logger.DispatchPacket` | on9log.c:1764-1821 | Malformed packets are rejected without effect; others are streamed with a number of their own unless they are TIME_SYNC, keeping their time |
| `Logger.Logger.WriteIsr` | on9log.c:2324-2353 | The packet of the call is queued if and only if its types are safe, it fits the buffer and the queue takes it; otherwise one more drop; nothing for a disabled level or a port that is not ready |
| `Streams.BufferArrivesWhole` | on9log.c:2494-2516 | The parts of a buffer are contiguous from offset 0, nonempty unless the buffer is, concatenate to the buffer, and every payload is at most 0xfffe bytes, at most chunk size + 12 when the tag leaves room |
| `Streams.PartsAreFull` | on9log.c:2494-2516 | A buffer is refused if and only if its tag, 12 bytes and a full part exceed 0xfffe; every part but the last is full: the chunk size less the inline tag, or one byte if the tag leaves no room. An empty buffer is one empty part |
| `Streams.CallToEach` | on9log.c:294-338 | Each callback is made for every captured sink, in their order, before the next one |
| `Streams.CapturedInOrder` | on9log.c:276-285 | Sinks are captured in the order of their slots |
| `Streams.PacketEventsAreCalls` | on9log.c:294-338 | The callbacks of a packet are its start, chunks and end, each broadcast to all captured sinks |
| `Packets.PacketRoundTrip` | on9log_fmt.h:35-50 | Every packet the logger streams decodes to exactly what was logged, header fields included |
| `Packets.ChunksAreThePayload` | on9log.c:663-740 | The chunks handed to the sinks concatenate to the payload the header announces |
| `Packets.RenumberedDecodes` | on9log.c:1797-1810 | Numbering a serialised packet changes its decoded sequence number and nothing else |
| `PacketDecoder.LogRoundTrip` | README.md:45-110 | Every header field and argument of a log packet is recovered, NULL apart from empty strings, pointers up to their low 32 bits |
| `PacketDecoder.AddressRecovered` | on9log.c:710-719 | When a tag or format comes back as an address, and as which, and when as text, and as which |
| `PacketDecoder.ArgsAreConveyed` | on9log.c:822-851 | Argument by argument, without reference to the measuring pass: numbers come back as they are, a string as its bytes up to the NUL, the maximum or its precision, a view as all its bytes or its first max ones, NULL as NULL, NULL data of length 0 as the empty text |
| `PacketDecoder.TextIsSent` | on9log.c:684-695 | A text travels as its length and its bytes, NULL as four bytes 0xff |
| `PacketDecoder.DecodePacketOf` | README.md:45-58 | The header is recovered and the payload handed on |
| `PacketDecoder.TakeArgsOf` | on9log.c:822-851 | The values are recovered one after the other from the type table |
| `Wire.MeasurePayload` | on9log.c:754-808 | The pass reads only readable bytes if and only if every string argument has its NUL or the maximum of bytes readable (or there are over 32 arguments). Then a call is refused if and only if it has over 32 arguments or its payload exceeds 0xfffe bytes, and otherwise the measured size and string lengths are exactly those of the bytes sent later, whatever the strings hold by then |
| `Wire.MeasureArg` | on9log.c:766-803 | The size of one argument on the wire, with the precision of a marked string taken from the 32-bit argument before it |
| `Wire.BoundedStrlen` | on9log.c:256-265 | On any readable bytes: the scan stays inside them if and only if they hold a NUL or reach the limit, and then finds the first NUL or the limit |
| `Wire.CStringLen` | on9log.c:663-674 | NULL gives the marker; any other string the position of its first NUL or the maximum, cut to a nonnegative precision |
| `Wire.ScanCString` | on9log.c:663-674 | The same from the code: the scan comes first, so it stays inside only where a scan without a precision does |
| `Wire.SliceIsOverread` | on9log.c:663-674 | A slice with nothing readable behind it is scanned past its end, whatever its precision, unless it holds a NUL or reaches the maximum |
| `Wire.OneByteSliceIsOverread` | README.md:188-195 | One readable byte with precision 1: a call the documentation allows and whose scan leaves the readable bytes |
| `Wire.SliceDecides` | on9log.c:663-674 | With anything readable behind it, what is sent of a slice depends on the slice up to the precision alone, and a scan no longer than the precision would find the same and never leave the slice |
| `PacketDecoder.DecodeHeaderOf` | on9log.c:874-890 | The 18 header bytes give back every field |
| `PacketDecoder.TakeTextOf` | on9log.c:684-695 | A string comes back as its bytes, or as NULL, and the rest of the payload is untouched |
| `Encoder.EncodeIsrLogPacket` | on9log.c:1014-1085 | The ISR encoder succeeds if and only if all types are safe and the packet fits its capacity, and then leaves exactly that packet |
| `Encoder.ArgTypesAreIsrSafe` | on9log.c:971-991 | True if and only if no type needs memory behind a pointer and the table ends within 255 entries |
| `Encoder.IsrMatchesTask` | on9log.c:1797-1810 | Numbered on dispatch, at any time, the packet is byte for byte what the task path streams for the same call at the time of the interrupt |
| `Encoder.ShorterScan` | on9log.c:1028-1031 | Scanning inline strings no further than the packet is long changes neither success nor the packet |
| `Encoder.IsrTakesMoreArguments` | on9log.c:761-763 | The two paths accept the same calls that fit an ISR packet if and only if there are at most 32 arguments |
| `Encoder.IsrAloneTakes33Integers` | on9log.c:1014-1085 | A call with 33 integers that the ISR path sends and the task path refuses |
| `Encoder.Encoder.PutBytes` | on9log.c:189-202 | Bytes are appended while they fit; the overflow flag says exactly when more was asked for than fits |
| `Encoder.Encoder.PutU8` | on9log.c:141-149 | The same for one byte |
| `Crc16.EspUpdate` | esp_stdio_log_vfs.c:226-233 | The table-driven update is the bitwise CRC, for any state and data |
| `Crc16.TableStepIsUpdate` | esp_stdio_log_vfs.c:182-230 | One table step is eight bit steps, for every state and byte |
| `Crc16.TableIsSpread` | esp_stdio_log_vfs.c:182-215 | Every one of the 256 table entries is what the polynomial gives |
| `Crc16.UnixUpdate` | on9log_unix_stdio.c:43-52 | The bit loop is the CRC update |
| `Crc16.ReferenceCrc` | tests/on9log_test.cpp:191-201 | The reference loop computes the same CRC |
| `Crc16.CrcAppend` | esp_stdio_log_vfs.c:423-425 | The CRC of a concatenation continues from the CRC of its first part |
| `Crc16.CrcInjectiveInState` | esp_stdio_log_vfs.c:226-233 | Different states never meet again under the same data |
| `Crc16.TwoBytesInjective` | on9log_unix_stdio.c:43-52 | Two bytes are determined by the states before and after them |
| `Crc16.OneByteDamageDetected` | esp_stdio_log_vfs.c:226-233 | Bodies of any length that differ in one byte have different CRCs, and only those |
| `Crc16.TwoByteDamageDetected` | esp_stdio_log_vfs.c:226-233 | The same for two adjacent bytes |
| `Crc16.TrailerRoundTrip` | on9log_unix_stdio.c:159-160 | The two CRC bytes of a frame give the CRC back |
| `Crc16.CheckValue` | esp_stdio_log_vfs.c:226-233 | The check value of the CRC: the digits 1 to 9 give 0x29b1 |
| `Slip.DecodeFrame` | tests/on9log_test.cpp:203-245 | A frame decodes to its type and payload, valid, and decoding goes on right behind it |
| `Slip.DecodeLine` | tests/on9log_test.cpp:203-245 | Frames with text free of 0xa5 between them decode to exactly those frames |
| `Slip.EscapedIsClean` | esp_stdio_log_vfs.c:343-389 | No frame interior holds a raw 0xa5, 0xc0, CR or LF |
| `Slip.ValidFrameIsGenuine` | tests/on9log_test.cpp:234-241 | What the decoder calls valid is byte for byte the frame the encoder writes for that type and payload |
| `Slip.DamageIsRejected` | tests/on9log_test.cpp:234-241 | A body damaged within one byte or two adjacent bytes under an unchanged CRC is reported invalid |
| `Slip.DecodeFrames` | tests/on9log_test.cpp:203-245 | The reference loops compute the decoding function used in the other rows |
| `Slip.FrameInPieces` | esp_stdio_log_vfs.c:435-440 | The pieces the writers put out make up the frame |
| `Sinks.PacketCallsEmit` | on9log_unix_stdio.c:99-166 | However a packet is cut into chunks, a transport puts out one frame with the whole packet, or nothing if it is too long |
| `Sinks.AnyPacketEmits` | on9log_unix_stdio.c:99-166 | With any buffers, NULL ones included: one frame of type 1 with header and chunks, or nothing if and only if the header is NULL, a NULL chunk has a length, or they are more than 3072 bytes |
| `WireFormat.PacketLayout` | README.md:45-60 | Every packet starts with the documented 18 bytes: 0x9a, type and level, number, time, tag and format ID, and the length of what follows, least significant byte first |
| `WireFormat.LogLayout` | on9log.c:822-851 | The payload of a log packet: inline tag, inline format, the number of arguments, one type code for each, and for each the bytes of what it conveys |
| `WireFormat.BufferLayout` | on9log.c:1310-1334 | The payload of a BUFFER packet: inline tag, size of the buffer, offset and size of the part, and its bytes |
| `WireFormat.SimpleLayouts` | README.md:62-73 | The payloads of DROPPED and BOOT packets |
| `WireFormat.PrebuiltLayout` | on9log.c:1797-1810 | On dispatch a packet keeps every byte but its number, and TIME_SYNC that too |
| `WireFormat.IsrLayout` | on9log.c:1014-1085 | A packet built in an interrupt is laid out like a log packet with number 0 |
| `WireFormat.EscapeLayout` | esp_stdio_log_vfs.c:343-371 | The escape of every byte |
| `WireFormat.FrameLayout` | esp_stdio_log_vfs.c:423-445 | A frame is its markers around the escaped type, payload and checksum of both |
| `WireFormat.KnownFrame` | tests/on9log_unix_smoke.cpp:38-58 | The frame of six bytes that need escapes or look like a packet, byte by byte |
| `UnixSink.UnixSink.Run` | on9log_unix_stdio.c:99-166 | For any callbacks and any outcomes of the single writes: what each callback puts on the stream, up to its first failure, which the next packet forgets; when no write fails the stream gains exactly the bytes of the collecting transport |
| `UnixSink.PutStops` | on9log_unix_stdio.c:54-59 | Bytes get through up to the first whose outcome is a failure; after it nothing is tried any more, and without one everything gets through |
| `UnixSink.UnixSink.WriteRaw` | on9log_unix_stdio.c:54-59 | One byte is tried unless a write of this packet has failed |
| `UnixSink.UnixSink.OnStart` | on9log_unix_stdio.c:99-118 | A packet begins with its header; a NULL or oversized one drops the packet |
| `UnixSink.UnixSink.OnPayload` | on9log_unix_stdio.c:120-147 | Chunks are collected until one does not fit, which drops the whole packet |
| `UnixSink.UnixSink.OnEnd` | on9log_unix_stdio.c:149-166 | The frame of the collected packet up to its first failing byte, or nothing for a dropped one |
| `UnixSink.UnixSink.WriteEscaped` | on9log_unix_stdio.c:61-88 | Reserved bytes become their two-byte escapes |
| `UnixSink.UnixSink.WriteBytes` | on9log_unix_stdio.c:90-96 | Escaped bytes go out while the running CRC covers the raw ones |
| `EspTransport.WriteAll` | esp_stdio_log_vfs.c:244-259 | All bytes are written if and only if no answer of the device is an error or zero; short and interrupted writes are carried on. Otherwise a proper prefix was written |
| `EspTransport.EspTransport.Flush` | esp_stdio_log_vfs.c:279-293 | Every open output gets the batch, at most 128 bytes in one write; a failing one does not keep it from the others |
| `EspTransport.EspTransport.PutRaw` | esp_stdio_log_vfs.c:304-320 | Batching loses, adds and reorders nothing |
| `EspTransport.EspTransport.PutSlip` | esp_stdio_log_vfs.c:382-389 | The escaped form of the input goes through the writer |
| `EspTransport.EspTransport.EmitFrame` | esp_stdio_log_vfs.c:423-445 | Every output without a failing answer receives exactly the frame, with the CRC of type and payload, whatever the others do; the result is failure if and only if some output had one. An output that accepts everything gets the frame in full batches of 128 bytes and a rest |
| `EspTransport.EspTransport.WriteFrame` | esp_stdio_log_vfs.c:409-446 | Every status, that a task inside the transport is refused, and that success means the frame reached every output |
| `EspTransport.EspTransport.RawStreamBegin` | esp_stdio_log_vfs.c:448-458 | The task becomes the owner, or fails if it is |
| `EspTransport.EspTransport.RawStreamWrite` | esp_stdio_log_vfs.c:460-477 | Only the owner writes; every output without a failing answer got exactly the bytes, and the result is failure if and only if some output had one |
| `EspTransport.EspTransport.RawStreamEnd` | esp_stdio_log_vfs.c:479-488 | Only the owner can end the stream |
| `EspTransport.EspTransport.WriteText` | esp_stdio_log_vfs.c:539-580 | A text write becomes text frames of at most 3072 bytes, in order; a failure means that whole frames with a prefix of the text reached every output and only the frame with the next bytes was attempted |
| `EspTransport.TextRoundTrip` | esp_stdio_log_vfs.c:560-572 | Those frames decode to valid text frames (type 2) whose payloads spell the text, none empty, none over 3072 bytes, and no more of them than needed |
| `EspTransport.EspTransport.Append` | on9log_esp_vfs.c:63-75 | Bytes are collected until some do not fit, which marks the whole packet; an empty chunk may be NULL |
| `EspTransport.EspTransport.OnEnd` | on9log_esp_vfs.c:141-157 | The collected packet as one frame, or nothing |
| `EspTransport.EspTransport.Run` | on9log_esp_vfs.c:88-157 | For any callbacks in which NULL comes only with length 0, every output gains exactly the bytes of the collecting transport when no write fails, a NULL header counting as an empty one |
| `Transports.SameBytes` | on9log_esp_vfs.c:63-157 | For all those callbacks, and any short and interrupted writes of the devices: what either transport puts out when no write fails, and that it is the same unless a packet has a NULL header |
| `Transports.NullHeaderDiffers` | on9log_esp_vfs.c:88-106 | A packet with a NULL header of length 0: the stdio sink drops it, the ESP sink frames its payload alone; they agree if and only if the payload is too long for a frame |
| `ElfNotes.FindGnuBuildId` | on9log.c:1129-1175 | For arbitrary bytes the copied ID is the description of the first build-ID note among the complete notes, 0 bytes if it is empty or too long; nothing else of the output changes, no read is out of bounds, no offset exceeds size_t |
| `ElfNotes.ReadNote` | on9log.c:1146-1161 | One turn of the loop: fields, bounds checks and alignment |
| `ElfNotes.NotesRoundTrip` | tests/on9log_unit_linux.cpp:147-156 | Any list of notes written with alignment 4 or 8 is read back as exactly that list |
| `ElfNotes.NotesAreAligned` | on9log.c:1158-1169 | As written, every note and every description starts at a multiple of the alignment from the first note, with less padding than the alignment |
| `ElfNotes.KnownNote` | tests/on9log_unit_linux.cpp:147-156 | One note byte by byte |
| `ElfNotes.NoBuildId` | on9log.c:1146-1174 | Without a note named GNU of type 3 there is no build ID |
| `ElfNotes.BuildIdIsFirst` | on9log.c:1162-1168 | The answer is the first build-ID note, and a useless first one is not passed over |
| `FormatScan.MarkPrecisionStringArgs` | on9log.c:1863-1917 | If the format contains the text `%.*s`, bit k is set if and only if argument k, in consumption order, is the value of an `s` conversion with star precision and k is below the argument count and 32; otherwise no bit is. Nothing behind the NUL is read |
| `FormatScan.ParseRenders` | on9log.c:1871-1914 | The conversions read from a format spell that format |
| `FormatScan.RenderParses` | on9log.c:1871-1914 | Every list of conversions the grammar allows is the only reading of its text |
| `FormatScan.ParseIsOk` | on9log.c:1871-1914 | Every reading is one the grammar allows |
| `FormatScan.ScanSpec` | on9log.c:1880-1903 | Flags, width, precision and length are skipped, counting star arguments |
| `FormatScan.MarkedAre` | on9log.c:1908-1913 | The bits collected item by item are those of the arguments in consumption order |
| `FormatScan.MarksAreCompleteIff` | on9log.c:1865-1867 | Every bounded string within reach of the mask is marked if and only if the format contains the text `%.*s` or has none to mark |
| `FormatScan.FlaggedPrecisionIsMissed` | on9log.c:1865-1867 | `%-.*s` alone: its string is bounded and not marked |
| `FormatScan.KnownUses` | on9log.c:1880-1913 | `%*.*s%%` uses its width, its precision and its string, in this order |
| `FormatMask.BoundedStringIsCut` | on9log.c:2070-2085 | Of a string that the format bounds by a `*` precision are sent the bytes up to its NUL, cut to the precision argument right before it if that is not negative and if the format contains the text `%.*s` |
| `FormatMask.NoMoreThanPrecision` | README.md:188-195 | So a format with that text never sends more of such a string than its precision |
| `FormatMask.PrecisionComesBefore` | on9log.c:1880-1913 | The argument before a bounded string is the one the format takes its precision from |
| `CrFilter.Filter.Write` | on9log.c:371-397 | One call puts out what the one-shot function gives for its piece and the character before it |
| `CrFilter.Filter.WriteAll` | on9log.c:371-397 | However a text is cut into pieces, the output is that of the whole text |
| `CrFilter.InsertCrIsIdempotent` | on9log.c:384-393 | Filtering twice is filtering once, and a text passes unchanged if and only if every LF in it follows a CR |
| `CrFilter.InsertCrTerminates` | on9log.c:384-393 | Every LF put out follows a CR |
| `CrFilter.SameLines` | on9log.c:384-393 | Apart from how lines end nothing of the text changes |

## Left out

- Weak memory: atomics are sequentially consistent steps, which is what the comment in on9log.c:1393-1400 argues for.
- Mutexes, the FreeRTOS ring buffer (a FIFO that may refuse) and the clocks (monotone, wrapping) are assumed primitives.
- Platform calls: whether an address lies in the image is a field of each string, allocation and queue outcomes are inputs, and the reset reason and the image ID are parameters.
- Plain-text mode apart from the CR filter and raw streams: vfprintf, colours, prefixes, cookies.
- Compile-time typing: the macros, `_Generic`, `on9log.hpp` and `.noload` placement. Calls start from typed arguments, and a type table that does not describe its arguments is excluded by `LogCall.Valid`.
- Transport drops (a packet too long for a sink, a failed write) and ISR calls made before the backend is ready: they do not touch the drop counter.
- The level verdict of a logging call is a parameter of `Logger.Logger.Write` and `Logger.Logger.WriteBuffer`; the verdict itself is `TagFilter.FilterList.LevelEnabled`.
- The ESP transport before the scheduler runs, opening of outputs, VFS registration, fsync and stdio locking.
- `on9log_encode_time_sync`: one more fixed packet; its kind is decoded and kept out of the sequence.
- Argument masks are sets of indexes below 32 rather than words, and the atomic counters 32 bits wide; `readers` and the filter count do not wrap.
- Tags are compared as a whole in one step; the proof that no step of another thread changes the tag meanwhile is `TagFilterMachine.ComparedTagIsStable`.
- Transports.SameBytes: a NULL header or payload with a length other than 0 is excluded, because the ESP sink copies from it without a check while the stdio sink drops the packet; the logger makes no such callback in binary mode.
- ElfNotes.FindGnuBuildId: note fields are little-endian, where the code reads them in the byte order of the machine.
- Requests.RunAlone: covers lists of exchanges, refusals, emissions and queue sends; receiving from the queue and table changes have their own rows, `Requests.DrainRunsAlone` and `Requests.TableRunsAlone`.
- EspTransport.EspTransport.WriteFrame: of a device that had a failing answer only the bound on its writes is stated, since the writer goes on with later batches and the device may miss bytes in the middle.
- TagFilterCalls.CallAlone: starts with no lookup inside a node, since a set call left alone would wait for it for ever; with others moving, `TagFilterMachine.WaitEnds` and `TagFilterCalls.CriticalSectionsEnd` bound the call.
- TagFilterMachine.WaitEnds: says nothing about a scheduler that starves a thread.
