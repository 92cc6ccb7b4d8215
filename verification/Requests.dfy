/**
 * What a request does when nothing interferes: the interleaved model, run by
 * one thread alone while time passes, does what the logger's methods do.
 */
module Requests {
  import opened Bytes
  import opened Wire
  import opened Sinks
  import opened Packets
  import opened Streams
  import opened EmissionProtocol
  import Encoder
  import Logger

  // ---- The effect of a list of actions ----

  /** What a thread finds: the captured sinks, the clock by readings, and whether the queue takes a packet. */
  datatype World = World(sinks: seq<SinkId>, max: MaxString, clock: nat -> U32, granted: bool)

  datatype Counters = Counters(seqNo: nat, dropped: U32, readings: nat)

  /** Callbacks made, packets queued, and the counters afterwards. */
  datatype Effect = Effect(events: seq<Event>, queued: seq<seq<Byte>>, counters: Counters)

  ghost predicate PlainAction(a: Action, max: MaxString) {
    a.Exchange? || a.Refuse? || a.Enqueue? || (a.Emit? && a.p.Valid(max))
  }

  ghost predicate Plain(todo: seq<Action>, max: MaxString) {
    forall a :: a in todo ==> PlainAction(a, max)
  }

  function Refused(c: Counters): Effect {
    Effect([], [], c.(dropped := (c.dropped + 1) % WRAP))
  }

  ghost function Emitting(p: Outgoing, w: World, c: Counters): Effect
    requires p.Valid(w.max)
  {
    Effect(Streamed(w.sinks, p, w.max, c.seqNo, w.clock(c.readings)), [],
           Counters(c.seqNo + (if p.Numbered() then 1 else 0), c.dropped, c.readings + (if p.Prebuilt? then 0 else 1)))
  }

  /** An exchange brings the report of the drops along. */
  ghost function First(a: Action, w: World, c: Counters): Effect
    requires PlainAction(a, w.max)
  {
    match a
    case Exchange => if c.dropped == 0 then Effect([], [], c) else Emitting(Dropped(c.dropped), w, c.(dropped := 0))
    case Emit(p, _) => Emitting(p, w, c)
    case Enqueue(packet) => if w.granted then Effect([], [packet], c) else Refused(c)
    case _ => Refused(c)
  }

  function Then(e: Effect, f: Effect): Effect {
    Effect(e.events + f.events, e.queued + f.queued, f.counters)
  }

  ghost function Alone(todo: seq<Action>, w: World, c: Counters): Effect
    requires Plain(todo, w.max)
    decreases |todo|
  {
    if todo == [] then Effect([], [], c)
    else
      assert todo[0] in todo;
      var e := First(todo[0], w, c);
      Then(e, Alone(todo[1..], w, e.counters))
  }

  // ---- One thread running alone ----

  /** Nobody but thread t moves; time may pass. */
  predicate Undisturbed(turns: seq<Turn>, t: nat, granted: bool) {
    forall turn :: turn in turns ==> turn.Tick? || turn == Step(t, Proceed(granted))
  }

  /** The thread is outside the lock, which is free, with these actions to do. */
  predicate Ready(s: State, t: nat, todo: seq<Action>) {
    s.lock.None? && t < |s.threads| && s.threads[t] == Thread(todo, Outside)
  }

  lemma {:induction false} RunAppend(s: State, a: seq<Turn>, b: seq<Turn>)
    requires Inv(s) && Runs(s, a) && Runs(Run(s, a), b)
    ensures Runs(s, a + b) && Run(s, a + b) == Run(Run(s, a), b)
    decreases |a|
  {
    hide Inv, Next;
    if a == [] {
      assert a + b == b;
    } else {
      NextKeepsInv(s, a[0]);
      RunAppend(Next(s, a[0]), a[1..], b);
      assert (a + b)[1..] == a[1..] + b;
    }
  }

  lemma Prepend(s: State, turn: Turn, turns: seq<Turn>)
    requires Inv(s) && (turn.Step? ==> turn.t < |s.threads|) && Inv(Next(s, turn)) && Runs(Next(s, turn), turns)
    requires |Next(s, turn).threads| == |s.threads|
    ensures Runs(s, [turn] + turns) && Run(s, [turn] + turns) == Run(Next(s, turn), turns)
  {
    hide Inv, Next;
    assert ([turn] + turns)[1..] == turns;
  }

  /** All callbacks of a packet are made, then the lock is released. */
  lemma {:induction false} SendRest(s: State, t: nat, granted: bool) returns (turns: seq<Turn>)
    requires Inv(s) && t < |s.threads| && s.threads[t].stage.Sending?
    ensures Runs(s, turns) && Undisturbed(turns, t, granted)
    ensures var r := Run(s, turns);
            && r.lock.None? && r.threads == s.threads[t := s.threads[t].(stage := Outside)]
            && r.em == s.em.(trace := s.em.trace + s.threads[t].stage.rest)
            && r.dropped == s.dropped && r.max == s.max && r.queue == s.queue
    decreases |s.threads[t].stage.rest|
  {
    hide Inv, EmissionOk, Locked;
    var turn := Step(t, Proceed(granted));
    SendStep(s, t, granted);
    NextKeepsInv(s, turn);
    var s' := Next(s, turn);
    var rest := s.threads[t].stage.rest;
    hide Next;
    turns := [];
    if rest == [] {
      assert s.em.trace + rest == s.em.trace;
      assert Run(s', []) == s';
    } else {
      turns := SendRest(s', t, granted);
      assert s.em.trace + [rest[0]] + rest[1..] == s.em.trace + rest;
      assert s'.threads[t := s'.threads[t].(stage := Outside)] == s.threads[t := s.threads[t].(stage := Outside)];
    }
    Prepend(s, turn, turns);
    turns := [turn] + turns;
  }

  lemma SendStep(s: State, t: nat, granted: bool)
    requires Inv(s) && t < |s.threads| && s.threads[t].stage.Sending?
    ensures var rest := s.threads[t].stage.rest;
            var s' := Next(s, Step(t, Proceed(granted)));
            && s'.threads == s.threads[t := s.threads[t].(stage := if rest == [] then Outside else Sending(rest[1..]))]
            && s'.em == s.em.(trace := s.em.trace + rest[..if rest == [] then 0 else 1])
            && (rest == [] ==> s'.lock.None?)
            && s'.dropped == s.dropped && s'.max == s.max && s'.queue == s.queue
  {
    hide Inv;
    LockOf(s, t);
    assert s.threads[t].stage.rest == [] ==> s.em.trace + [] == s.em.trace;
  }

  /** Taking the lock with a packet to stream. */
  lemma OpenStep(s: State, t: nat, granted: bool, p: Outgoing, queued: bool, rest: seq<Action>)
    requires Inv(s) && Ready(s, t, [Emit(p, queued)] + rest)
    ensures Next(s, Step(t, Proceed(granted)))
            == s.(lock := Some(t), threads := s.threads[t := Thread([Emit(p, queued)] + rest, Opened(Captured(s.em.slots)))])
  {
    hide Inv, Captured, Tasks;
    ThreadsAsked(s);
  }

  lemma NumberStep(s: State, t: nat, granted: bool, p: Outgoing, queued: bool, rest: seq<Action>, sinks: seq<SinkId>)
    requires Inv(s) && t < |s.threads| && s.threads[t] == Thread([Emit(p, queued)] + rest, Opened(sinks)) && p.Valid(s.max)
    ensures var s' := Next(s, Step(t, Proceed(granted)));
            && s'.threads == s.threads[t := Thread([Emit(p, queued)] + rest, Numbered(sinks, s.em.seqNo))]
            && s'.em == s.em.(seqNo := s.em.seqNo + (if p.Numbered() then 1 else 0))
            && s'.dropped == s.dropped && s'.clock == s.clock && s'.max == s.max && s'.queue == s.queue
  {
    hide Inv, Outgoing.Valid;
    LockOf(s, t);
  }

  lemma StampStep(s: State, t: nat, granted: bool, p: Outgoing, queued: bool, rest: seq<Action>, sinks: seq<SinkId>,
                  number: nat)
    requires Inv(s) && t < |s.threads| && s.threads[t] == Thread([Emit(p, queued)] + rest, Numbered(sinks, number))
    requires p.Valid(s.max)
    ensures var s' := Next(s, Step(t, Proceed(granted)));
            && s'.threads == s.threads[t := Thread(rest, Sending(Streamed(sinks, p, s.max, number, s.clock % WRAP)))]
            && s'.em.trace == s.em.trace && s'.em.seqNo == s.em.seqNo && s'.em.slots == s.em.slots
            && s'.dropped == s.dropped && s'.max == s.max && s'.queue == s.queue
  {
    hide Inv, Outgoing.Valid, Streamed;
    LockOf(s, t);
    assert ([Emit(p, queued)] + rest)[1..] == rest;
  }

  lemma Wait(clock: nat, time: U32) returns (n: nat)
    ensures (clock + n) % WRAP == time
  {
    n := (time - clock) % WRAP;
  }

  lemma TickStep(s: State, n: nat)
    requires Inv(s)
    ensures Next(s, Tick(n)) == s.(clock := s.clock + n)
  {
    hide Inv;
  }

  /** The packet is streamed once the clock shows the given time. */
  lemma EmitAlone(s: State, t: nat, granted: bool, p: Outgoing, queued: bool, rest: seq<Action>, time: U32)
    returns (turns: seq<Turn>)
    requires Inv(s) && Ready(s, t, [Emit(p, queued)] + rest) && p.Valid(s.max)
    ensures Runs(s, turns) && Undisturbed(turns, t, granted)
    ensures var r := Run(s, turns);
            && Ready(r, t, rest) && r.em.slots == s.em.slots && r.dropped == s.dropped && r.max == s.max
            && r.em.trace == s.em.trace + Streamed(Captured(s.em.slots), p, s.max, s.em.seqNo, time)
            && r.em.seqNo == s.em.seqNo + (if p.Numbered() then 1 else 0) && r.queue == s.queue
  {
    hide Inv, Next, Outgoing.Valid, Streamed, Captured;
    var n := Wait(s.clock, time);
    TickStep(s, n);
    NextKeepsInv(s, Tick(n));
    var s0, turn := Next(s, Tick(n)), Step(t, Proceed(granted));
    OpenStep(s0, t, granted, p, queued, rest);
    NextKeepsInv(s0, turn);
    var s1 := Next(s0, turn);
    NumberStep(s1, t, granted, p, queued, rest, Captured(s.em.slots));
    NextKeepsInv(s1, turn);
    var s2 := Next(s1, turn);
    turns := StampAndSend(s2, t, granted, p, queued, rest, Captured(s.em.slots), s.em.seqNo);
    Prepend(s1, turn, turns);
    Prepend(s0, turn, [turn] + turns);
    Prepend(s, Tick(n), [turn] + ([turn] + turns));
    turns := [Tick(n)] + ([turn] + ([turn] + turns));
  }

  lemma StampAndSend(s: State, t: nat, granted: bool, p: Outgoing, queued: bool, rest: seq<Action>, sinks: seq<SinkId>,
                     number: nat) returns (turns: seq<Turn>)
    requires Inv(s) && t < |s.threads| && s.threads[t] == Thread([Emit(p, queued)] + rest, Numbered(sinks, number))
    requires p.Valid(s.max)
    ensures Runs(s, turns) && Undisturbed(turns, t, granted)
    ensures var r := Run(s, turns);
            && Ready(r, t, rest) && r.em.slots == s.em.slots && r.dropped == s.dropped && r.max == s.max
            && r.em.trace == s.em.trace + Streamed(sinks, p, s.max, number, s.clock % WRAP)
            && r.em.seqNo == s.em.seqNo && r.queue == s.queue
  {
    hide Inv, Next, Outgoing.Valid, Streamed;
    var turn := Step(t, Proceed(granted));
    StampStep(s, t, granted, p, queued, rest, sinks, number);
    NextKeepsInv(s, turn);
    turns := SendRest(Next(s, turn), t, granted);
    Prepend(s, turn, turns);
    turns := [turn] + turns;
  }

  /** Counter and queue operations take one step and no lock. */
  lemma OutsideStep(s: State, t: nat, granted: bool, a: Action, rest: seq<Action>)
    requires Inv(s) && Ready(s, t, [a] + rest) && (a.Exchange? || a.Refuse? || a.Enqueue?)
    ensures var s' := Next(s, Step(t, Proceed(granted)));
            && s'.em == s.em && s'.max == s.max
            && s'.queue == s.queue + (if a.Enqueue? && granted then [a.packet] else [])
            && s'.dropped == (if a.Exchange? then 0 else if a.Refuse? then (s.dropped + 1) % WRAP else s.dropped)
            && Ready(s', t, if a.Exchange? && s.dropped != 0 then [Emit(Dropped(s.dropped), false)] + rest
                            else if a.Enqueue? && !granted then [Refuse] + rest
                            else rest)
  {
    hide Inv, Tasks;
    ThreadsAsked(s);
    assert ([a] + rest)[1..] == rest;
    assert [] + rest == rest && s.queue + [] == s.queue;
  }

  /** Between s and r exactly this effect took place. */
  predicate Did(s: State, r: State, e: Effect) {
    && r.em.trace == s.em.trace + e.events && r.queue == s.queue + e.queued
    && r.em.seqNo == e.counters.seqNo && r.dropped == e.counters.dropped
    && r.em.slots == s.em.slots && r.max == s.max
  }

  lemma DidBoth(s: State, m: State, r: State, e: Effect, f: Effect)
    requires Did(s, m, e) && Did(m, r, f)
    ensures Did(s, r, Then(e, f))
  {
    assert s.em.trace + e.events + f.events == s.em.trace + (e.events + f.events);
    assert s.queue + e.queued + f.queued == s.queue + (e.queued + f.queued);
  }

  /**
   * One thread that runs its actions undisturbed has exactly their effect, whatever the clock shows at each of its
   * readings and whether or not the queue takes what it is handed.
   */
  lemma {:induction false} RunAlone(s: State, t: nat, todo: seq<Action>, w: World, readings: nat) returns (turns: seq<Turn>)
    requires Inv(s) && Ready(s, t, todo) && Plain(todo, s.max) && w.sinks == Captured(s.em.slots) && w.max == s.max
    ensures Runs(s, turns) && Undisturbed(turns, t, w.granted) && Ready(Run(s, turns), t, [])
    ensures Did(s, Run(s, turns), Alone(todo, w, Counters(s.em.seqNo, s.dropped, readings)))
    decreases |todo|
  {
    hide Inv, Next, Outgoing.Valid, Streamed, Captured, First;
    var c := Counters(s.em.seqNo, s.dropped, readings);
    if todo == [] {
      turns := [];
      assert Run(s, turns) == s;
    } else {
      var a, rest := todo[0], todo[1..];
      assert todo == [a] + rest && a in todo;
      var e := First(a, w, c);
      var first := DoFirst(s, t, a, rest, w, readings);
      var m := Run(s, first);
      turns := RunAlone(m, t, rest, w, e.counters.readings);
      RunAppend(s, first, turns);
      DidBoth(s, m, Run(m, turns), e, Alone(rest, w, e.counters));
      turns := first + turns;
    }
  }

  /** The first action, with the drop report an exchange may bring along or the refusal of a full queue. */
  lemma DoFirst(s: State, t: nat, a: Action, rest: seq<Action>, w: World, readings: nat) returns (turns: seq<Turn>)
    requires Inv(s) && Ready(s, t, [a] + rest) && PlainAction(a, s.max)
    requires w.sinks == Captured(s.em.slots) && w.max == s.max
    ensures Runs(s, turns) && Undisturbed(turns, t, w.granted) && Ready(Run(s, turns), t, rest)
    ensures Did(s, Run(s, turns), First(a, w, Counters(s.em.seqNo, s.dropped, readings)))
  {
    hide Inv, Next, Outgoing.Valid, Streamed, Captured;
    if a.Emit? {
      turns := EmitAlone(s, t, w.granted, a.p, a.queued, rest, w.clock(readings));
      assert s.queue + [] == s.queue;
    } else {
      var turn := Step(t, Proceed(w.granted));
      OutsideStep(s, t, w.granted, a, rest);
      NextKeepsInv(s, turn);
      turns := AfterFirst(s, Next(s, turn), t, a, rest, w, readings);
      Prepend(s, turn, turns);
      turns := [turn] + turns;
    }
  }

  lemma AfterFirst(s: State, s': State, t: nat, a: Action, rest: seq<Action>, w: World, readings: nat)
    returns (turns: seq<Turn>)
    requires Inv(s') && w.sinks == Captured(s.em.slots) && w.max == s.max && (a.Exchange? || a.Refuse? || a.Enqueue?)
    requires s'.em == s.em && s'.max == s.max
    requires s'.queue == s.queue + (if a.Enqueue? && w.granted then [a.packet] else [])
    requires s'.dropped == (if a.Exchange? then 0 else if a.Refuse? then (s.dropped + 1) % WRAP else s.dropped)
    requires Ready(s', t, if a.Exchange? && s.dropped != 0 then [Emit(Dropped(s.dropped), false)] + rest
                          else if a.Enqueue? && !w.granted then [Refuse] + rest
                          else rest)
    ensures Runs(s', turns) && Undisturbed(turns, t, w.granted) && Ready(Run(s', turns), t, rest)
    ensures Did(s, Run(s', turns), First(a, w, Counters(s.em.seqNo, s.dropped, readings)))
  {
    hide Inv, Next, Outgoing.Valid, Streamed, Captured;
    assert s.em.trace + [] == s.em.trace && s.queue + [] == s.queue;
    turns := [];
    if a.Exchange? && s.dropped != 0 {
      DroppedIsValid(s.dropped, s.max);
      turns := EmitAlone(s', t, w.granted, Dropped(s.dropped), false, rest, w.clock(readings));
    } else if a.Enqueue? && !w.granted {
      var turn := Step(t, Proceed(w.granted));
      OutsideStep(s', t, w.granted, Refuse, rest);
      NextKeepsInv(s', turn);
      Prepend(s', turn, []);
      assert Run(Next(s', turn), []) == Next(s', turn);
      turns := [turn] + [];
    } else {
      assert Run(s', []) == s';
    }
  }

  lemma DroppedIsValid(count: U32, max: MaxString)
    ensures Dropped(count).Valid(max)
  {
  }

  /** An idle thread is asked for something: its actions are those of the request. */
  lemma AskStep(s: State, t: nat, r: Request)
    requires Inv(s) && Ready(s, t, []) && RequestOk(r, s.max) && (r.DrainOne? ==> t == DRAIN)
    ensures s.chunkSize >= 1
    ensures var s' := Next(s, Step(t, Call(r)));
            && Ready(s', t, Actions(r, s.max, s.chunkSize))
            && s'.em == s.em && s'.queue == s.queue && s'.dropped == s.dropped && s'.max == s.max
            && s'.chunkSize == s.chunkSize
  {
    hide Inv, Actions, Tasks, RequestOk;
    ThreadsAsked(s);
  }

  /** A whole request of plain actions, from the call to the return, undisturbed. */
  lemma RequestAlone(s: State, t: nat, r: Request, w: World, readings: nat) returns (turns: seq<Turn>)
    requires Inv(s) && Ready(s, t, []) && RequestOk(r, s.max) && !r.DrainOne? && s.chunkSize >= 1
    requires Plain(Actions(r, s.max, s.chunkSize), s.max) && w.sinks == Captured(s.em.slots) && w.max == s.max
    ensures Runs(s, [Step(t, Call(r))] + turns) && Undisturbed(turns, t, w.granted)
    ensures var e := Run(s, [Step(t, Call(r))] + turns);
            && Ready(e, t, [])
            && Did(s, e, Alone(Actions(r, s.max, s.chunkSize), w, Counters(s.em.seqNo, s.dropped, readings)))
  {
    hide Inv, Next, Actions, Alone, Plain, RequestOk, Captured;
    var turn := Step(t, Call(r));
    AskStep(s, t, r);
    NextKeepsInv(s, turn);
    turns := RunAlone(Next(s, turn), t, Actions(r, s.max, s.chunkSize), w, readings);
    Prepend(s, turn, turns);
  }

  lemma ReceiveStep(s: State, granted: bool)
    requires Inv(s) && Ready(s, DRAIN, [Receive]) && s.queue != []
    ensures Dispatchable(s.queue[0])
    ensures var s' := Next(s, Step(DRAIN, Proceed(granted)));
            && Ready(s', DRAIN, [Exchange, Emit(Prebuilt(s.queue[0]), true)])
            && s'.em == s.em && s'.queue == s.queue[1..] && s'.dropped == s.dropped && s'.max == s.max
  {
    ThreadsAsked(s);
    assert s.queue[0] in s.queue;
    assert [Receive][1..] == [];
    assert QueueOk(s);
    hide Inv, Tasks, QueueOk, Dispatchable;
  }

  /**
   * The drain thread, undisturbed: it takes the oldest packet from the queue and does with it what a caller's dispatch
   * of that packet does, the drop report before it included.
   */
  lemma DrainRunsAlone(s: State, w: World, readings: nat) returns (turns: seq<Turn>)
    requires Inv(s) && Ready(s, DRAIN, []) && s.queue != [] && w.sinks == Captured(s.em.slots) && w.max == s.max
    ensures s.chunkSize >= 1
    ensures Runs(s, [Step(DRAIN, Call(DrainOne))] + turns) && Undisturbed(turns, DRAIN, w.granted)
    ensures var dispatch := Actions(Dispatch(Data(s.queue[0])), s.max, s.chunkSize);
            var r := Run(s, [Step(DRAIN, Call(DrainOne))] + turns);
            && Plain(dispatch, s.max) && Ready(r, DRAIN, []) && r.queue == s.queue[1..]
            && Did(s.(queue := s.queue[1..]), r, Alone(dispatch, w, Counters(s.em.seqNo, s.dropped, readings)))
  {
    hide Inv, Next, Alone, Plain, Captured, First, Dispatchable;
    var ask, turn := Step(DRAIN, Call(DrainOne)), Step(DRAIN, Proceed(w.granted));
    AskStep(s, DRAIN, DrainOne);
    NextKeepsInv(s, ask);
    var s1 := Next(s, ask);
    ReceiveStep(s1, w.granted);
    NextKeepsInv(s1, turn);
    var s2 := Next(s1, turn);
    var p, c := Prebuilt(s.queue[0]), Counters(s.em.seqNo, s.dropped, readings);
    DispatchableIsValid(s.queue[0], s.max);
    AloneTwo(Emit(p, true), w, c);
    AloneTwo(Emit(p, false), w, c);
    SameEmission(p, w, First(Exchange, w, c).counters);
    turns := RunAlone(s2, DRAIN, [Exchange, Emit(p, true)], w, readings);
    DispatchEffect(p, w, c);
    Prepend(s1, turn, turns);
    Prepend(s, ask, [turn] + turns);
    assert s.queue[1..] + [] == s.queue[1..];
    turns := [turn] + turns;
  }

  /** Where a packet comes from makes no difference to its emission. */
  lemma SameEmission(p: Outgoing, w: World, c: Counters)
    requires p.Valid(w.max)
    ensures First(Emit(p, true), w, c) == First(Emit(p, false), w, c)
  {
  }

  lemma DispatchEffect(p: Outgoing, w: World, c: Counters)
    requires p.Valid(w.max)
    ensures Plain([Exchange, Emit(p, false)], w.max) && Alone([Exchange, Emit(p, false)], w, c).queued == []
  {
    hide Outgoing.Valid, Streamed, Alone, Plain;
    AloneTwo(Emit(p, false), w, c);
  }

  /** A request to change the sink table, undisturbed: the table is updated once, and nothing else happens. */
  lemma TableRunsAlone(s: State, t: nat, r: Request) returns (turns: seq<Turn>)
    requires Inv(s) && Ready(s, t, []) && (r.AddSink? || r.RemoveSink?)
    ensures Runs(s, [Step(t, Call(r))] + turns) && Undisturbed(turns, t, true)
    ensures var e := Run(s, [Step(t, Call(r))] + turns);
            && Ready(e, t, []) && e.em.slots == TableAfter(s.em.slots, r)
            && e.em.trace == s.em.trace && e.em.seqNo == s.em.seqNo && e.queue == s.queue && e.dropped == s.dropped
  {
    hide Inv, Next, Updated;
    var a := if r.AddSink? then Add(r.sink) else Remove(r.sink);
    var ask, turn := Step(t, Call(r)), Step(t, Proceed(true));
    AskStep(s, t, r);
    NextKeepsInv(s, ask);
    var s1 := Next(s, ask);
    TableStepAlone(s1, t, a);
    NextKeepsInv(s1, turn);
    var s2 := Next(s1, turn);
    UpdateStep(s2, t, a);
    NextKeepsInv(s2, turn);
    var s3 := Next(s2, turn);
    turns := SendRest(s3, t, true);
    UpdateIgnoresHistory(s.em, a);
    Prepend(s2, turn, turns);
    Prepend(s1, turn, [turn] + turns);
    Prepend(s, ask, [turn] + ([turn] + turns));
    assert s.em.trace + [] == s.em.trace;
    turns := [turn] + ([turn] + turns);
  }

  lemma TableStepAlone(s: State, t: nat, a: Action)
    requires Inv(s) && Ready(s, t, [a]) && (a.Add? || a.Remove?)
    ensures Next(s, Step(t, Proceed(true))) == s.(lock := Some(t), threads := s.threads[t := Thread([a], Updating)])
  {
    hide Inv, Tasks;
    ThreadsAsked(s);
  }

  lemma UpdateStep(s: State, t: nat, a: Action)
    requires Inv(s) && t < |s.threads| && s.threads[t] == Thread([a], Updating) && (a.Add? || a.Remove?)
    ensures var s' := Next(s, Step(t, Proceed(true)));
            && s'.threads == s.threads[t := Thread([], Sending([]))] && s'.em == Updated(s.em, a)
            && s'.dropped == s.dropped && s'.max == s.max && s'.queue == s.queue
  {
    hide Inv, Updated;
    LockOf(s, t);
    assert [a][1..] == [];
  }

  lemma UpdateIgnoresHistory(em: Emission, a: Action)
    requires a.Add? || a.Remove?
    ensures Updated(em, a).slots == Updated(Emission(em.slots, 0, [], []), a).slots
    ensures Updated(em, a).trace == em.trace && Updated(em, a).seqNo == em.seqNo
  {
  }

  // ---- The logger's methods, as requests ----

  ghost function WorldOf(l: Logger.Logger, granted: bool): World
    reads l, l.slots
  {
    World(l.Sinks(), l.max, l.clock, granted)
  }

  function CountersOf(l: Logger.Logger): Counters
    reads l
  {
    Counters(l.seqNo, l.dropped, l.readings)
  }

  /** The logger went from its old trace and queue through exactly this effect. */
  ghost predicate Became(l: Logger.Logger, trace: seq<Event>, queue: seq<seq<Byte>>, e: Effect)
    reads l
  {
    l.trace == trace + e.events && l.queue == queue + e.queued && CountersOf(l) == e.counters
  }

  lemma AloneNothing(w: World, c: Counters)
    ensures Plain([], w.max) && Alone([], w, c) == Effect([], [], c)
  {
  }

  lemma AloneOne(a: Action, w: World, c: Counters)
    requires PlainAction(a, w.max)
    ensures Plain([a], w.max) && Alone([a], w, c) == First(a, w, c)
  {
    hide Outgoing.Valid, First;
    assert [a][1..] == [];
    var e := First(a, w, c);
    assert e.events + [] == e.events && e.queued + [] == e.queued;
  }

  lemma AloneFirst(a: Action, rest: seq<Action>, w: World, c: Counters)
    requires PlainAction(a, w.max) && Plain(rest, w.max)
    ensures Plain([a] + rest, w.max)
    ensures Alone([a] + rest, w, c) == Then(First(a, w, c), Alone(rest, w, First(a, w, c).counters))
  {
    hide Outgoing.Valid, First;
    assert ([a] + rest)[1..] == rest;
  }

  /** Report first, then the packet or the refusal. */
  lemma AloneTwo(b: Action, w: World, c: Counters)
    requires PlainAction(b, w.max)
    ensures Plain([Exchange, b], w.max)
    ensures Alone([Exchange, b], w, c) == Then(First(Exchange, w, c), First(b, w, First(Exchange, w, c).counters))
  {
    hide Outgoing.Valid, First, Alone, Plain;
    AloneOne(b, w, First(Exchange, w, c).counters);
    AloneFirst(Exchange, [b], w, c);
    assert [Exchange] + [b] == [Exchange, b];
  }

  /** A log call. */
  method WriteAlone(l: Logger.Logger, c: LogCall) returns (inside: bool)
    requires c.Valid(l.max) && l.chunkSize >= 1
    modifies l
    ensures inside && c.Valid(l.max) && Plain(Actions(WriteLog(c), l.max, l.chunkSize), l.max)
    ensures Became(l, old(l.trace), old(l.queue),
                   Alone(Actions(WriteLog(c), l.max, l.chunkSize), old(WorldOf(l, true)), old(CountersOf(l))))
  {
    hide LogCall.Valid, Fits, Streamed, Alone, Captured, Plain;
    AloneTwo(if Fits(c, l.max) then Emit(Log(c), false) else Refuse, WorldOf(l, true), CountersOf(l));
    ValidIsShaped(c, l.max);
    inside := l.Write(true, c);
  }

  method BootAlone(l: Logger.Logger, bootId: U32, reason: Byte, idKind: Byte, id: seq<Byte>)
    requires |id| <= IMAGE_ID_MAX_LEN && l.chunkSize >= 1
    modifies l
    ensures Plain(Actions(EmitBoot(bootId, reason, idKind, id), l.max, l.chunkSize), l.max)
    ensures Became(l, old(l.trace), old(l.queue),
                   Alone(Actions(EmitBoot(bootId, reason, idKind, id), l.max, l.chunkSize), old(WorldOf(l, true)),
                         old(CountersOf(l))))
  {
    hide Streamed, Alone, Captured, Plain;
    AloneOne(Emit(Boot(bootId, reason, idKind, id), false), WorldOf(l, true), CountersOf(l));
    l.EmitBoot(bootId, reason, idKind, id);
  }

  method DispatchAlone(l: Logger.Logger, packet: Option<seq<Byte>>) returns (status: Status)
    requires l.chunkSize >= 1
    modifies l
    ensures l.queue == old(l.queue)
    ensures var todo := Actions(Dispatch(if packet.Some? then Data(packet.value) else Null(0)), l.max, l.chunkSize);
            && Plain(todo, l.max)
            && Became(l, old(l.trace), old(l.queue), Alone(todo, old(WorldOf(l, true)), old(CountersOf(l))))
  {
    hide Streamed, Captured, Outgoing.Valid, Alone, Plain;
    AloneNothing(WorldOf(l, true), CountersOf(l));
    if packet.Some? && Dispatchable(packet.value) {
      DispatchableIsValid(packet.value, l.max);
      AloneTwo(Emit(Prebuilt(packet.value), false), WorldOf(l, true), CountersOf(l));
      TimeIsKept(l.Sinks(), packet.value, l.max, l.seqNo + (if l.dropped == 0 then 0 else 1),
                 l.clock(l.readings + (if l.dropped == 0 then 0 else 1)));
    }
    status := l.DispatchPacket(packet);
  }

  lemma DispatchableIsValid(packet: seq<Byte>, max: MaxString)
    requires Dispatchable(packet)
    ensures Prebuilt(packet).Valid(max)
  {
  }

  /** One turn of the drain task: the oldest packet of the queue is dispatched as if handed over by a caller. */
  method DrainAlone(l: Logger.Logger) returns (status: Status)
    requires l.chunkSize >= 1 && l.queue != []
    modifies l
    ensures l.queue == old(l.queue)[1..]
    ensures var todo := Actions(Dispatch(Data(old(l.queue)[0])), l.max, l.chunkSize);
            && Plain(todo, l.max)
            && Became(l, old(l.trace), old(l.queue)[1..], Alone(todo, old(WorldOf(l, true)), old(CountersOf(l))))
  {
    hide Alone, Plain, Outgoing.Valid, Actions;
    var packet := l.Receive();
    status := DispatchAlone(l, Some(packet));
  }

  /** A serialised packet keeps its own time. */
  lemma TimeIsKept(sinks: seq<SinkId>, packet: seq<Byte>, max: MaxString, seqNo: nat, time: U32)
    requires Dispatchable(packet)
    ensures Streamed(sinks, Prebuilt(packet), max, seqNo, time) == Streamed(sinks, Prebuilt(packet), max, seqNo, 0)
  {
  }

  /** A log call from an interrupt, with the port ready: the packet is queued, or one more drop is counted. */
  method IsrAlone(l: Logger.Logger, c: LogCall, cap: nat, time: U32, granted: bool) returns (ok: bool)
    requires c.Valid(l.max) && l.chunkSize >= 1 && 32 <= cap <= 3072
    modifies l
    ensures c.Valid(l.max)
    ensures var todo := Actions(WriteIsr(c, cap, time), l.max, l.chunkSize);
            && Plain(todo, l.max)
            && Became(l, old(l.trace), old(l.queue), Alone(todo, old(WorldOf(l, granted)), old(CountersOf(l))))
            && (ok <==> Alone(todo, old(WorldOf(l, granted)), old(CountersOf(l))).queued != [])
  {
    hide LogCall.Valid, LogPayload, Streamed, Captured, Alone, Plain, Encoder.IsrSafe, Encoder.IsrPacket;
    var fits := Encoder.IsrSafe(c.args) && HEADER_LEN + |LogPayload(c, l.max)| <= cap;
    AloneOne(if fits then Enqueue(Encoder.IsrPacket(c, l.max, time)) else Refuse, WorldOf(l, granted), CountersOf(l));
    ok := l.WriteIsr(true, true, c, cap, time, granted);
  }

  lemma {:induction false} AloneEmits(l: Logger.Logger, ps: seq<Outgoing>, w: World, c: Counters)
    requires w == WorldOf(l, true) && forall p :: p in ps ==> p.Valid(l.max) && p.BufferPart?
    ensures Plain(Emits(ps), l.max)
    ensures Alone(Emits(ps), w, c)
            == Effect(l.StreamedAll(ps, c.seqNo, c.readings), [],
                      Counters(c.seqNo + |ps|, c.dropped, c.readings + |ps|))
    decreases |ps|
  {
    hide Outgoing.Valid, Streamed, Captured, Plain;
    if ps == [] {
      AloneNothing(w, c);
    } else {
      var a, c' := Emit(ps[0], false), Counters(c.seqNo + 1, c.dropped, c.readings + 1);
      AloneEmits(l, ps[1..], w, c');
      AloneFirst(a, Emits(ps[1..]), w, c);
      assert Emits(ps) == [a] + Emits(ps[1..]);
    }
  }

  /** A buffer that can be read: reported drops, then every part, or one more refusal. */
  method BufferAlone(l: Logger.Logger, level: Nibble, tag: CString, buffer: Buffer)
    requires l.chunkSize >= 1 && ValidString(tag, l.max)
    modifies l
    ensures Plain(Actions(WriteBuffer(level, tag, buffer), l.max, l.chunkSize), l.max)
    ensures Became(l, old(l.trace), old(l.queue),
                   Alone(Actions(WriteBuffer(level, tag, buffer), l.max, l.chunkSize), old(WorldOf(l, true)),
                         old(CountersOf(l))))
  {
    hide Streamed, Captured, Alone, Plain, Outgoing.Valid, BufferFits, BufferParts, WireStrBytes, Actions,
      Logger.Logger.StreamedAll;
    BufferEffect(l, level, tag, buffer);
    l.WriteBuffer(true, level, tag, buffer);
  }

  lemma BufferEffect(l: Logger.Logger, level: Nibble, tag: CString, buffer: Buffer)
    requires l.chunkSize >= 1 && ValidString(tag, l.max)
    ensures Plain(Actions(WriteBuffer(level, tag, buffer), l.max, l.chunkSize), l.max)
    ensures var e := Alone(Actions(WriteBuffer(level, tag, buffer), l.max, l.chunkSize), WorldOf(l, true), CountersOf(l));
            var k := if l.dropped == 0 then 0 else 1;
            var report := if k == 0 then [] else Streamed(l.Sinks(), Dropped(l.dropped), l.max, l.seqNo, l.clock(l.readings));
            if !Acceptable(buffer) then e == Refused(CountersOf(l))
            else if !BufferFits(tag, l.max, l.chunkSize) then e == Effect(report, [], Counters(l.seqNo + k, 1, l.readings + k))
            else
              var parts := BufferParts(level, tag, Readable(buffer), l.max, l.chunkSize);
              && (forall p :: p in parts ==> p.Valid(l.max))
              && e == Effect(report + l.StreamedAll(parts, l.seqNo + k, l.readings + k), [],
                             Counters(l.seqNo + k + |parts|, 0, l.readings + k + |parts|))
  {
    hide Streamed, Captured, Alone, Plain, Outgoing.Valid, BufferFits, BufferParts, WireStrBytes,
      Logger.Logger.StreamedAll;
    var w, c := WorldOf(l, true), CountersOf(l);
    if !Acceptable(buffer) {
      AloneOne(Refuse, w, c);
    } else if !BufferFits(tag, l.max, l.chunkSize) {
      AloneTwo(Refuse, w, c);
    } else {
      var parts := BufferParts(level, tag, Readable(buffer), l.max, l.chunkSize);
      PartsAreValid(level, tag, buffer, l.max, l.chunkSize);
      AloneEmits(l, parts, w, First(Exchange, w, c).counters);
      AloneFirst(Exchange, Emits(parts), w, c);
    }
  }

  lemma PartsAreValid(level: Nibble, tag: CString, buffer: Buffer, max: MaxString, chunkSize: nat)
    requires chunkSize >= 1 && ValidString(tag, max) && Acceptable(buffer) && BufferFits(tag, max, chunkSize)
    ensures forall p :: p in BufferParts(level, tag, Readable(buffer), max, chunkSize) ==> p.Valid(max) && p.BufferPart?
  {
    hide BufferParts, Outgoing.Valid, BufferFits, Reassembled;
    BufferArrivesWhole(level, tag, Readable(buffer), max, chunkSize);
  }

  // ---- The sink table ----

  /** The table as the interleaved model changes it for a request. */
  function TableAfter(slots: seq<Option<SinkId>>, r: Request): seq<Option<SinkId>>
    requires r.AddSink? || r.RemoveSink?
  {
    Updated(Emission(slots, 0, [], []), if r.AddSink? then Add(r.sink) else Remove(r.sink)).slots
  }

  method AddAlone(l: Logger.Logger, x: SinkId) returns (status: Status)
    modifies l.slots
    ensures l.slots[..] == TableAfter(old(l.slots[..]), AddSink(x))
    ensures status == OK <==> Some(x) in l.slots[..]
  {
    status := l.AddSink(Logger.Ready(x));
  }

  method RemoveAlone(l: Logger.Logger, x: SinkId) returns (status: Status)
    modifies l.slots
    ensures l.slots[..] == TableAfter(old(l.slots[..]), RemoveSink(x))
    ensures status == OK <==> Some(x) in old(l.slots[..])
  {
    status := l.RemoveSink(Logger.Ready(x));
  }
}
