/**
 * Set, clear and lookup calls from beginning to end: how many steps a call
 * takes under the lock, and what a call does that nobody disturbs.
 */
module TagFilterCalls {
  import opened Bytes
  import opened TagFilterMachine

  // ---- Calls end ----

  /** Own steps left in a set or clear call, waiting for the lock and for readers aside. */
  function Rank(m: Memory, pc: PC): int {
    var n := |m.nodes|;
    match pc
    case SetLock(_, _, second) => if second then 2 * n + 10 else 3 * n + 14
    case SetScan(_, _, second, k) => if second then k + n + 10 else k + 2 * n + 14
    case SetUnlock(_, _) => 2 * n + 12
    case SetAlloc(_, _) => 2 * n + 11
    case SetReuse(_, _, k) => k + 9
    case SetWait(_, _, _) => 7
    case SetFree(_, _, _) => 6
    case SetTag(_, _, _) => 5
    case SetNewLevel(_, _, _) => 4
    case SetTouch(_, _, _) => 5
    case SetLevel(_, _, _, _) => 4
    case SetActive(_, _, _) => 3
    case SetCalloc(_, _) => 5
    case SetInsert(_, _) => 4
    case IncCountNew => 3
    case IncCount | SetHead | DecCount => 2
    case ClearLock(_) => n + 5
    case ClearScan(_, k) => k + 5
    case ClearExchange(_, _) => 3
    case Unlock | StoreDefault(_) => 1
    case _ => 0
  }

  predicate Waiting(m: Memory, w: PC) {
    w.SetWait? && 0 <= w.k < |m.readers| && m.readers[w.k] > 0
  }

  /** Every step of the lock holder brings its call closer to its end, unless it waits for readers. */
  lemma HolderStepCounts(m: Memory, w: PC, granted: bool)
    requires Holding(w) && WriterShape(m, w) && !Waiting(m, w)
    ensures Rank(m, w) > Rank(WriterMemory(m, w), WriterNext(m, w, granted)) >= 0
  {
  }

  lemma RankIsPositive(m: Memory, w: PC)
    requires WriterShape(m, w)
    ensures Rank(m, w) >= 0 && (Holding(w) ==> 0 < Rank(m, w) <= 3 * |m.nodes| + 14)
  {
  }

  /** Thread u holds the lock in every state of the run but possibly the last. */
  predicate HoldsUntilEnd(s: State, schedule: Schedule, u: nat)
    requires Inv(s) && Runs(s, schedule) && u < |s.pcs|
    decreases |schedule|
  {
    schedule == [] || (Holding(s.pcs[u]) && HoldsUntilEnd(After(s, schedule[0]), schedule[1..], u))
  }

  function After(s: State, turn: (nat, Choice)): (r: State)
    requires Inv(s) && turn.0 < |s.pcs|
    ensures Inv(r) && |r.pcs| == |s.pcs|
  {
    NextKeepsInv(s, turn.0, turn.1);
    KeepsThreads(s, turn.0, turn.1);
    Next(s, turn.0, turn.1)
  }

  /** Turns of thread u in which it did not just wait for readers. */
  function Progress(s: State, schedule: Schedule, u: nat): nat
    requires Inv(s) && Runs(s, schedule) && u < |s.pcs|
    decreases |schedule|
  {
    if schedule == [] then 0
    else (if schedule[0].0 == u && !Waiting(s.mem, s.pcs[u]) then 1 else 0)
         + Progress(After(s, schedule[0]), schedule[1..], u)
  }

  lemma HolderTurn(s: State, u: nat, v: nat, c: Choice)
    requires Inv(s) && u < |s.pcs| && v < |s.pcs| && Holding(s.pcs[u])
    ensures WriterShape(s.mem, s.pcs[u])
    ensures var s' := Next(s, v, c);
            if v == u && !Waiting(s.mem, s.pcs[u]) then 0 <= Rank(s'.mem, s'.pcs[u]) < Rank(s.mem, s.pcs[u])
            else s'.pcs[u] == s.pcs[u] && Rank(s'.mem, s'.pcs[u]) == Rank(s.mem, s.pcs[u])
  {
    HolderShape(s, u);
    NextNodes(s, v, c);
    if v == u {
      OwnHolderTurn(s, u, c);
      if !Waiting(s.mem, s.pcs[u]) { HolderStepCounts(s.mem, s.pcs[u], c.Proceed? && c.granted); }
    } else {
      OthersDoNotMove(s, u, v, c);
      OneHolder(s, u, v);
    }
    hide Inv, Next, Holding, WriterNext, WriterMemory, Waiting;
    if v != u || Waiting(s.mem, s.pcs[u]) { SameRank(s.mem, Next(s, v, c).mem, s.pcs[u]); }
  }

  lemma HolderShape(s: State, u: nat)
    requires Inv(s) && u < |s.pcs| && Holding(s.pcs[u])
    ensures WriterShape(s.mem, s.pcs[u]) && Writer(s) == s.pcs[u] && s.lock == Some(u)
  {
    hide ReadersOk, ThreadsOk, WriterKnows, TagsOk, LevelsOk, CountOk, HeadOk, Holding;
  }

  lemma OneHolder(s: State, u: nat, v: nat)
    requires Inv(s) && u < |s.pcs| && v < |s.pcs| && u != v && Holding(s.pcs[u])
    ensures !Holding(s.pcs[v])
  {
    hide WriterOk, ReadersOk, ThreadsOk, Holding;
  }

  lemma OwnHolderTurn(s: State, u: nat, c: Choice)
    requires Inv(s) && u < |s.pcs| && Holding(s.pcs[u]) && WriterShape(s.mem, s.pcs[u])
    ensures var s' := Next(s, u, c);
            && s'.pcs[u] == WriterNext(s.mem, s.pcs[u], c.Proceed? && c.granted)
            && s'.mem == WriterMemory(s.mem, s.pcs[u]) && s'.default == s.default
            && s'.lock == (if Releases(s.pcs[u]) then None else Some(u))
            && (Waiting(s.mem, s.pcs[u]) ==> s'.pcs[u] == s.pcs[u] && s'.mem == s.mem)
  {
    HolderShape(s, u);
    NotElsewhere(s.pcs[u]);
    hide Inv, Holding, IsLookup, WriterShape, Active, LookupNext;
  }

  lemma NotElsewhere(w: PC)
    requires Holding(w)
    ensures !w.Idle? && !IsLookup(w)
  {
  }

  lemma SameRank(m: Memory, m': Memory, pc: PC)
    requires |m'.nodes| == |m.nodes|
    ensures Rank(m', pc) == Rank(m, pc)
  {
  }

  /**
   * Whatever else runs, a thread that has taken the lock gives it back after a number of its own steps, waiting for
   * readers aside, that the length of the list bounds.
   */
  lemma {:induction false} CriticalSectionsEnd(s: State, schedule: Schedule, u: nat)
    requires Inv(s) && Runs(s, schedule) && u < |s.pcs| && Holding(s.pcs[u]) && HoldsUntilEnd(s, schedule, u)
    ensures Progress(s, schedule, u) <= Rank(s.mem, s.pcs[u]) <= 3 * |s.mem.nodes| + 14
    decreases |schedule|
  {
    hide Inv, Next, Holding, Rank, Waiting;
    HolderShape(s, u);
    RankIsPositive(s.mem, s.pcs[u]);
    if schedule != [] {
      HolderTurn(s, u, schedule[0].0, schedule[0].1);
      var s' := After(s, schedule[0]);
      if Holding(s'.pcs[u]) {
        CriticalSectionsEnd(s', schedule[1..], u);
      } else {
        assert schedule[1..] == [];
      }
    }
  }

  // ---- Calls that nobody disturbs ----

  predicate Carried(nodes: seq<Node>, t: Tag) { exists k :: 0 <= k < |nodes| && nodes[k].tag == Some(t) }

  predicate Recyclable(nodes: seq<Node>) { exists k :: 0 <= k < |nodes| && !nodes[k].active }

  predicate NobodyInside(m: Memory) { forall k :: 0 <= k < |m.readers| ==> m.readers[k] == 0 }

  /** What memory a call gets: for the copy of the tag, and for a node. */
  datatype Grants = Grants(copy: bool, node: bool)

  function Turn(u: nat, pc: PC, g: Grants): (nat, Choice) {
    (u, Proceed(if pc.SetAlloc? then g.copy else g.node))
  }

  /** The change to the map that is still to come, given that nobody else changes the list. */
  function ToCome(nodes: seq<Node>, pc: PC, g: Grants): Change {
    match pc
    case SetLock(t, l, second) => if Carried(nodes, t) || CanAdd(nodes, second, g) then Put(t, l) else Keep
    case SetScan(t, l, second, _) => if Carried(nodes, t) || CanAdd(nodes, second, g) then Put(t, l) else Keep
    case SetUnlock(t, l) => if CanAdd(nodes, false, g) then Put(t, l) else Keep
    case SetAlloc(t, l) => if g.copy && (Carried(nodes, t) || CanAdd(nodes, true, g)) then Put(t, l) else Keep
    case SetReuse(t, l, _) => if CanAdd(nodes, true, g) then Put(t, l) else Keep
    case SetCalloc(t, l) => if g.node then Put(t, l) else Keep
    case SetTouch(t, l, _) => Put(t, l)
    case SetLevel(t, l, _, _) => Put(t, l)
    case SetActive(t, l, _) => Put(t, l)
    case SetWait(t, l, _) => Put(t, l)
    case SetFree(t, l, _) => Put(t, l)
    case SetTag(t, l, _) => Put(t, l)
    case SetNewLevel(t, l, _) => Put(t, l)
    case SetInsert(t, l) => Put(t, l)
    case ClearLock(t) => Drop(t)
    case ClearScan(t, _) => Drop(t)
    case ClearExchange(t, _) => Drop(t)
    case _ => Keep
  }

  /** There is memory for the copy, or it is there already, and a node to recycle or memory for one. */
  predicate CanAdd(nodes: seq<Node>, copied: bool, g: Grants) {
    (copied || g.copy) && (Recyclable(nodes) || g.node)
  }

  /** Inside or outside the lock in a set or clear call. */
  predicate Calling(pc: PC) {
    pc.SetLock? || pc.SetAlloc? || pc.ClearLock? || Holding(pc)
  }

  /** A step under the lock and what is still to come after it have the effect of what was to come before. */
  lemma HolderKeepsPlan(m: Memory, w: PC, g: Grants, q: Tag, l: Level)
    requires Holding(w) && WriterKnows(m, w) && TagsOk(m, w)
    ensures var granted := Turn(0, w, g).1.granted;
            InForceAfter(WriterMemory(m, w).nodes, ToCome(WriterMemory(m, w).nodes, WriterNext(m, w, granted), g), q, l)
            <==> InForceAfter(m.nodes, ToCome(m.nodes, w, g), q, l)
  {
    CommitIsExact(m, w, q, l);
    PlanStep(m, w, g);
    hide InForce, WriterMemory, WriterNext, WriterKnows, TagsOk, ToCome, Commit, Holding, NoTag;
    if w.ClearScan? && w.k < 0 && q == w.t { MissingTag(m, w, l); }
  }

  lemma MissingTag(m: Memory, w: PC, l: Level)
    requires WriterKnows(m, w) && w.ClearScan? && w.k < 0
    ensures !InForce(m.nodes, w.t, l)
  {
    NoTagNoLevel(m.nodes, w.t, l);
  }

  /** The plan is carried out by the commit, kept, or given up where a clear misses its tag. */
  predicate PlanKept(m: Memory, w: PC, g: Grants)
    requires Holding(w) && WriterShape(m, w)
  {
    var granted := Turn(0, w, g).1.granted;
    var plan, plan' := ToCome(m.nodes, w, g), ToCome(WriterMemory(m, w).nodes, WriterNext(m, w, granted), g);
    || (Commit(w) == Keep && plan' == plan)
    || (Commit(w) == plan && plan' == Keep)
    || (w.ClearScan? && w.k < 0 && Commit(w) == Keep && plan == Drop(w.t) && plan' == Keep)
  }

  predicate Scanning(w: PC) { w.SetScan? || w.SetUnlock? || w.SetReuse? || w.SetCalloc? || w.ClearScan? }

  lemma PlanKeptScanning(m: Memory, w: PC, g: Grants)
    requires Scanning(w) && WriterKnows(m, w)
    ensures PlanKept(m, w, g)
  {
  }

  lemma PlanKeptStoring(m: Memory, w: PC, g: Grants)
    requires Holding(w) && !Scanning(w) && WriterShape(m, w)
    ensures PlanKept(m, w, g)
  {
    hide Carried, CanAdd, Recyclable;
  }

  lemma PlanStep(m: Memory, w: PC, g: Grants)
    requires Holding(w) && WriterKnows(m, w)
    ensures PlanKept(m, w, g)
  {
    hide PlanKept, WriterKnows, Holding, WriterNext, WriterMemory;
    if Scanning(w) {
      PlanKeptScanning(m, w, g);
    } else {
      assert WriterShape(m, w) by { KnowsShape(m, w); }
      PlanKeptStoring(m, w, g);
    }
  }

  lemma KnowsShape(m: Memory, w: PC)
    requires WriterKnows(m, w)
    ensures WriterShape(m, w)
  {
  }

  /** The thread is in a call or past it, the lock is free or its own, and no lookup is inside a node. */
  predicate Undisturbed(s: State, u: nat) {
    && u < |s.pcs| && (Calling(s.pcs[u]) || s.pcs[u].Idle?)
    && s.lock in {None, Some(u)} && NobodyInside(s.mem)
  }

  lemma OutsideTurn(s: State, u: nat, g: Grants)
    requires Inv(s) && Undisturbed(s, u) && !s.pcs[u].Idle? && !Holding(s.pcs[u])
    ensures var s' := Next(s, u, Turn(u, s.pcs[u], g).1);
            && Undisturbed(s', u) && s'.mem == s.mem && (s'.pcs[u].Idle? ==> s'.lock.None?)
            && 0 <= Rank(s'.mem, s'.pcs[u]) < Rank(s.mem, s.pcs[u])
            && ToCome(s'.mem.nodes, s'.pcs[u], g) == ToCome(s.mem.nodes, s.pcs[u], g)
  {
    assert s.lock != Some(u);
    hide Inv, Carried, CanAdd, NobodyInside;
    NothingToAdd(s.mem.nodes, g);
  }

  lemma NothingToAdd(nodes: seq<Node>, g: Grants)
    ensures !g.copy ==> !CanAdd(nodes, false, g)
    ensures g.copy ==> CanAdd(nodes, false, g) == CanAdd(nodes, true, g)
  {
  }

  lemma HolderPlan(s: State, u: nat, g: Grants, q: Tag, l: Level)
    requires Inv(s) && u < |s.pcs| && Holding(s.pcs[u])
    ensures var s' := Next(s, u, Turn(u, s.pcs[u], g).1);
            InForceAfter(s'.mem.nodes, ToCome(s'.mem.nodes, s'.pcs[u], g), q, l)
            <==> InForceAfter(s.mem.nodes, ToCome(s.mem.nodes, s.pcs[u], g), q, l)
  {
    hide Inv, Next, Holding, ToCome, InForceAfter, WriterNext, WriterMemory, WriterKnows, TagsOk;
    HolderShape(s, u);
    HolderFacts(s, u);
    OwnHolderTurn(s, u, Turn(u, s.pcs[u], g).1);
    HolderKeepsPlan(s.mem, s.pcs[u], g, q, l);
  }

  lemma HolderFacts(s: State, u: nat)
    requires Inv(s) && u < |s.pcs| && Holding(s.pcs[u])
    ensures WriterKnows(s.mem, s.pcs[u]) && TagsOk(s.mem, s.pcs[u])
  {
    hide ReadersOk, ThreadsOk, WriterKnows, TagsOk, LevelsOk, CountOk, HeadOk, Holding, WriterShape;
  }

  lemma HolderStaysUndisturbed(s: State, u: nat, g: Grants)
    requires Inv(s) && Undisturbed(s, u) && Holding(s.pcs[u])
    ensures var s' := Next(s, u, Turn(u, s.pcs[u], g).1);
            && Undisturbed(s', u) && (s'.pcs[u].Idle? ==> s'.lock.None?)
            && 0 <= Rank(s'.mem, s'.pcs[u]) < Rank(s.mem, s.pcs[u])
  {
    hide Inv, Next, Holding, Rank, WriterMemory, WriterNext;
    HolderShape(s, u);
    var c := Turn(u, s.pcs[u], g).1;
    OwnHolderTurn(s, u, c);
    KeepsThreads(s, u, c);
    HolderTurn(s, u, u, c);
    ReadersStay(s.mem, s.pcs[u]);
    StaysInCall(s.mem, s.pcs[u], c.granted);
  }

  lemma ReadersStay(m: Memory, w: PC)
    requires WriterShape(m, w) && NobodyInside(m)
    ensures NobodyInside(WriterMemory(m, w)) && !Waiting(m, w)
  {
  }

  lemma StaysInCall(m: Memory, w: PC, granted: bool)
    requires Holding(w) && WriterShape(m, w)
    ensures var w' := WriterNext(m, w, granted);
            if Releases(w) then w'.Idle? || Calling(w') else Calling(w') && !w'.Idle?
  {
  }

  /** The schedule is that of thread u alone, with these grants. */
  predicate Follows(s: State, schedule: Schedule, u: nat, g: Grants)
    requires Inv(s) && u < |s.pcs|
    decreases |schedule|
  {
    schedule == [] || (schedule[0] == Turn(u, s.pcs[u], g) && Follows(After(s, schedule[0]), schedule[1..], u, g))
  }

  /** What the map is to be when the call is over. */
  predicate Planned(s: State, u: nat, g: Grants, q: Tag, l: Level)
    requires u < |s.pcs|
  {
    InForceAfter(s.mem.nodes, ToCome(s.mem.nodes, s.pcs[u], g), q, l)
  }

  lemma {:induction false} RunToEnd(s: State, u: nat, g: Grants) returns (schedule: Schedule)
    requires Inv(s) && Undisturbed(s, u) && (s.pcs[u].Idle? ==> s.lock.None?)
    ensures Runs(s, schedule) && Follows(s, schedule, u, g)
    ensures var r := Run(s, schedule);
            && r.pcs[u].Idle? && r.lock.None?
            && forall q: Tag, l: Level :: InForce(r.mem.nodes, q, l) <==> Planned(s, u, g, q, l)
    decreases Rank(s.mem, s.pcs[u])
  {
    hide Inv, Next, Holding, Rank, ToCome, InForce, InForceAfter, Undisturbed, Planned;
    ThreadExists(s, u);
    schedule := [];
    if s.pcs[u].Idle? {
      NothingToCome(s, u, g);
    } else {
      var turn := Turn(u, s.pcs[u], g);
      var s' := After(s, turn);
      if Holding(s.pcs[u]) {
        HolderStaysUndisturbed(s, u, g);
        forall q: Tag, l: Level ensures Planned(s', u, g, q, l) <==> Planned(s, u, g, q, l) {
          HolderPlan(s, u, g, q, l);
          assert Planned(s', u, g, q, l) <==> Planned(s, u, g, q, l) by { PlannedIs(s, u, g, q, l); PlannedIs(s', u, g, q, l); }
        }
      } else {
        OutsideTurn(s, u, g);
        SamePlan(s, s', u, g);
      }
      schedule := RunToEnd(s', u, g);
      assert ([turn] + schedule)[1..] == schedule;
      schedule := [turn] + schedule;
    }
  }

  lemma PlannedIs(s: State, u: nat, g: Grants, q: Tag, l: Level)
    requires u < |s.pcs|
    ensures Planned(s, u, g, q, l) <==> InForceAfter(s.mem.nodes, ToCome(s.mem.nodes, s.pcs[u], g), q, l)
  {
  }

  lemma SamePlan(s: State, s': State, u: nat, g: Grants)
    requires u < |s.pcs| && u < |s'.pcs| && s'.mem == s.mem
    requires ToCome(s'.mem.nodes, s'.pcs[u], g) == ToCome(s.mem.nodes, s.pcs[u], g)
    ensures forall q: Tag, l: Level :: Planned(s', u, g, q, l) <==> Planned(s, u, g, q, l)
  {
    hide ToCome, InForceAfter;
  }

  lemma ThreadExists(s: State, u: nat)
    requires Undisturbed(s, u)
    ensures u < |s.pcs|
  {
  }

  lemma NothingToCome(s: State, u: nat, g: Grants)
    requires u < |s.pcs| && s.pcs[u].Idle?
    ensures forall q: Tag, l: Level :: Planned(s, u, g, q, l) <==> InForce(s.mem.nodes, q, l)
  {
  }

  /** An idle thread makes a call and runs alone until it has returned. */
  lemma CallAlone(s: State, u: nat, call: Choice, g: Grants) returns (schedule: Schedule)
    requires Inv(s) && s.lock.None? && u < |s.pcs| && s.pcs[u].Idle? && NobodyInside(s.mem) && (call.Set? || call.Clear?)
    ensures Runs(s, [(u, call)] + schedule) && Follows(After(s, (u, call)), schedule, u, g)
    ensures var r := Run(s, [(u, call)] + schedule);
            && r.pcs[u].Idle? && r.lock.None?
            && forall q: Tag, l: Level ::
                 InForce(r.mem.nodes, q, l)
                 <==> InForceAfter(s.mem.nodes,
                                   if call.Clear? then Drop(call.t)
                                   else if Carried(s.mem.nodes, call.t) || CanAdd(s.mem.nodes, false, g) then Put(call.t, call.l)
                                   else Keep, q, l)
  {
    hide Inv, Next, InForce, InForceAfter, Undisturbed, Carried, CanAdd, NobodyInside, Holding, Planned, ToCome;
    var s' := After(s, (u, call));
    CallBegins(s, u, call, g);
    schedule := RunToEnd(s', u, g);
    assert ([(u, call)] + schedule)[1..] == schedule;
  }

  lemma IdleTurn(s: State, u: nat, call: Choice)
    requires Inv(s) && u < |s.pcs| && s.pcs[u].Idle?
    ensures Next(s, u, call) == IdleStep(s, u, call)
  {
    hide Inv, IdleStep;
  }

  lemma CallBegins(s: State, u: nat, call: Choice, g: Grants)
    requires Inv(s) && s.lock.None? && u < |s.pcs| && s.pcs[u].Idle? && NobodyInside(s.mem) && (call.Set? || call.Clear?)
    ensures var s' := Next(s, u, call);
            && Undisturbed(s', u) && !s'.pcs[u].Idle?
            && forall q: Tag, l: Level ::
                 Planned(s', u, g, q, l)
                 <==> InForceAfter(s.mem.nodes,
                                   if call.Clear? then Drop(call.t)
                                   else if Carried(s.mem.nodes, call.t) || CanAdd(s.mem.nodes, false, g) then Put(call.t, call.l)
                                   else Keep, q, l)
  {
    hide Inv, NobodyInside, InForceAfter, Next, Carried, CanAdd;
    IdleTurn(s, u, call);
  }

  lemma DefaultTurn(s: State, u: nat, c: Choice)
    requires Inv(s) && u < |s.pcs| && s.pcs[u].StoreDefault?
    ensures var s' := Next(s, u, c);
            s'.default == s.pcs[u].level && s'.mem == s.mem && s'.pcs == s.pcs[u := Idle] && s'.lock == s.lock
  {
    hide Inv;
  }

  /** ... to set the default: it is stored, and nothing else changes. */
  lemma DefaultAlone(s: State, u: nat, l: Level, c: Choice)
    requires Inv(s) && u < |s.pcs| && s.pcs[u].Idle?
    ensures Runs(s, [(u, Default(l)), (u, c)])
    ensures var r := Run(s, [(u, Default(l)), (u, c)]);
            r.default == l && r.mem == s.mem && r.pcs == s.pcs && r.lock == s.lock
  {
    hide Inv, Next;
    var s' := After(s, (u, Default(l)));
    IdleTurn(s, u, Default(l));
    DefaultTurn(s', u, c);
    assert [(u, Default(l)), (u, c)][1..] == [(u, c)];
    RunOne(s', u, c);
  }

  /**
   * ... to look a level up: it returns the level in force for its tag, or the default when there is none or the tag is
   * NULL. The shortcut for a zero count changes nothing.
   */
  lemma LookupAlone(s: State, u: nat, q: Option<Tag>) returns (n: nat)
    requires Inv(s) && s.lock.None? && u < |s.pcs| && s.pcs[u].Idle?
    ensures Runs(s, [(u, Lookup(q))] + Solo(u, n))
    ensures var pc := Run(s, [(u, Lookup(q))] + Solo(u, n)).pcs[u];
            if q.Some? && exists l :: InForce(s.mem.nodes, q.value, l) then
              pc.Found? && pc.q == q && InForce(s.mem.nodes, q.value, pc.level)
            else pc == Fallback(s.default)
    ensures n <= 6 * |s.mem.nodes| + 3 && (s.mem.count == 0 ==> n <= 2)
  {
    hide Inv, Next, Matches;
    var s' := After(s, (u, Lookup(q)));
    IdleTurn(s, u, Lookup(q));
    n := UndisturbedLookup(s', u);
    assert ([(u, Lookup(q))] + Solo(u, n))[1..] == Solo(u, n);
    var pc := Run(s', Solo(u, n)).pcs[u];
    NullMatchesNothing(s.mem.nodes, q);
    if pc.Found? {
      var k :| Matches(s.mem.nodes, q, k, pc.level);
      MatchIsInForce(s.mem.nodes, q, k, pc.level);
    }
  }

  lemma NullMatchesNothing(nodes: seq<Node>, q: Option<Tag>)
    ensures q.None? ==> forall k, l :: !Matches(nodes, q, k, l)
  {
  }

  lemma MatchIsInForce(nodes: seq<Node>, q: Option<Tag>, k: int, l: Level)
    requires Matches(nodes, q, k, l)
    ensures q.Some? && InForce(nodes, q.value, l)
  {
  }
}
