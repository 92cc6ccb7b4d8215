/**
 * What a lookup returns while others change the filters: when the level it reads is in force, that a filter which
 * stands throughout is found, and a run in which a lookup returns a level that was never in force.
 */
module TagFilterLookups {
  import opened Bytes
  import opened TagFilterMachine

  /** Some level is in force for tag q. */
  predicate Present(nodes: seq<Node>, q: Tag) {
    exists k :: 0 <= k < |nodes| && Matches(nodes, Some(q), k, nodes[k].level)
  }

  lemma PresentIffInForce(nodes: seq<Node>, q: Tag)
    ensures Present(nodes, q) <==> exists l :: InForce(nodes, q, l)
  {
    if k :| 0 <= k < |nodes| && Matches(nodes, Some(q), k, nodes[k].level) {
      assert InForce(nodes, q, nodes[k].level);
    }
    if l :| InForce(nodes, q, l) {
      var k :| 0 <= k < |nodes| && Matches(nodes, Some(q), k, l);
      assert Matches(nodes, Some(q), k, nodes[k].level);
    }
  }

  /** Level l was in force for tag q at some point of the run, its first and last states included. */
  predicate WasInForce(s: State, schedule: Schedule, q: Tag, l: Level)
    requires Inv(s) && Runs(s, schedule)
    decreases |schedule|
  {
    InForce(Run(s, schedule).mem.nodes, q, l) || (schedule != [] && WasInForce(s, schedule[..|schedule| - 1], q, l))
  }

  /** Tag q had some level in force at every point of the run. */
  predicate Throughout(s: State, schedule: Schedule, q: Tag)
    requires Inv(s) && Runs(s, schedule)
    decreases |schedule|
  {
    Present(Run(s, schedule).mem.nodes, q) && (schedule != [] ==> Throughout(s, schedule[..|schedule| - 1], q))
  }

  lemma {:induction false} WasInForceAt(s: State, schedule: Schedule, q: Tag, l: Level)
    requires Inv(s) && Runs(s, schedule)
    ensures WasInForce(s, schedule, q, l) <==>
            exists i :: 0 <= i <= |schedule| && Runs(s, schedule[..i]) && InForce(Run(s, schedule[..i]).mem.nodes, q, l)
    decreases |schedule|
  {
    hide Inv, Run, InForce;
    assert schedule[..|schedule|] == schedule;
    if schedule != [] {
      var front := schedule[..|schedule| - 1];
      WasInForceAt(s, front, q, l);
      assert forall i :: 0 <= i <= |front| ==> front[..i] == schedule[..i];
    }
  }

  lemma Last(s: State, schedule: Schedule)
    requires Inv(s) && Runs(s, schedule) && schedule != []
    ensures var n := |schedule| - 1; Run(s, schedule) == Next(Run(s, schedule[..n]), schedule[n].0, schedule[n].1)
  {
    hide Inv, Next;
    var n := |schedule| - 1;
    RunSplit(s, schedule[..n], [schedule[n]]);
    assert schedule == schedule[..n] + [schedule[n]];
    RunOne(Run(s, schedule[..n]), schedule[n].0, schedule[n].1);
  }

  // ---- The level that is read ----

  /** Where a lookup is about to read the level of a matching node, that level is in force if and only if the node is active. */
  lemma ReadIsInForceIffActive(s: State, t: nat)
    requires Inv(s) && t < |s.pcs| && s.pcs[t].LoadLevel? && s.pcs[t].matches
    ensures var pc := s.pcs[t];
            && 0 <= pc.k < |s.mem.nodes| && pc.q.Some? && s.mem.nodes[pc.k].tag == pc.q
            && (InForce(s.mem.nodes, pc.q.value, s.mem.nodes[pc.k].level) <==> s.mem.nodes[pc.k].active)
  {
    ThreadAt(s, t);
    hide WriterKnows, WriterShape, LevelsOk, CountOk, HeadOk, Locked, ReadersOk, ThreadsOk, InForce;
    CarrierDecides(s.mem.nodes, s.pcs[t].k, s.pcs[t].q.value, s.mem.nodes[s.pcs[t].k].level);
  }

  /** The lookup is between its recheck of node k and its load of the level. */
  predicate Reading(pc: PC, q: Tag, k: nat) {
    pc == Compare(Some(q), k) || pc == LoadLevel(Some(q), k, true)
  }

  predicate ReadingThroughout(s: State, schedule: Schedule, t: nat, q: Tag, k: nat)
    requires Inv(s) && Runs(s, schedule) && t < |s.pcs|
    decreases |schedule|
  {
    Reading(Run(s, schedule).pcs[t], q, k)
    && (schedule != [] ==> ReadingThroughout(s, schedule[..|schedule| - 1], t, q, k))
  }

  /** The holder is about to store `active` for node k, which has the tag and already the level. */
  predicate Renewing(s: State, q: Tag, k: nat, l: Level) {
    Writer(s) == SetActive(q, l, k)
  }

  /** What a store does to the level of a node that is not being replaced. */
  lemma LevelChanges(m: Memory, w: PC, granted: bool, q: Tag, k: nat)
    requires Holding(w) && WriterKnows(m, w) && k < |m.nodes| && m.nodes[k].tag == Some(q) && !Replacing(w, k)
    ensures k < |WriterMemory(m, w).nodes| && WriterMemory(m, w).nodes[k].tag == Some(q)
    ensures var n := WriterMemory(m, w).nodes[k];
            || n.active
            || HolderAfter(m, w, granted) == SetActive(q, n.level, k)
            || (n.level == m.nodes[k].level && w != SetActive(q, n.level, k))
  {
    hide NoTag, AllActive;
  }

  lemma MatchesInForce(nodes: seq<Node>, q: Tag, k: nat)
    requires k < |nodes| && nodes[k].active && nodes[k].tag == Some(q)
    ensures InForce(nodes, q, nodes[k].level) && Present(nodes, q)
  {
    assert Matches(nodes, Some(q), k, nodes[k].level);
  }

  /** One step of anybody while thread t reads at node k: the level is in force, about to be, or as it was. */
  lemma ReadingStep(s: State, t: nat, u: nat, c: Choice, q: Tag, k: nat)
    requires Inv(s) && t < |s.pcs| && u < |s.pcs| && Reading(s.pcs[t], q, k)
    requires k < |s.mem.nodes| && s.mem.nodes[k].tag == Some(q)
    ensures var s' := Next(s, u, c);
            && k < |s'.mem.nodes| && s'.mem.nodes[k].tag == Some(q)
            && var l' := s'.mem.nodes[k].level;
               || InForce(s'.mem.nodes, q, l')
               || Renewing(s', q, k, l')
               || (l' == s.mem.nodes[k].level && !Renewing(s, q, k, l'))
  {
    ThreadAt(s, t);
    NextNodes(s, u, c);
    var s' := Next(s, u, c);
    if Holding(s.pcs[u]) {
      var granted := c.Proceed? && c.granted;
      HolderMoves(s, u, c);
      hide Inv, WriterOk, Next, Holding, WriterMemory, HolderAfter, InForce;
      LevelChanges(s.mem, s.pcs[u], granted, q, k);
      if s'.mem.nodes[k].active { MatchesInForce(s'.mem.nodes, q, k); }
    } else {
      BystanderKeepsWriter(s, u, c);
    }
  }

  lemma HolderIsWriter(s: State, u: nat)
    requires Inv(s) && u < |s.pcs| && Holding(s.pcs[u])
    ensures Writer(s) == s.pcs[u] && s.lock == Some(u) && WriterKnows(s.mem, s.pcs[u])
  {
    hide ReadersOk, ThreadsOk, TagsOk, LevelsOk, CountOk, HeadOk, Holding;
  }

  lemma HolderMoves(s: State, u: nat, c: Choice)
    requires Inv(s) && u < |s.pcs| && Holding(s.pcs[u])
    ensures Writer(s) == s.pcs[u] && WriterKnows(s.mem, s.pcs[u])
    ensures Writer(Next(s, u, c)) == HolderAfter(s.mem, s.pcs[u], c.Proceed? && c.granted)
  {
    hide Inv, WriterKnows, WriterShape, Holding, WriterNext, WriterMemory, Active, IsLookup;
    HolderIsWriter(s, u);
    HoldersDoNotIdle(s.pcs[u]);
  }

  /** A step of a thread without the lock leaves the holder where it is; it may take a free lock. */
  lemma BystanderKeepsWriter(s: State, u: nat, c: Choice)
    requires Inv(s) && u < |s.pcs| && !Holding(s.pcs[u])
    ensures var w' := Writer(Next(s, u, c)); w' == Writer(s) || (s.lock.None? && (w'.SetScan? || w'.ClearScan?))
  {
    hide WriterOk, ReadersOk, ThreadsOk, LookupNext, LookupReaders, IsLookup, Holding;
  }

  lemma {:induction false} BackedSince(s: State, schedule: Schedule, t: nat, q: Tag, k: nat)
    requires Inv(s) && Runs(s, schedule) && t < |s.pcs| && ReadingThroughout(s, schedule, t, q, k)
    requires k < |s.mem.nodes| && s.mem.nodes[k].active && s.mem.nodes[k].tag == Some(q)
    ensures var r := Run(s, schedule);
            && k < |r.mem.nodes| && r.mem.nodes[k].tag == Some(q)
            && var l := r.mem.nodes[k].level; WasInForce(s, schedule, q, l) || Renewing(r, q, k, l)
    decreases |schedule|
  {
    hide Inv, Next, InForce, Reading;
    if schedule == [] {
      MatchesInForce(s.mem.nodes, q, k);
    } else {
      var n := |schedule| - 1;
      BackedSince(s, schedule[..n], t, q, k);
      Last(s, schedule);
      ReadingStep(Run(s, schedule[..n]), t, schedule[n].0, schedule[n].1, q, k);
    }
  }

  lemma {:induction false} TagWhileReading(s: State, schedule: Schedule, t: nat, q: Tag, k: nat)
    requires Inv(s) && Runs(s, schedule) && t < |s.pcs| && ReadingThroughout(s, schedule, t, q, k)
    ensures var r := Run(s, schedule); k < |s.mem.nodes| <= |r.mem.nodes| && r.mem.nodes[k].tag == s.mem.nodes[k].tag
    decreases |schedule|
  {
    hide Inv, Next;
    if schedule == [] {
      CountedIsPositive(s, t);
    } else {
      var n := |schedule| - 1;
      TagWhileReading(s, schedule[..n], t, q, k);
      Last(s, schedule);
      TagDuringStep(Run(s, schedule[..n]), t, schedule[n].0, schedule[n].1, q, k);
    }
  }

  lemma TagDuringStep(s: State, t: nat, u: nat, c: Choice, q: Tag, k: nat)
    requires Inv(s) && t < |s.pcs| && u < |s.pcs| && Reading(s.pcs[t], q, k)
    ensures k < |s.mem.nodes| <= |Next(s, u, c).mem.nodes| && Next(s, u, c).mem.nodes[k].tag == s.mem.nodes[k].tag
  {
    hide Inv, Next;
    CountedIsPositive(s, t);
    if u == t { NextNodes(s, t, c); } else { ComparedTagIsStable(s, t, u, c); }
  }

  /** The recheck lets the lookup go on only at an active node. */
  lemma RecheckConfirms(s: State, t: nat, c: Choice, q: Tag, k: nat)
    requires Inv(s) && t < |s.pcs| && s.pcs[t] == Recheck(Some(q), k)
    ensures k < |s.mem.nodes| && Next(s, t, c).mem.nodes == s.mem.nodes && |Next(s, t, c).pcs| == |s.pcs|
    ensures Next(s, t, c).pcs[t] == Compare(Some(q), k) <==> s.mem.nodes[k].active
  {
    CountedIsPositive(s, t);
    NextNodes(s, t, c);
    hide Inv;
  }

  /**
   * A lookup rechecks node k and, any number of turns of anybody later, is about to read the level there, the tags
   * being equal: since the recheck that level was in force for the tag, or the lock holder is about to put it in force.
   */
  lemma ReadIsBacked(s: State, c: Choice, schedule: Schedule, t: nat, q: Tag, k: nat)
    requires Inv(s) && t < |s.pcs| && s.pcs[t] == Recheck(Some(q), k) && Inv(Next(s, t, c))
    requires Runs(Next(s, t, c), schedule) && ReadingThroughout(Next(s, t, c), schedule, t, q, k)
    requires Run(Next(s, t, c), schedule).pcs[t] == LoadLevel(Some(q), k, true)
    ensures var s1 := Next(s, t, c);
            var r := Run(s1, schedule);
            && k < |r.mem.nodes| && r.mem.nodes[k].tag == Some(q)
            && var l := r.mem.nodes[k].level; WasInForce(s1, schedule, q, l) || Renewing(r, q, k, l)
  {
    hide Inv, Next, Run, WasInForce, Renewing, ReadingThroughout;
    var s1 := Next(s, t, c);
    RecheckConfirms(s, t, c, q, k);
    FirstReading(s1, schedule, t, q, k);
    TagWhileReading(s1, schedule, t, q, k);
    ReadIsInForceIffActive(Run(s1, schedule), t);
    NotYetCompared(s, t, c);
    BackedSince(s1, schedule, t, q, k);
  }

  lemma {:induction false} FirstReading(s: State, schedule: Schedule, t: nat, q: Tag, k: nat)
    requires Inv(s) && Runs(s, schedule) && t < |s.pcs| && ReadingThroughout(s, schedule, t, q, k)
    ensures Reading(s.pcs[t], q, k)
    decreases |schedule|
  {
    hide Inv, Next, Reading;
    if schedule != [] { FirstReading(s, schedule[..|schedule| - 1], t, q, k); }
  }

  lemma NotYetCompared(s: State, t: nat, c: Choice)
    requires Inv(s) && t < |s.pcs| && s.pcs[t].Recheck?
    ensures !Next(s, t, c).pcs[t].LoadLevel?
  {
    CountedIsPositive(s, t);
    hide Inv;
  }

  // ---- A filter that stands is found ----

  /** Node k is active with tag q, published and counted. */
  predicate Standing(s: State, q: Tag, k: nat) {
    && k < |s.mem.nodes| && s.mem.nodes[k].active && s.mem.nodes[k].tag == Some(q) && s.mem.head >= k
    && (Owed(Writer(s)) < 0 ==> Active(s.mem.nodes) >= 2)
  }

  /** So it is once the set call has returned, which leaves the lock free. */
  lemma StandingOnReturn(s: State, q: Tag)
    requires Inv(s) && s.lock.None? && Present(s.mem.nodes, q)
    ensures exists k: nat :: Standing(s, q, k)
  {
    var k :| 0 <= k < |s.mem.nodes| && Matches(s.mem.nodes, Some(q), k, s.mem.nodes[k].level);
    assert Standing(s, q, k);
  }

  lemma StandingCounts(s: State, q: Tag, k: nat)
    requires Inv(s) && Standing(s, q, k)
    ensures s.mem.count >= 1
  {
    ActiveBounds(s.mem.nodes);
    hide WriterKnows, WriterShape, TagsOk, LevelsOk, Locked, ReadersOk, ThreadsOk, Active;
  }

  lemma HeadMoves(m: Memory, w: PC)
    requires WriterShape(m, w) && HeadOk(m, w)
    ensures m.head < |m.nodes| && WriterMemory(m, w).head >= m.head
  {
  }

  lemma OwesAfterActivation(m: Memory, w: PC, granted: bool)
    requires Holding(w) && WriterShape(m, w) && Owed(HolderAfter(m, w, granted)) < 0
    ensures Activated(m, w) == 1
  {
  }

  lemma StandingHolderStep(m: Memory, w: PC, granted: bool, stored: set<(Tag, Level)>, peak: nat, q: Tag, k: nat)
    requires Holding(w) && WriterOk(m, w, stored, peak)
    requires k < |m.nodes| && m.nodes[k].active && m.nodes[k].tag == Some(q) && m.head >= k
    ensures var m' := WriterMemory(m, w);
            && k < |m'.nodes| && m'.nodes[k].tag == Some(q) && m'.head >= k
            && (Owed(HolderAfter(m, w, granted)) < 0 ==> Active(m'.nodes) >= 2)
  {
    ActiveIsNotReplaced(m, w, k);
    TagUntouched(m, w, k);
    HeadMoves(m, w);
    ActiveBounds(m.nodes);
    ActiveAfter(m, w);
    if Owed(HolderAfter(m, w, granted)) < 0 { OwesAfterActivation(m, w, granted); }
    hide WriterMemory, HolderAfter, Active, Activated, WriterKnows, WriterShape, TagsOk, LevelsOk, CountOk, HeadOk, Holding,
      Replacing;
  }

  /** Distinct tags: as long as the tag is in force, it is at the same node. */
  lemma StaysActive(s: State, q: Tag, k: nat)
    requires Inv(s) && Present(s.mem.nodes, q) && k < |s.mem.nodes| && s.mem.nodes[k].tag == Some(q)
    ensures s.mem.nodes[k].active
  {
    hide WriterKnows, WriterShape, LevelsOk, CountOk, HeadOk, Locked, ReadersOk, ThreadsOk, InForce;
    PresentIffInForce(s.mem.nodes, q);
    var l :| InForce(s.mem.nodes, q, l);
    CarrierDecides(s.mem.nodes, k, q, l);
  }

  lemma NextKeepsHead(s: State, u: nat, c: Choice)
    requires Inv(s) && u < |s.pcs|
    ensures Next(s, u, c).mem.head == if Holding(s.pcs[u]) then WriterMemory(s.mem, s.pcs[u]).head else s.mem.head
  {
    if Holding(s.pcs[u]) { assert Writer(s) == s.pcs[u]; }
    assert WriterShape(s.mem, Writer(s));
    hide WriterOk, WriterShape, Locked, ReadersOk, ThreadsOk, Holding, WriterNext, WriterMemory, LookupNext,
      LookupReaders, Active;
  }

  lemma StandingStep(s: State, u: nat, c: Choice, q: Tag, k: nat)
    requires Inv(s) && u < |s.pcs| && Standing(s, q, k) && Present(Next(s, u, c).mem.nodes, q)
    ensures Standing(Next(s, u, c), q, k)
  {
    NextNodes(s, u, c);
    NextKeepsHead(s, u, c);
    NextKeepsInv(s, u, c);
    var s' := Next(s, u, c);
    if Holding(s.pcs[u]) {
      HolderMoves(s, u, c);
      hide Inv, WriterOk, Next, Holding, WriterMemory, HolderAfter, Present, Active, Owed;
      StandingHolderStep(s.mem, s.pcs[u], c.Proceed? && c.granted, s.stored, s.peak, q, k);
      StaysActive(s', q, k);
    } else {
      BystanderKeepsWriter(s, u, c);
      hide Inv, Next, Holding, Present, Active;
    }
  }

  lemma {:induction false} StandingPersists(s: State, schedule: Schedule, q: Tag, k: nat)
    requires Inv(s) && Runs(s, schedule) && Standing(s, q, k) && Throughout(s, schedule, q)
    ensures Standing(Run(s, schedule), q, k)
    decreases |schedule|
  {
    hide Inv, Next, Present, Standing;
    if schedule != [] {
      var n := |schedule| - 1;
      StandingPersists(s, schedule[..n], q, k);
      Last(s, schedule);
      StandingStep(Run(s, schedule[..n]), schedule[n].0, schedule[n].1, q, k);
    }
  }

  /** The lookup for tag q has not passed node k, and at node k it is not going to miss it. */
  predicate Bound(pc: PC, q: Tag, k: nat) {
    || pc == LoadCount(Some(q)) || pc == LoadHead(Some(q)) || (pc.Found? && pc.q == Some(q))
    || (AtNode(pc) && pc.q == Some(q) && pc.k >= k && (pc.k == k ==> !pc.LeaveInactive?)
        && (pc.LoadLevel? || pc.Leave? ==> (pc.matches <==> pc.k == k)))
  }

  lemma BoundStep(m: Memory, default: Level, pc: PC, q: Tag, k: nat)
    requires IsLookup(pc) && (AtNode(pc) ==> 0 <= pc.k < |m.nodes|) && !Returned(pc) && Bound(pc, q, k)
    requires k < |m.nodes| && m.nodes[k].active && m.nodes[k].tag == Some(q) && m.count >= 1 && k <= m.head < |m.nodes|
    requires forall i, j :: 0 <= i < j < |m.nodes| && m.nodes[i].tag.Some? ==> m.nodes[i].tag != m.nodes[j].tag
    ensures var pc' := LookupNext(m, default, pc);
            && Bound(pc', q, k)
            && (pc.LoadLevel? && pc.matches ==> pc' == Leave(Some(q), k, true, m.nodes[k].level))
            && (pc'.Found? ==> pc.Leave? && pc.matches && pc'.level == pc.level)
            && (pc'.Leave? && pc'.matches ==> pc.LoadLevel? && pc.matches)
  {
  }

  /** The lookup's own step. */
  lemma BoundTurn(s: State, t: nat, c: Choice, q: Tag, k: nat)
    requires Inv(s) && t < |s.pcs| && Standing(s, q, k) && Bound(s.pcs[t], q, k) && !Returned(s.pcs[t])
    ensures var pc, s' := s.pcs[t], Next(s, t, c);
            && Bound(s'.pcs[t], q, k) && s'.mem.nodes == s.mem.nodes
            && (s'.pcs[t].Leave? && s'.pcs[t].matches ==> s'.pcs[t].level == s.mem.nodes[k].level)
            && (s'.pcs[t].Found? ==> pc.Leave? && pc.matches && s'.pcs[t].level == pc.level)
  {
    StandingCounts(s, q, k);
    CountedIsPositive(s, t);
    NextNodes(s, t, c);
    HeadMoves(s.mem, Writer(s));
    assert TagsOk(s.mem, Writer(s));
    hide WriterOk, Locked, ReadersOk, ThreadsOk, WriterMemory, LookupNext, LookupReaders, HeadOk;
    BoundStep(s.mem, s.default, s.pcs[t], q, k);
  }

  /** The lookup has not returned before the end of the run. */
  predicate Looking(s: State, schedule: Schedule, t: nat)
    requires Inv(s) && Runs(s, schedule) && t < |s.pcs|
    decreases |schedule|
  {
    schedule == [] || (var front := schedule[..|schedule| - 1]; Looking(s, front, t) && !Returned(Run(s, front).pcs[t]))
  }

  /** The level a lookup has read, if it has read one that it will return. */
  predicate ReadLevel(pc: PC, l: Level) {
    (pc.Leave? && pc.matches && pc.level == l) || (pc.Found? && pc.level == l)
  }

  lemma {:induction false} StandingIsBound(s: State, schedule: Schedule, t: nat, q: Tag, k: nat)
    requires Inv(s) && Runs(s, schedule) && t < |s.pcs| && Standing(s, q, k) && Throughout(s, schedule, q)
    requires s.pcs[t] == LoadCount(Some(q)) && Looking(s, schedule, t)
    ensures Bound(Run(s, schedule).pcs[t], q, k)
    ensures forall l :: ReadLevel(Run(s, schedule).pcs[t], l) ==> WasInForce(s, schedule, q, l)
    decreases |schedule|
  {
    if schedule != [] {
      hide Inv, Next, Present, Standing, Bound, Returned, InForce;
      var n := |schedule| - 1;
      var r, u, c := Run(s, schedule[..n]), schedule[n].0, schedule[n].1;
      StandingIsBound(s, schedule[..n], t, q, k);
      StandingPersists(s, schedule[..n], q, k);
      Last(s, schedule);
      if u == t {
        BoundTurn(r, t, c, q, k);
        assert k < |r.mem.nodes| && r.mem.nodes[k].active && r.mem.nodes[k].tag == Some(q) by { StandingNode(r, q, k); }
        MatchesInForce(r.mem.nodes, q, k);
      } else {
        OthersDoNotMove(r, t, u, c);
      }
    }
  }

  lemma StandingNode(s: State, q: Tag, k: nat)
    requires Standing(s, q, k)
    ensures k < |s.mem.nodes| && s.mem.nodes[k].active && s.mem.nodes[k].tag == Some(q)
  {
  }

  /**
   * A filter whose set call has returned and that stays in force for the whole lookup is found, whatever other
   * threads set, clear and recycle: the lookup does not fall back to the default, and the level it returns was in
   * force in the course of it.
   */
  lemma StandingFilterIsFound(s: State, before: Schedule, during: Schedule, t: nat, q: Tag)
    requires Inv(s) && s.lock.None? && Runs(s, before) && Runs(s, during) && t < |s.pcs|
    requires Throughout(s, before, q) && Throughout(Run(s, before), during, q)
    requires Run(s, before).pcs[t] == LoadCount(Some(q)) && Looking(Run(s, before), during, t)
    ensures var start := Run(s, before);
            var pc := Run(start, during).pcs[t];
            && !pc.LoadDefault? && !pc.Fallback?
            && (Returned(pc) ==> pc.Found? && pc.q == Some(q) && WasInForce(start, during, q, pc.level))
  {
    hide Inv, Next, Run, Standing, WasInForce;
    FirstOf(s, before, q);
    StandingOnReturn(s, q);
    var k: nat :| Standing(s, q, k);
    StandingPersists(s, before, q, k);
    StandingIsBound(Run(s, before), during, t, q, k);
  }

  lemma {:induction false} FirstOf(s: State, schedule: Schedule, q: Tag)
    requires Inv(s) && Runs(s, schedule) && Throughout(s, schedule, q)
    ensures Present(s.mem.nodes, q)
    decreases |schedule|
  {
    hide Inv, Next, Present;
    if schedule != [] { FirstOf(s, schedule[..|schedule| - 1], q); }
  }

  // ---- A lookup is no atomic read ----

  const TAG: Tag := [1]

  /** A state of the run below: thread 0 looks up, thread 1 sets, clears and is the only one to take the lock. */
  datatype View = View(m: Memory, holder: bool, lookup: PC, writer: PC, stored: set<(Tag, Level)>)

  function StateOf(v: View): State {
    State(v.m, 0, if v.holder then Some(1) else None, [v.lookup, v.writer], v.stored, {0}, |v.m.nodes|)
  }

  /** The run leads to this state, and level 2 was in force for the tag in none of its states. */
  predicate Leads(schedule: Schedule, v: View)
    requires Inv(Initial(2, 0))
  {
    && Runs(Initial(2, 0), schedule) && Run(Initial(2, 0), schedule) == StateOf(v)
    && !WasInForce(Initial(2, 0), schedule, TAG, 2)
  }

  lemma LeadsToInv(schedule: Schedule, v: View)
    requires Inv(Initial(2, 0)) && Leads(schedule, v)
    ensures Inv(StateOf(v))
  {
  }

  lemma Turn(schedule: Schedule, v: View, u: nat, c: Choice, v': View) returns (schedule': Schedule)
    requires Inv(Initial(2, 0)) && Leads(schedule, v) && u < 2 && Inv(StateOf(v))
    requires Next(StateOf(v), u, c) == StateOf(v') && !InForce(v'.m.nodes, TAG, 2)
    ensures Leads(schedule', v')
  {
    hide Inv, Next, InForce, Initial;
    schedule' := schedule + [(u, c)];
    RunSplit(Initial(2, 0), schedule, [(u, c)]);
    RunOne(StateOf(v), u, c);
    assert schedule'[..|schedule'| - 1] == schedule;
  }

  /** At most one node, which does not put level 2 in force. */
  predicate Quiet(nodes: seq<Node>) {
    |nodes| <= 1 && (|nodes| == 1 ==> !nodes[0].active || nodes[0].level != 2)
  }

  lemma QuietIsNotInForce(nodes: seq<Node>)
    requires Quiet(nodes)
    ensures !InForce(nodes, TAG, 2)
  {
  }

  lemma NextOfHolder(s: State, u: nat)
    requires Inv(s) && u < |s.pcs| && Holding(s.pcs[u]) && WriterShape(s.mem, s.pcs[u])
    ensures Next(s, u, Proceed(true)) == WriterStep(s, u, true)
    ensures Max(s.peak, Active(WriterMemory(s.mem, s.pcs[u]).nodes)) == |WriterMemory(s.mem, s.pcs[u]).nodes|
  {
    HolderMoves(s, u, Proceed(true));
    PeakStep(s.mem, s.pcs[u]);
    assert s.peak == |s.mem.nodes|;
    hide Inv, WriterOk, WriterStep, WriterShape, Holding, IsLookup, Active, WriterMemory;
    HoldersDoNotIdle(s.pcs[u]);
  }

  lemma HoldersDoNotIdle(w: PC)
    requires Holding(w)
    ensures !w.Idle? && !IsLookup(w)
  {
  }

  lemma HolderTurn(schedule: Schedule, v: View) returns (schedule': Schedule, v': View)
    requires Inv(Initial(2, 0)) && Leads(schedule, v) && v.holder && Holding(v.writer) && WriterShape(v.m, v.writer)
    requires Quiet(WriterMemory(v.m, v.writer).nodes)
    ensures v' == View(WriterMemory(v.m, v.writer), !Releases(v.writer), v.lookup, WriterNext(v.m, v.writer, true),
                       v.stored + StoredBy(v.writer))
    ensures Leads(schedule', v')
  {
    hide Inv, Next, WriterMemory, WriterNext, WriterShape, InForce, Active, Holding, Releases, StoredBy, Leads, Initial;
    LeadsToInv(schedule, v);
    QuietIsNotInForce(WriterMemory(v.m, v.writer).nodes);
    v' := View(WriterMemory(v.m, v.writer), !Releases(v.writer), v.lookup, WriterNext(v.m, v.writer, true),
               v.stored + StoredBy(v.writer));
    NextOfHolder(StateOf(v), 1);
    assert [v.lookup, v.writer][1 := v'.writer] == [v.lookup, v'.writer];
    schedule' := Turn(schedule, v, 1, Proceed(true), v');
  }

  /** The writer's call begins. */
  lemma CallTurn(schedule: Schedule, v: View, c: Choice) returns (schedule': Schedule, v': View)
    requires Inv(Initial(2, 0)) && Leads(schedule, v) && Quiet(v.m.nodes) && v.writer.Idle? && (c.Set? || c.Clear?)
    ensures v' == v.(writer := if c.Set? then SetLock(c.t, c.l, false) else ClearLock(c.t))
    ensures Leads(schedule', v')
  {
    hide Inv, InForce, Leads, Initial, Quiet, Holding, WriterStep, LookupStep;
    LeadsToInv(schedule, v);
    QuietIsNotInForce(v.m.nodes);
    v' := v.(writer := if c.Set? then SetLock(c.t, c.l, false) else ClearLock(c.t));
    schedule' := Turn(schedule, v, 1, c, v');
  }

  /** A turn outside the lock: the writer's call allocates, or takes the free lock. */
  lemma FreeTurn(schedule: Schedule, v: View) returns (schedule': Schedule, v': View)
    requires Inv(Initial(2, 0)) && Leads(schedule, v) && !v.holder && Quiet(v.m.nodes)
    requires v.writer.SetLock? || v.writer.ClearLock? || v.writer.SetAlloc?
    ensures v' == if v.writer.SetAlloc? then v.(writer := SetLock(v.writer.t, v.writer.l, true))
                  else if v.writer.SetLock? then
                    v.(holder := true, writer := SetScan(v.writer.t, v.writer.l, v.writer.second, |v.m.nodes| - 1))
                  else v.(holder := true, writer := ClearScan(v.writer.t, |v.m.nodes| - 1))
    ensures Leads(schedule', v')
  {
    hide Inv, InForce, Leads, Initial, Quiet, WriterStep, LookupStep;
    LeadsToInv(schedule, v);
    QuietIsNotInForce(v.m.nodes);
    v' := if v.writer.SetAlloc? then v.(writer := SetLock(v.writer.t, v.writer.l, true))
          else if v.writer.SetLock? then
            v.(holder := true, writer := SetScan(v.writer.t, v.writer.l, v.writer.second, |v.m.nodes| - 1))
          else v.(holder := true, writer := ClearScan(v.writer.t, |v.m.nodes| - 1));
    schedule' := Turn(schedule, v, 1, Proceed(true), v');
  }

  /** The lookup begins. */
  lemma AskTurn(schedule: Schedule, v: View, q: Option<Tag>) returns (schedule': Schedule, v': View)
    requires Inv(Initial(2, 0)) && Leads(schedule, v) && Quiet(v.m.nodes) && v.lookup.Idle?
    ensures v' == v.(lookup := LoadCount(q)) && Leads(schedule', v')
  {
    hide Inv, InForce, Leads, Initial, Quiet, Holding, WriterStep, LookupStep;
    LeadsToInv(schedule, v);
    QuietIsNotInForce(v.m.nodes);
    v' := v.(lookup := LoadCount(q));
    schedule' := Turn(schedule, v, 0, Lookup(q), v');
  }

  lemma LookupTurn(schedule: Schedule, v: View) returns (schedule': Schedule, v': View)
    requires Inv(Initial(2, 0)) && Leads(schedule, v) && Quiet(v.m.nodes) && IsLookup(v.lookup)
    requires AtNode(v.lookup) ==> 0 <= v.lookup.k < |v.m.nodes| == |v.m.readers|
    requires Counted(v.lookup) ==> v.m.readers[v.lookup.k] > 0
    ensures v' == v.(lookup := LookupNext(v.m, 0, v.lookup), m := v.m.(readers := LookupReaders(v.m.readers, v.lookup)))
    ensures Leads(schedule', v')
  {
    hide Inv, Next, InForce, Leads, LookupNext, LookupReaders, Holding, Initial, Quiet, IsLookup;
    LeadsToInv(schedule, v);
    QuietIsNotInForce(v.m.nodes);
    NextOfLookup(StateOf(v), 0);
    v' := v.(lookup := LookupNext(v.m, 0, v.lookup), m := v.m.(readers := LookupReaders(v.m.readers, v.lookup)));
    assert [v.lookup, v.writer][0 := v'.lookup] == [v'.lookup, v.writer];
    schedule' := Turn(schedule, v, 0, Proceed(true), v');
  }

  lemma NextOfLookup(s: State, u: nat)
    requires Inv(s) && u < |s.pcs| && IsLookup(s.pcs[u])
    ensures |s.mem.readers| == |s.mem.nodes| && (AtNode(s.pcs[u]) ==> 0 <= s.pcs[u].k < |s.mem.nodes|)
    ensures Counted(s.pcs[u]) ==> s.mem.readers[s.pcs[u].k] > 0
    ensures Next(s, u, Proceed(true)) == LookupStep(s, u)
  {
    CountedIsPositive(s, u);
    ShapeOf(s);
    hide Inv, LookupNext, LookupReaders, Holding;
  }

  lemma EmptyRun() returns (v: View)
    ensures Inv(Initial(2, 0)) && Leads([], v) && v == View(Memory([], [], -1, 0), false, Idle, Idle, {})
  {
    hide Inv, InForce;
    InitialInv(2, 0);
    v := View(Memory([], [], -1, 0), false, Idle, Idle, {});
    InitialIs(v);
    QuietIsNotInForce([]);
    hide Initial;
  }

  lemma InitialIs(v: View)
    requires v == View(Memory([], [], -1, 0), false, Idle, Idle, {})
    ensures Initial(2, 0) == StateOf(v)
  {
  }

  /** The tag is set to level 1: the first scan finds nothing, the copy is allocated. */
  lemma FirstScan() returns (schedule: Schedule, v: View)
    ensures Inv(Initial(2, 0)) && Leads(schedule, v)
    ensures v == View(Memory([], [], -1, 0), true, Idle, SetScan(TAG, 1, true, -1), {})
  {
    hide Inv, InForce, Leads, Initial;
    v := EmptyRun();
    schedule, v := CallTurn([], v, Set(TAG, 1));
    schedule, v := FreeTurn(schedule, v);
    schedule, v := HolderTurn(schedule, v);
    schedule, v := HolderTurn(schedule, v);
    schedule, v := FreeTurn(schedule, v);
    schedule, v := FreeTurn(schedule, v);
  }

  /** ... the second finds nothing either and a node is about to be allocated. */
  lemma SecondScan() returns (schedule: Schedule, v: View)
    ensures Inv(Initial(2, 0)) && Leads(schedule, v)
    ensures v == View(Memory([], [], -1, 0), true, Idle, SetCalloc(TAG, 1), {})
  {
    hide Inv, InForce, Leads, Initial;
    schedule, v := FirstScan();
    schedule, v := HolderTurn(schedule, v);
    schedule, v := HolderTurn(schedule, v);
  }

  /** It is inserted, counted and published. */
  lemma FirstSet() returns (schedule: Schedule, v: View)
    ensures Inv(Initial(2, 0)) && Leads(schedule, v)
    ensures v == View(Memory([Node(Some(TAG), 1, true)], [0], 0, 1), false, Idle, Idle, {(TAG, 1)})
  {
    hide Inv, InForce, Leads, Initial;
    schedule, v := SecondScan();
    schedule, v := HolderTurn(schedule, v);
    schedule, v := HolderTurn(schedule, v);
    schedule, v := HolderTurn(schedule, v);
    schedule, v := HolderTurn(schedule, v);
    schedule, v := HolderTurn(schedule, v);
  }

  /** The lookup compares the tag and is about to load the level. */
  lemma LookupCompares() returns (schedule: Schedule, v: View)
    ensures Inv(Initial(2, 0)) && Leads(schedule, v)
    ensures v == View(Memory([Node(Some(TAG), 1, true)], [1], 0, 1), false, LoadLevel(Some(TAG), 0, true), Idle, {(TAG, 1)})
  {
    hide Inv, InForce, Leads, Initial;
    schedule, v := FirstSet();
    schedule, v := AskTurn(schedule, v, Some(TAG));
    schedule, v := LookupTurn(schedule, v);
    schedule, v := LookupTurn(schedule, v);
    schedule, v := LookupTurn(schedule, v);
    schedule, v := LookupTurn(schedule, v);
    schedule, v := LookupTurn(schedule, v);
    schedule, v := LookupTurn(schedule, v);
  }

  /** A clear finds the node meanwhile. */
  lemma ClearFinds() returns (schedule: Schedule, v: View)
    ensures Inv(Initial(2, 0)) && Leads(schedule, v)
    ensures v == View(Memory([Node(Some(TAG), 1, true)], [1], 0, 1), true, LoadLevel(Some(TAG), 0, true),
                      ClearExchange(TAG, 0), {(TAG, 1)})
  {
    hide Inv, InForce, Leads, Initial;
    schedule, v := LookupCompares();
    schedule, v := CallTurn(schedule, v, Clear(TAG));
    schedule, v := FreeTurn(schedule, v);
    schedule, v := HolderTurn(schedule, v);
  }

  /** It clears the filter. */
  lemma FilterCleared() returns (schedule: Schedule, v: View)
    ensures Inv(Initial(2, 0)) && Leads(schedule, v)
    ensures v == View(Memory([Node(Some(TAG), 1, false)], [1], 0, 0), false, LoadLevel(Some(TAG), 0, true), Idle, {(TAG, 1)})
  {
    hide Inv, InForce, Leads, Initial;
    schedule, v := ClearFinds();
    schedule, v := HolderTurn(schedule, v);
    schedule, v := HolderTurn(schedule, v);
    schedule, v := HolderTurn(schedule, v);
  }

  /** ... and set to level 2, up to the store of the level, which comes before the store of `active`. */
  lemma LevelStored() returns (schedule: Schedule, v: View)
    ensures Inv(Initial(2, 0)) && Leads(schedule, v)
    ensures v == View(Memory([Node(Some(TAG), 2, false)], [1], 0, 0), true, LoadLevel(Some(TAG), 0, true),
                      SetActive(TAG, 2, 0), {(TAG, 1), (TAG, 2)})
  {
    hide Inv, InForce, Leads, Initial;
    schedule, v := FilterCleared();
    schedule, v := CallTurn(schedule, v, Set(TAG, 2));
    schedule, v := FreeTurn(schedule, v);
    schedule, v := HolderTurn(schedule, v);
    schedule, v := HolderTurn(schedule, v);
    schedule, v := HolderTurn(schedule, v);
  }

  /** A lookup returns level 2 for the tag although level 2 has been in force for it in no state of the run. */
  lemma LookupIsNotAtomic() returns (schedule: Schedule)
    ensures Inv(Initial(2, 0)) && Runs(Initial(2, 0), schedule)
    ensures Run(Initial(2, 0), schedule).pcs[0] == Found(Some(TAG), 2)
    ensures !WasInForce(Initial(2, 0), schedule, TAG, 2)
  {
    hide Inv, InForce, Run, WasInForce;
    var v;
    schedule, v := LevelStored();
    schedule, v := LookupTurn(schedule, v);
    schedule, v := LookupTurn(schedule, v);
  }
}
