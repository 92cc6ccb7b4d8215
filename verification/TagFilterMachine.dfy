/**
 * The tag-filter store under concurrency: any number of threads look levels up
 * without a lock while others set and clear filters under one. Every atomic
 * access is a step of its own, in sequentially consistent order.
 *
 * Nodes are numbered in insertion order. Insertion is at the head and nodes
 * are never unlinked, so the successor of node k is node k - 1 for ever.
 */
module TagFilterMachine {
  import opened Bytes

  type Tag = seq<Byte>
  type Level = int

  /** The tag is None while its old string is freed and the new one not yet stored. */
  datatype Node = Node(tag: Option<Tag>, level: Level, active: bool)

  /** Shared memory; readers[k] is the `readers` field of node k, head the snapshot lookups start from. */
  datatype Memory = Memory(nodes: seq<Node>, readers: seq<nat>, head: int, count: int)

  /** The next thing a thread does. */
  datatype PC =
    | Idle
    // a lookup of q (None is a NULL tag); k is the node it stands at
    | LoadCount(q: Option<Tag>)
    | LoadHead(q: Option<Tag>)
    | CheckActive(q: Option<Tag>, k: int)
    | Enter(q: Option<Tag>, k: int)
    | Recheck(q: Option<Tag>, k: int)
    | Compare(q: Option<Tag>, k: int)
    | LoadLevel(q: Option<Tag>, k: int, matches: bool)
    | Leave(q: Option<Tag>, k: int, matches: bool, level: Level)
    | LeaveInactive(q: Option<Tag>, k: int)
    | LoadDefault(q: Option<Tag>)
    | Found(q: Option<Tag>, level: Level)
    | Fallback(level: Level)
    // a set of tag t to level l, outside the lock
    | SetLock(t: Tag, l: Level, second: bool)
    | SetAlloc(t: Tag, l: Level)
    // ... and inside it
    | SetScan(t: Tag, l: Level, second: bool, k: int)
    | SetTouch(t: Tag, l: Level, k: int)
    | SetLevel(t: Tag, l: Level, k: int, was: bool)
    | SetActive(t: Tag, l: Level, k: int)
    | SetReuse(t: Tag, l: Level, k: int)
    | SetWait(t: Tag, l: Level, k: int)
    | SetFree(t: Tag, l: Level, k: int)
    | SetTag(t: Tag, l: Level, k: int)
    | SetNewLevel(t: Tag, l: Level, k: int)
    | SetCalloc(t: Tag, l: Level)
    | SetInsert(t: Tag, l: Level)
    | IncCount
    | IncCountNew
    | SetHead
    | SetUnlock(t: Tag, l: Level)
    // a clear of tag t
    | ClearLock(t: Tag)
    | ClearScan(t: Tag, k: int)
    | ClearExchange(t: Tag, k: int)
    | DecCount
    | Unlock
    // a change of the default level
    | StoreDefault(level: Level)

  datatype State = State(
    mem: Memory,
    default: Level,
    lock: Option<nat>,                  // the thread holding the writers' lock
    pcs: seq<PC>,                       // one program counter per thread
    stored: set<(Tag, Level)>,          // every level a set call has stored, with the tag it was stored for
    defaults: set<Level>,               // every default level there has been
    peak: nat)                          // the most filters ever active at once

  /** What the environment decides: which call an idle thread makes, and whether an allocation succeeds. */
  datatype Choice =
    | Lookup(q: Option<Tag>)
    | Set(t: Tag, l: Level)
    | Clear(t: Tag)
    | Default(l: Level)
    | Proceed(granted: bool)

  // ---- Program counters ----

  predicate IsLookup(pc: PC) {
    pc.LoadCount? || pc.LoadHead? || AtNode(pc) || pc.LoadDefault? || pc.Found? || pc.Fallback?
  }

  /** The lookup stands at node pc.k. */
  predicate AtNode(pc: PC) {
    pc.CheckActive? || pc.Enter? || Counted(pc)
  }

  /** The lookup is between the fetch-add and the fetch-sub on the readers of node pc.k. */
  predicate Counted(pc: PC) {
    Confirmed(pc) || pc.Recheck? || pc.LeaveInactive?
  }

  /** The lookup has found node pc.k still active after announcing itself there. */
  predicate Confirmed(pc: PC) {
    pc.Compare? || pc.LoadLevel? || pc.Leave?
  }

  predicate Inside(pc: PC, k: int) {
    Counted(pc) && pc.k == k
  }

  /** The thread holds the writers' lock. */
  predicate Holding(pc: PC) {
    || Changing(pc) || pc.SetScan? || pc.SetReuse? || pc.SetCalloc? || pc.SetInsert? || pc.IncCount?
    || pc.IncCountNew? || pc.SetHead? || pc.SetUnlock? || pc.ClearScan? || pc.DecCount? || pc.Unlock?
  }

  /** The lock holder is about to read or write the fields of node w.k. */
  predicate Changing(w: PC) {
    || w.SetTouch? || w.SetLevel? || w.SetActive? || w.SetWait? || w.SetFree? || w.SetTag? || w.SetNewLevel?
    || w.ClearExchange?
  }

  /** The holder is freeing or replacing node k's tag, or has not stored the new level yet. */
  predicate Replacing(w: PC, k: int) {
    (w.SetFree? || w.SetTag? || w.SetNewLevel?) && w.k == k
  }

  // ---- Steps of a lookup ----

  /** Where a walk goes on: node k, or past the end. */
  function At(q: Option<Tag>, k: int): PC {
    if k < 0 then LoadDefault(q) else CheckActive(q, k)
  }

  function LookupNext(m: Memory, default: Level, pc: PC): PC
    requires IsLookup(pc) && (AtNode(pc) ==> 0 <= pc.k < |m.nodes|)
  {
    match pc
    case LoadCount(q) => if m.count == 0 then LoadDefault(q) else LoadHead(q)
    case LoadHead(q) => At(q, m.head)
    case CheckActive(q, k) => if m.nodes[k].active then Enter(q, k) else At(q, k - 1)
    case Enter(q, k) => Recheck(q, k)
    case Recheck(q, k) => if m.nodes[k].active then Compare(q, k) else LeaveInactive(q, k)
    case Compare(q, k) => LoadLevel(q, k, q.Some? && m.nodes[k].tag == q)
    case LoadLevel(q, k, matches) => Leave(q, k, matches, m.nodes[k].level)
    case Leave(q, k, matches, level) => if matches then Found(q, level) else At(q, k - 1)
    case LeaveInactive(q, k) => At(q, k - 1)
    case LoadDefault(_) => Fallback(default)
    case Found(_, _) | Fallback(_) => Idle
  }

  /** The `readers` fields after the step: a fetch-add on entering, a fetch-sub on leaving. */
  function LookupReaders(readers: seq<nat>, pc: PC): (r: seq<nat>)
    requires AtNode(pc) ==> 0 <= pc.k < |readers|
    requires Counted(pc) ==> readers[pc.k] > 0
    ensures |r| == |readers|
  {
    if pc.Enter? then readers[pc.k := readers[pc.k] + 1]
    else if pc.Leave? || pc.LeaveInactive? then readers[pc.k := readers[pc.k] - 1]
    else readers
  }

  // ---- Steps of the lock holder ----

  predicate WriterShape(m: Memory, w: PC) {
    && |m.readers| == |m.nodes|
    && (Changing(w) ==> 0 <= w.k < |m.nodes|)
    && (w.SetScan? || w.SetReuse? || w.ClearScan? ==> -1 <= w.k < |m.nodes|)
  }

  function WriterMemory(m: Memory, w: PC): Memory
    requires WriterShape(m, w)
  {
    match w
    case SetLevel(_, l, k, _) => m.(nodes := m.nodes[k := m.nodes[k].(level := l)])
    case SetActive(_, _, k) => m.(nodes := m.nodes[k := m.nodes[k].(active := true)])
    case SetFree(_, _, k) => m.(nodes := m.nodes[k := m.nodes[k].(tag := None)])
    case SetTag(t, _, k) => m.(nodes := m.nodes[k := m.nodes[k].(tag := Some(t))])
    case SetNewLevel(_, l, k) => m.(nodes := m.nodes[k := m.nodes[k].(level := l)])
    case SetInsert(t, l) => m.(nodes := m.nodes + [Node(Some(t), l, true)], readers := m.readers + [0])
    case IncCount | IncCountNew => m.(count := m.count + 1)
    case DecCount => m.(count := m.count - 1)
    case SetHead => m.(head := |m.nodes| - 1)
    case ClearExchange(_, k) => m.(nodes := m.nodes[k := m.nodes[k].(active := false)])
    case _ => m
  }

  function WriterNext(m: Memory, w: PC, granted: bool): PC
    requires Holding(w) && WriterShape(m, w)
  {
    match w
    case SetScan(t, l, second, k) =>
      if k < 0 then (if second then SetReuse(t, l, |m.nodes| - 1) else SetUnlock(t, l))
      else if m.nodes[k].tag == Some(t) then SetTouch(t, l, k)
      else SetScan(t, l, second, k - 1)
    case SetTouch(t, l, k) => SetLevel(t, l, k, m.nodes[k].active)
    case SetLevel(t, l, k, was) => if was then Unlock else SetActive(t, l, k)
    case SetActive(_, _, _) => IncCount
    case SetReuse(t, l, k) =>
      if k < 0 then SetCalloc(t, l) else if !m.nodes[k].active then SetWait(t, l, k) else SetReuse(t, l, k - 1)
    case SetWait(t, l, k) => if m.readers[k] == 0 then SetFree(t, l, k) else w
    case SetFree(t, l, k) => SetTag(t, l, k)
    case SetTag(t, l, k) => SetNewLevel(t, l, k)
    case SetNewLevel(t, l, k) => SetActive(t, l, k)
    case SetCalloc(t, l) => if granted then SetInsert(t, l) else Unlock
    case SetInsert(_, _) => IncCountNew
    case IncCount => Unlock
    case IncCountNew => SetHead
    case SetHead => Unlock
    case SetUnlock(t, l) => SetAlloc(t, l)
    case ClearScan(t, k) =>
      if k < 0 then Unlock else if m.nodes[k].tag == Some(t) then ClearExchange(t, k) else ClearScan(t, k - 1)
    case ClearExchange(_, k) => if m.nodes[k].active then DecCount else Unlock
    case DecCount => Unlock
    case Unlock => Idle
  }

  /** What a step stores in the `level` field of a node, with the tag the call is for. */
  function StoredBy(w: PC): set<(Tag, Level)> {
    if w.SetLevel? || w.SetNewLevel? || w.SetInsert? then {(w.t, w.l)} else {}
  }

  predicate Releases(w: PC) { w.Unlock? || w.SetUnlock? }

  /** What the lock holder's program counter is after its step: Idle once the lock is free. */
  function HolderAfter(m: Memory, w: PC, granted: bool): PC
    requires Holding(w) && WriterShape(m, w)
  {
    if Releases(w) then Idle else WriterNext(m, w, granted)
  }

  // ---- Steps of the whole machine ----

  /** The lock holder's program counter; Idle when the lock is free. */
  function Writer(s: State): PC {
    if s.lock.Some? && s.lock.value < |s.pcs| then s.pcs[s.lock.value] else Idle
  }

  function IdleStep(s: State, t: nat, c: Choice): State
    requires t < |s.pcs| && s.pcs[t].Idle?
  {
    match c
    case Lookup(q) => s.(pcs := s.pcs[t := LoadCount(q)])
    case Set(tag, l) => s.(pcs := s.pcs[t := SetLock(tag, l, false)])
    case Clear(tag) => s.(pcs := s.pcs[t := ClearLock(tag)])
    case Default(l) => s.(pcs := s.pcs[t := StoreDefault(l)])
    case Proceed(_) => s
  }

  function LookupStep(s: State, t: nat): State
    requires t < |s.pcs| && IsLookup(s.pcs[t]) && |s.mem.readers| == |s.mem.nodes|
    requires AtNode(s.pcs[t]) ==> 0 <= s.pcs[t].k < |s.mem.nodes|
    requires Counted(s.pcs[t]) ==> s.mem.readers[s.pcs[t].k] > 0
  {
    s.(pcs := s.pcs[t := LookupNext(s.mem, s.default, s.pcs[t])],
       mem := s.mem.(readers := LookupReaders(s.mem.readers, s.pcs[t])))
  }

  function WriterStep(s: State, t: nat, granted: bool): State
    requires t < |s.pcs| && Holding(s.pcs[t]) && WriterShape(s.mem, s.pcs[t])
  {
    var w := s.pcs[t];
    var m := WriterMemory(s.mem, w);
    s.(mem := m, pcs := s.pcs[t := WriterNext(s.mem, w, granted)],
       lock := if Releases(w) then None else s.lock, peak := Max(s.peak, Active(m.nodes)),
       stored := s.stored + StoredBy(w))
  }

  /** Taking the lock, allocating the copy of the tag, storing the default: steps outside the lock. */
  function OutsideStep(s: State, t: nat, granted: bool): State
    requires t < |s.pcs| && !s.pcs[t].Idle? && !IsLookup(s.pcs[t]) && !Holding(s.pcs[t])
  {
    match s.pcs[t]
    case SetLock(tag, l, second) =>
      if s.lock.None? then s.(lock := Some(t), pcs := s.pcs[t := SetScan(tag, l, second, |s.mem.nodes| - 1)]) else s
    case ClearLock(tag) =>
      if s.lock.None? then s.(lock := Some(t), pcs := s.pcs[t := ClearScan(tag, |s.mem.nodes| - 1)]) else s
    case SetAlloc(tag, l) => s.(pcs := s.pcs[t := if granted then SetLock(tag, l, true) else Idle])
    case StoreDefault(l) => s.(default := l, pcs := s.pcs[t := Idle], defaults := s.defaults + {l})
  }

  /** Thread t makes one step; a thread that has to wait for the lock or for readers stays where it is. */
  function Next(s: State, t: nat, c: Choice): State
    requires t < |s.pcs| && Inv(s)
  {
    var pc := s.pcs[t];
    if pc.Idle? then IdleStep(s, t, c)
    else if IsLookup(pc) then
      CountedIsPositive(s, t);
      LookupStep(s, t)
    else if Holding(pc) then
      assert Writer(s) == pc;
      WriterStep(s, t, c.Proceed? && c.granted)
    else OutsideStep(s, t, c.Proceed? && c.granted)
  }

  function Initial(threads: nat, default: Level): State {
    State(Memory([], [], -1, 0), default, None, seq(threads, i => Idle), {}, {default}, 0)
  }

  // ---- Counting ----

  function Active(nodes: seq<Node>): nat {
    if nodes == [] then 0
    else Active(nodes[..|nodes| - 1]) + (if nodes[|nodes| - 1].active then 1 else 0)
  }

  /** Lookups among the readers of node k. */
  function Readers(pcs: seq<PC>, k: int): nat {
    if pcs == [] then 0
    else Readers(pcs[..|pcs| - 1], k) + (if Inside(pcs[|pcs| - 1], k) then 1 else 0)
  }

  lemma {:induction false} ActiveUpdate(nodes: seq<Node>, k: nat, n: Node)
    requires k < |nodes|
    ensures Active(nodes[k := n]) == Active(nodes) - (if nodes[k].active then 1 else 0) + (if n.active then 1 else 0)
  {
    var i := |nodes| - 1;
    if k == i {
      assert nodes[k := n][..i] == nodes[..i];
    } else {
      assert nodes[k := n][..i] == nodes[..i][k := n];
      ActiveUpdate(nodes[..i], k, n);
    }
  }

  lemma {:induction false} ActiveBounds(nodes: seq<Node>)
    ensures Active(nodes) <= |nodes|
    ensures Active(nodes) == |nodes| <==> forall k :: 0 <= k < |nodes| ==> nodes[k].active
    ensures Active(nodes) == 0 <==> forall k :: 0 <= k < |nodes| ==> !nodes[k].active
  {
    if nodes != [] {
      var i := |nodes| - 1;
      ActiveBounds(nodes[..i]);
      assert forall k :: 0 <= k < i ==> nodes[..i][k] == nodes[k];
    }
  }

  lemma {:induction false} ReadersUpdate(pcs: seq<PC>, t: nat, pc: PC, k: int)
    requires t < |pcs|
    ensures Readers(pcs[t := pc], k)
            == Readers(pcs, k) - (if Inside(pcs[t], k) then 1 else 0) + (if Inside(pc, k) then 1 else 0)
  {
    hide Inside;
    var i := |pcs| - 1;
    if t == i {
      assert pcs[t := pc][..i] == pcs[..i];
    } else {
      assert pcs[t := pc][..i] == pcs[..i][t := pc];
      ReadersUpdate(pcs[..i], t, pc, k);
    }
  }

  lemma {:induction false} ReadersCovers(pcs: seq<PC>, t: nat, k: int)
    requires t < |pcs| && Inside(pcs[t], k)
    ensures Readers(pcs, k) > 0
  {
    hide Inside;
    var i := |pcs| - 1;
    if t < i {
      assert pcs[..i][t] == pcs[t];
      ReadersCovers(pcs[..i], t, k);
    }
  }

  // ---- The invariant ----

  /** Mutual exclusion: the lock is held by exactly the thread whose program counter says so. */
  predicate Locked(s: State) {
    forall t :: 0 <= t < |s.pcs| ==> (Holding(s.pcs[t]) <==> s.lock == Some(t))
  }

  predicate NoTag(nodes: seq<Node>, t: Tag, from: int) {
    forall j :: 0 <= j < |nodes| && j > from ==> nodes[j].tag != Some(t)
  }

  predicate AllActive(nodes: seq<Node>, from: int) {
    forall j :: 0 <= j < |nodes| && j > from ==> nodes[j].active
  }

  /** What the holder knows about the list at each point of its call. */
  predicate WriterKnows(m: Memory, w: PC) {
    WriterShape(m, w) &&
    match w
    case SetScan(t, _, _, k) => NoTag(m.nodes, t, k)
    case SetTouch(t, _, k) => m.nodes[k].tag == Some(t)
    case SetLevel(t, _, k, was) => m.nodes[k].tag == Some(t) && m.nodes[k].active == was
    case SetActive(t, l, k) => m.nodes[k].tag == Some(t) && !m.nodes[k].active && m.nodes[k].level == l
    case SetReuse(t, _, k) => NoTag(m.nodes, t, -1) && AllActive(m.nodes, k)
    case SetWait(t, _, k) => NoTag(m.nodes, t, -1) && !m.nodes[k].active
    case SetFree(t, _, k) => NoTag(m.nodes, t, -1) && !m.nodes[k].active
    case SetTag(t, _, k) => NoTag(m.nodes, t, -1) && !m.nodes[k].active
    case SetNewLevel(t, _, k) => m.nodes[k].tag == Some(t) && !m.nodes[k].active
    case SetCalloc(t, _) => NoTag(m.nodes, t, -1) && AllActive(m.nodes, -1)
    case SetInsert(t, _) => NoTag(m.nodes, t, -1) && AllActive(m.nodes, -1)
    case SetUnlock(t, _) => NoTag(m.nodes, t, -1)
    case ClearScan(t, k) => NoTag(m.nodes, t, k)
    case ClearExchange(t, k) => m.nodes[k].tag == Some(t)
    case _ => true
  }

  /** Tags: stored exactly once, and missing only from the node being renamed. */
  predicate TagsOk(m: Memory, w: PC) {
    && (forall i, j :: 0 <= i < j < |m.nodes| && m.nodes[i].tag.Some? ==> m.nodes[i].tag != m.nodes[j].tag)
    && (forall k :: 0 <= k < |m.nodes| ==> (m.nodes[k].tag.None? <==> w.SetTag? && w.k == k))
  }

  /** Levels: every node's level was stored by a set call for its tag. */
  predicate LevelsOk(m: Memory, w: PC, stored: set<(Tag, Level)>) {
    forall k :: 0 <= k < |m.nodes| && m.nodes[k].tag.Some? && !(w.SetNewLevel? && w.k == k) ==>
      (m.nodes[k].tag.value, m.nodes[k].level) in stored
  }

  /** The counter differs from the number of active nodes only between the two stores of one call. */
  predicate CountOk(m: Memory, w: PC) {
    m.count == Active(m.nodes) + Owed(w)
  }

  /** What the counter still has to be corrected by. */
  function Owed(w: PC): int {
    if w.IncCount? || w.IncCountNew? then -1 else if w.DecCount? then 1 else 0
  }

  /** The snapshot lags behind the list only while an insertion is being published. */
  predicate HeadOk(m: Memory, w: PC) {
    m.head == |m.nodes| - (if w.IncCountNew? || w.SetHead? then 2 else 1)
    && (w.IncCountNew? || w.SetHead? ==> |m.nodes| >= 1)
  }

  predicate WriterOk(m: Memory, w: PC, stored: set<(Tag, Level)>, peak: nat) {
    && WriterShape(m, w) && WriterKnows(m, w)
    && TagsOk(m, w) && LevelsOk(m, w, stored) && CountOk(m, w) && HeadOk(m, w)
    && peak == |m.nodes|
  }

  /** What holds of a thread in a lookup at each point. */
  predicate ThreadOk(m: Memory, w: PC, stored: set<(Tag, Level)>, defaults: set<Level>, pc: PC) {
    && (AtNode(pc) ==> 0 <= pc.k < |m.nodes| && pc.k <= m.head)
    && (Confirmed(pc) ==> !Replacing(w, pc.k))
    && (pc.LoadLevel? && pc.matches ==> pc.q.Some? && m.nodes[pc.k].tag == pc.q)
    && (pc.Leave? && pc.matches ==> pc.q.Some? && (pc.q.value, pc.level) in stored)
    && (pc.Found? ==> pc.q.Some? && (pc.q.value, pc.level) in stored)
    && (pc.Fallback? ==> pc.level in defaults)
  }

  predicate ReadersOk(s: State) {
    forall k :: 0 <= k < |s.mem.readers| ==> s.mem.readers[k] == Readers(s.pcs, k)
  }

  predicate ThreadsOk(s: State) {
    forall t :: 0 <= t < |s.pcs| ==> ThreadOk(s.mem, Writer(s), s.stored, s.defaults, s.pcs[t])
  }

  predicate Inv(s: State) {
    && Locked(s)
    && (s.lock.Some? ==> s.lock.value < |s.pcs|)
    && WriterOk(s.mem, Writer(s), s.stored, s.peak)
    && ReadersOk(s)
    && ThreadsOk(s)
    && s.default in s.defaults
  }

  lemma CountedIsPositive(s: State, t: nat)
    requires t < |s.pcs| && Inv(s)
    ensures AtNode(s.pcs[t]) ==> 0 <= s.pcs[t].k < |s.mem.nodes| == |s.mem.readers|
    ensures Counted(s.pcs[t]) ==> s.mem.readers[s.pcs[t].k] > 0
  {
    assert ThreadOk(s.mem, Writer(s), s.stored, s.defaults, s.pcs[t]);
    if Counted(s.pcs[t]) { ReadersCovers(s.pcs, t, s.pcs[t].k); }
  }

  // ---- The lock holder's steps keep the invariant ----

  lemma ShapeStep(m: Memory, w: PC, granted: bool)
    requires Holding(w) && WriterShape(m, w)
    ensures WriterShape(WriterMemory(m, w), HolderAfter(m, w, granted))
  {
  }

  lemma ScanKnows(m: Memory, w: PC, granted: bool)
    requires WriterKnows(m, w)
    requires w.SetScan? || w.SetReuse? || w.ClearScan? || w.SetCalloc? || w.SetTouch? || w.SetWait?
    ensures WriterKnows(m, HolderAfter(m, w, granted))
  {
  }

  lemma KnowsStep(m: Memory, w: PC, granted: bool, stored: set<(Tag, Level)>, peak: nat)
    requires Holding(w) && WriterOk(m, w, stored, peak)
    ensures WriterKnows(WriterMemory(m, w), HolderAfter(m, w, granted))
  {
    if w.SetScan? || w.SetReuse? || w.ClearScan? || w.SetCalloc? || w.SetTouch? || w.SetWait? {
      hide WriterKnows, TagsOk, LevelsOk, CountOk, HeadOk, WriterNext, HolderAfter;
      ScanKnows(m, w, granted);
    } else {
      hide WriterKnows, TagsOk, LevelsOk, CountOk, HeadOk, WriterNext, HolderAfter, WriterMemory;
      StoreKnows(m, w, granted);
    }
  }

  lemma StoreKnows(m: Memory, w: PC, granted: bool)
    requires Holding(w) && WriterKnows(m, w) && TagsOk(m, w)
    requires !w.SetScan? && !w.SetReuse? && !w.ClearScan? && !w.SetCalloc? && !w.SetTouch? && !w.SetWait?
    ensures WriterKnows(WriterMemory(m, w), HolderAfter(m, w, granted))
  {
  }

  predicate SameTags(a: seq<Node>, b: seq<Node>) {
    |a| == |b| && forall k :: 0 <= k < |a| ==> a[k].tag == b[k].tag
  }

  lemma TagsKept(m: Memory, w: PC)
    requires WriterShape(m, w) && !w.SetFree? && !w.SetTag? && !w.SetInsert?
    ensures SameTags(m.nodes, WriterMemory(m, w).nodes)
  {
  }

  lemma TagsRenamed(m: Memory, w: PC)
    requires WriterKnows(m, w) && TagsOk(m, w)
    requires w.SetFree? || w.SetTag? || w.SetInsert?
    ensures TagsOk(WriterMemory(m, w), HolderAfter(m, w, false))
  {
  }

  lemma TagsStep(m: Memory, w: PC, granted: bool)
    requires Holding(w) && WriterShape(m, w) && WriterKnows(m, w) && TagsOk(m, w)
    ensures TagsOk(WriterMemory(m, w), HolderAfter(m, w, granted))
  {
    if w.SetFree? || w.SetTag? || w.SetInsert? {
      TagsRenamed(m, w);
    } else {
      TagsKept(m, w);
      hide WriterMemory, WriterKnows;
    }
  }

  lemma LevelsStep(m: Memory, w: PC, granted: bool, stored: set<(Tag, Level)>)
    requires Holding(w) && WriterShape(m, w) && WriterKnows(m, w) && TagsOk(m, w) && LevelsOk(m, w, stored)
    ensures LevelsOk(WriterMemory(m, w), HolderAfter(m, w, granted), stored + StoredBy(w))
  {
  }

  /** How many more nodes are active after the step. */
  function Activated(m: Memory, w: PC): int
    requires WriterShape(m, w)
  {
    if w.SetActive? || w.SetInsert? then 1 else if w.ClearExchange? && m.nodes[w.k].active then -1 else 0
  }

  lemma ActiveAfter(m: Memory, w: PC)
    requires Holding(w) && WriterKnows(m, w)
    ensures Active(WriterMemory(m, w).nodes) == Active(m.nodes) + Activated(m, w)
  {
    if Changing(w) {
      ActiveUpdate(m.nodes, w.k, WriterMemory(m, w).nodes[w.k]);
      hide Active;
    } else if w.SetInsert? {
      assert WriterMemory(m, w).nodes[..|m.nodes|] == m.nodes;
    }
  }

  lemma CountStep(m: Memory, w: PC, granted: bool)
    requires Holding(w) && WriterShape(m, w) && WriterKnows(m, w) && CountOk(m, w)
    ensures CountOk(WriterMemory(m, w), HolderAfter(m, w, granted))
  {
    ActiveAfter(m, w);
    CounterAfter(m, w, granted);
    hide WriterMemory, HolderAfter, WriterKnows, Active;
  }

  lemma CounterAfter(m: Memory, w: PC, granted: bool)
    requires Holding(w) && WriterKnows(m, w)
    ensures WriterMemory(m, w).count - Owed(HolderAfter(m, w, granted)) == m.count - Owed(w) + Activated(m, w)
  {
    hide NoTag, AllActive;
  }

  lemma HeadStep(m: Memory, w: PC, granted: bool)
    requires Holding(w) && WriterShape(m, w) && HeadOk(m, w)
    ensures HeadOk(WriterMemory(m, w), HolderAfter(m, w, granted))
  {
  }

  lemma PeakStep(m: Memory, w: PC)
    requires Holding(w) && WriterShape(m, w) && WriterKnows(m, w)
    ensures Max(|m.nodes|, Active(WriterMemory(m, w).nodes)) == |WriterMemory(m, w).nodes|
  {
    ActiveBounds(WriterMemory(m, w).nodes);
  }

  lemma WriterStepOk(m: Memory, w: PC, granted: bool, stored: set<(Tag, Level)>, peak: nat)
    requires Holding(w) && WriterOk(m, w, stored, peak)
    ensures WriterShape(WriterMemory(m, w), HolderAfter(m, w, granted))
    ensures WriterOk(WriterMemory(m, w), HolderAfter(m, w, granted), stored + StoredBy(w),
                     Max(peak, Active(WriterMemory(m, w).nodes)))
  {
    ShapeStep(m, w, granted);
    KnowsStep(m, w, granted, stored, peak);
    TagsStep(m, w, granted);
    LevelsStep(m, w, granted, stored);
    CountStep(m, w, granted);
    HeadStep(m, w, granted);
    PeakStep(m, w);
    hide WriterMemory, HolderAfter, WriterShape, WriterKnows, TagsOk, LevelsOk, CountOk, HeadOk, Holding;
  }

  /** A lookup never sees its tag freed or replaced: the wait for `readers` excludes it. */
  lemma BystanderOk(m: Memory, w: PC, granted: bool, stored: set<(Tag, Level)>, defaults: set<Level>, pc: PC)
    requires Holding(w) && WriterShape(m, w) && WriterKnows(m, w) && ThreadOk(m, w, stored, defaults, pc)
    requires Counted(pc) ==> m.readers[pc.k] > 0
    ensures ThreadOk(WriterMemory(m, w), HolderAfter(m, w, granted), stored + StoredBy(w), defaults, pc)
  {
    NodesGrow(m, w);
    if Confirmed(pc) {
      TagUntouched(m, w, pc.k);
      ReadersExcludeReplacing(m, w, granted, pc.k);
    }
    hide WriterMemory, HolderAfter, WriterKnows, WriterShape, Replacing, Holding;
  }

  lemma NodesGrow(m: Memory, w: PC)
    requires WriterShape(m, w)
    ensures |WriterMemory(m, w).nodes| >= |m.nodes|
  {
  }

  lemma ReadersExcludeReplacing(m: Memory, w: PC, granted: bool, k: nat)
    requires Holding(w) && WriterShape(m, w) && k < |m.readers| && m.readers[k] > 0 && !Replacing(w, k)
    ensures !Replacing(HolderAfter(m, w, granted), k)
  {
  }

  lemma TagUntouched(m: Memory, w: PC, k: nat)
    requires WriterShape(m, w) && k < |m.nodes| && !Replacing(w, k)
    ensures |WriterMemory(m, w).nodes| >= |m.nodes| && WriterMemory(m, w).nodes[k].tag == m.nodes[k].tag
  {
  }

  lemma ActiveIsNotReplaced(m: Memory, w: PC, k: nat)
    requires WriterKnows(m, w) && k < |m.nodes| && m.nodes[k].active
    ensures !Replacing(w, k)
  {
    hide NoTag, AllActive;
  }

  /** The level read under a matching tag was stored for that tag. */
  lemma LevelWasStored(m: Memory, w: PC, stored: set<(Tag, Level)>, k: nat)
    requires LevelsOk(m, w, stored) && k < |m.nodes| && m.nodes[k].tag.Some? && !Replacing(w, k)
    ensures (m.nodes[k].tag.value, m.nodes[k].level) in stored
  {
  }

  lemma ReaderWalks(m: Memory, w: PC, stored: set<(Tag, Level)>, defaults: set<Level>, default: Level, pc: PC)
    requires ThreadOk(m, w, stored, defaults, pc) && WriterKnows(m, w) && m.head < |m.nodes|
    requires pc.LoadCount? || pc.LoadHead? || pc.CheckActive? || pc.Enter? || pc.Recheck? || pc.LeaveInactive?
    ensures ThreadOk(m, w, stored, defaults, LookupNext(m, default, pc))
  {
    hide WriterKnows, Replacing;
    if pc.Recheck? && m.nodes[pc.k].active { ActiveIsNotReplaced(m, w, pc.k); }
  }

  lemma ReaderCompares(m: Memory, w: PC, stored: set<(Tag, Level)>, defaults: set<Level>, default: Level, pc: PC)
    requires ThreadOk(m, w, stored, defaults, pc) && LevelsOk(m, w, stored) && (pc.Compare? || pc.LoadLevel?)
    ensures ThreadOk(m, w, stored, defaults, LookupNext(m, default, pc))
  {
    hide LevelsOk, Replacing;
    if pc.LoadLevel? && pc.matches { LevelWasStored(m, w, stored, pc.k); }
  }

  lemma ReaderReturns(m: Memory, w: PC, stored: set<(Tag, Level)>, defaults: set<Level>, default: Level, pc: PC)
    requires ThreadOk(m, w, stored, defaults, pc) && default in defaults
    requires pc.Leave? || pc.LoadDefault? || pc.Found? || pc.Fallback?
    ensures ThreadOk(m, w, stored, defaults, LookupNext(m, default, pc))
  {
  }

  lemma ReaderStepOk(m: Memory, w: PC, stored: set<(Tag, Level)>, defaults: set<Level>, peak: nat,
                     default: Level, pc: PC)
    requires WriterOk(m, w, stored, peak) && IsLookup(pc) && ThreadOk(m, w, stored, defaults, pc)
    requires default in defaults
    ensures ThreadOk(m, w, stored, defaults, LookupNext(m, default, pc))
  {
    assert LevelsOk(m, w, stored) && WriterKnows(m, w) && m.head < |m.nodes|;
    hide WriterOk, WriterKnows, LevelsOk, LookupNext;
    if pc.Compare? || pc.LoadLevel? {
      ReaderCompares(m, w, stored, defaults, default, pc);
    } else if pc.Leave? || pc.LoadDefault? || pc.Found? || pc.Fallback? {
      ReaderReturns(m, w, stored, defaults, default, pc);
    } else {
      ReaderWalks(m, w, stored, defaults, default, pc);
    }
  }

  lemma ReadersAreFree(m: Memory, readers: seq<nat>, w: PC, stored: set<(Tag, Level)>, peak: nat)
    requires WriterOk(m, w, stored, peak) && |readers| == |m.readers|
    ensures WriterOk(m.(readers := readers), w, stored, peak)
  {
  }

  // ---- Every step keeps the invariant ----

  lemma LockedUpdate(s: State, s': State, t: nat)
    requires t < |s.pcs| && Locked(s) && |s'.pcs| == |s.pcs| && s'.pcs == s.pcs[t := s'.pcs[t]]
    requires Holding(s'.pcs[t]) && !Holding(s.pcs[t]) ==> s.lock.None?
    requires s'.lock == (if Holding(s'.pcs[t]) then Some(t) else if Holding(s.pcs[t]) then None else s.lock)
    ensures Locked(s')
  {
    hide Holding;
  }

  /** Thread t moves without touching any node's `readers`. */
  lemma UncountedUpdate(s: State, s': State, t: nat)
    requires t < |s.pcs| && ReadersOk(s) && |s'.pcs| == |s.pcs| && s'.pcs == s.pcs[t := s'.pcs[t]]
    requires s'.mem.readers == s.mem.readers
    requires !Counted(s.pcs[t]) && !Counted(s'.pcs[t])
    ensures ReadersOk(s')
  {
    forall k | 0 <= k < |s'.mem.readers| ensures s'.mem.readers[k] == Readers(s'.pcs, k) {
      ReadersUpdate(s.pcs, t, s'.pcs[t], k);
    }
  }

  /** A lookup's step changes one `readers` field by as much as it changes the lookups counted there. */
  lemma LookupCountsAt(m: Memory, default: Level, pc: PC, k: nat)
    requires IsLookup(pc) && k < |m.readers| == |m.nodes|
    requires AtNode(pc) ==> 0 <= pc.k < |m.nodes|
    requires Counted(pc) ==> m.readers[pc.k] > 0
    ensures LookupReaders(m.readers, pc)[k]
            == m.readers[k] - (if Inside(pc, k) then 1 else 0)
               + (if Inside(LookupNext(m, default, pc), k) then 1 else 0)
  {
  }

  lemma LookupCounts(s: State, t: nat)
    requires t < |s.pcs| && ReadersOk(s) && IsLookup(s.pcs[t]) && |s.mem.readers| == |s.mem.nodes|
    requires AtNode(s.pcs[t]) ==> 0 <= s.pcs[t].k < |s.mem.nodes|
    requires Counted(s.pcs[t]) ==> s.mem.readers[s.pcs[t].k] > 0
    ensures ReadersOk(LookupStep(s, t))
  {
    hide LookupReaders, LookupNext, IsLookup, AtNode, Counted, Inside;
    var s' := LookupStep(s, t);
    forall k | 0 <= k < |s'.mem.readers| ensures s'.mem.readers[k] == Readers(s'.pcs, k) {
      LookupCountsAt(s.mem, s.default, s.pcs[t], k);
      ReadersUpdate(s.pcs, t, s'.pcs[t], k);
    }
  }

  lemma LookupsTakeNoLock(m: Memory, default: Level, pc: PC)
    requires IsLookup(pc) && (AtNode(pc) ==> 0 <= pc.k < |m.nodes|)
    ensures !Holding(pc) && !Holding(LookupNext(m, default, pc))
  {
  }

  lemma ThreadIgnoresReaders(m: Memory, readers: seq<nat>, w: PC, stored: set<(Tag, Level)>, defaults: set<Level>,
                             pc: PC)
    requires ThreadOk(m, w, stored, defaults, pc)
    ensures ThreadOk(m.(readers := readers), w, stored, defaults, pc)
  {
  }

  lemma LookupKeepsThreads(s: State, t: nat)
    requires t < |s.pcs| && Inv(s) && IsLookup(s.pcs[t]) && |s.mem.readers| == |s.mem.nodes|
    requires AtNode(s.pcs[t]) ==> 0 <= s.pcs[t].k < |s.mem.nodes|
    requires Counted(s.pcs[t]) ==> s.mem.readers[s.pcs[t].k] > 0
    requires Writer(LookupStep(s, t)) == Writer(s)
    ensures ThreadsOk(LookupStep(s, t))
  {
    hide WriterOk, LookupReaders, LookupNext, ThreadOk, Holding, AtNode, IsLookup, Counted, Writer, Locked, ReadersOk;
    var s' := LookupStep(s, t);
    ReaderStepOk(s.mem, Writer(s), s.stored, s.defaults, s.peak, s.default, s.pcs[t]);
    forall i | 0 <= i < |s.pcs| ensures ThreadOk(s'.mem, Writer(s), s.stored, s.defaults, s'.pcs[i]) {
      ThreadIgnoresReaders(s.mem, s'.mem.readers, Writer(s), s.stored, s.defaults, s'.pcs[i]);
    }
  }

  lemma LookupKeepsInv(s: State, t: nat)
    requires t < |s.pcs| && Inv(s) && IsLookup(s.pcs[t]) && |s.mem.readers| == |s.mem.nodes|
    requires AtNode(s.pcs[t]) ==> 0 <= s.pcs[t].k < |s.mem.nodes|
    requires Counted(s.pcs[t]) ==> s.mem.readers[s.pcs[t].k] > 0
    ensures Inv(LookupStep(s, t))
  {
    hide WriterOk, LookupReaders, LookupNext, ThreadsOk, Holding, AtNode, IsLookup, Counted, ReadersOk;
    var s' := LookupStep(s, t);
    LookupsTakeNoLock(s.mem, s.default, s.pcs[t]);
    LookupCounts(s, t);
    LockedUpdate(s, s', t);
    ReadersAreFree(s.mem, s'.mem.readers, Writer(s), s.stored, s.peak);
    LookupKeepsThreads(s, t);
  }

  /** Among the lock holder's steps only an insertion touches `readers`: the new node has none. */
  lemma WriterReaders(m: Memory, w: PC, granted: bool)
    requires Holding(w) && WriterShape(m, w)
    ensures WriterMemory(m, w).readers == m.readers + (if w.SetInsert? then [0] else [])
    ensures forall k :: !Inside(w, k) && !Inside(WriterNext(m, w, granted), k)
  {
  }

  lemma ShapeOf(s: State)
    requires Inv(s)
    ensures ReadersOk(s) && |s.mem.readers| == |s.mem.nodes|
  {
  }

  lemma WriterCounts(s: State, t: nat, granted: bool)
    requires t < |s.pcs| && Inv(s) && Holding(s.pcs[t]) && WriterShape(s.mem, s.pcs[t])
    ensures ReadersOk(WriterStep(s, t, granted))
  {
    hide Inv, WriterMemory, WriterNext, WriterShape, Holding, Counted, Active, Readers;
    var s' := WriterStep(s, t, granted);
    WriterReaders(s.mem, s.pcs[t], granted);
    assert ReadersOk(s) && |s.mem.readers| == |s.mem.nodes| by { ShapeOf(s); }
    forall k | 0 <= k < |s'.mem.readers| ensures s'.mem.readers[k] == Readers(s'.pcs, k) {
      ReadersUpdate(s.pcs, t, s'.pcs[t], k);
      if k == |s.mem.readers| { NobodyThere(s, k); }
    }
  }

  /** Nobody reads a node that is not in the list yet. */
  lemma NobodyThere(s: State, k: nat)
    requires Inv(s) && k >= |s.mem.nodes|
    ensures Readers(s.pcs, k) == 0
  {
    hide WriterOk, Locked, ReadersOk;
    forall i | 0 <= i < |s.pcs| ensures !Inside(s.pcs[i], k) {
      assert ThreadOk(s.mem, Writer(s), s.stored, s.defaults, s.pcs[i]);
    }
    NoneInside(s.pcs, k);
  }

  lemma {:induction false} NoneInside(pcs: seq<PC>, k: int)
    requires forall i :: 0 <= i < |pcs| ==> !Inside(pcs[i], k)
    ensures Readers(pcs, k) == 0
  {
    hide Inside;
    if pcs != [] { NoneInside(pcs[..|pcs| - 1], k); }
  }

  lemma WriterKeepsThreads(s: State, t: nat, granted: bool)
    requires t < |s.pcs| && Inv(s) && Holding(s.pcs[t]) && Writer(s) == s.pcs[t] && WriterShape(s.mem, s.pcs[t])
    requires Writer(WriterStep(s, t, granted)) == HolderAfter(s.mem, s.pcs[t], granted)
    ensures ThreadsOk(WriterStep(s, t, granted))
  {
    hide WriterShape, WriterMemory, WriterNext, HolderAfter, ThreadOk, Holding, AtNode, Counted, Writer, Locked,
      TagsOk, LevelsOk, CountOk, HeadOk, WriterKnows, IsLookup, ReadersOk;
    var s' := WriterStep(s, t, granted);
    var w' := HolderAfter(s.mem, s.pcs[t], granted);
    HolderThreadOk(s.mem, s.pcs[t], granted, s.stored, s.defaults);
    forall i | 0 <= i < |s.pcs| ensures ThreadOk(s'.mem, w', s'.stored, s.defaults, s'.pcs[i]) {
      if i != t {
        CountedIsPositive(s, i);
        BystanderOk(s.mem, s.pcs[t], granted, s.stored, s.defaults, s.pcs[i]);
      }
    }
  }

  lemma HolderThreadOk(m: Memory, w: PC, granted: bool, stored: set<(Tag, Level)>, defaults: set<Level>)
    requires Holding(w) && WriterShape(m, w) && WriterKnows(m, w)
    ensures ThreadOk(WriterMemory(m, w), HolderAfter(m, w, granted), stored + StoredBy(w), defaults,
                     WriterNext(m, w, granted))
  {
  }

  lemma HolderAfterHolds(m: Memory, w: PC, granted: bool)
    requires Holding(w) && WriterShape(m, w)
    ensures if Releases(w) then !Holding(WriterNext(m, w, granted)) && HolderAfter(m, w, granted) == Idle
            else Holding(WriterNext(m, w, granted)) && HolderAfter(m, w, granted) == WriterNext(m, w, granted)
  {
  }

  lemma WriterKeepsInv(s: State, t: nat, granted: bool)
    requires t < |s.pcs| && Inv(s) && Holding(s.pcs[t]) && Writer(s) == s.pcs[t] && WriterShape(s.mem, s.pcs[t])
    requires s.lock == Some(t)
    ensures Inv(WriterStep(s, t, granted))
  {
    hide WriterOk, WriterMemory, WriterNext, HolderAfter, WriterShape, ThreadsOk, Holding, ReadersOk, Releases;
    var s' := WriterStep(s, t, granted);
    HolderAfterHolds(s.mem, s.pcs[t], granted);
    WriterCounts(s, t, granted);
    LockedUpdate(s, s', t);
    WriterStepOk(s.mem, s.pcs[t], granted, s.stored, s.peak);
    WriterKeepsThreads(s, t, granted);
  }

  lemma ThreadIgnoresLocking(m: Memory, w: PC, w': PC, stored: set<(Tag, Level)>,
                             defaults: set<Level>, defaults': set<Level>, pc: PC)
    requires ThreadOk(m, w, stored, defaults, pc) && defaults <= defaults'
    requires w' == w || w'.SetScan? || w'.ClearScan?
    ensures ThreadOk(m, w', stored, defaults', pc)
  {
  }

  /** A step that writes neither nodes nor counters: a call begins or ends, or the lock is taken. */
  lemma QuietStep(s: State, s': State, t: nat)
    requires t < |s.pcs| && Inv(s) && |s'.pcs| == |s.pcs| && s'.pcs == s.pcs[t := s'.pcs[t]]
    requires s'.mem == s.mem && s'.peak == s.peak && s'.stored == s.stored && s.defaults <= s'.defaults
    requires s'.default in s'.defaults
    requires !Holding(s.pcs[t]) && (Holding(s'.pcs[t]) ==> s.lock.None?)
    requires s'.lock == if Holding(s'.pcs[t]) then Some(t) else s.lock
    requires !Counted(s.pcs[t]) && !Counted(s'.pcs[t])
    requires Holding(s'.pcs[t]) ==> s'.pcs[t].SetScan? || s'.pcs[t].ClearScan?
    requires ThreadOk(s.mem, Writer(s'), s.stored, s'.defaults, s'.pcs[t])
    requires WriterOk(s.mem, Writer(s'), s.stored, s.peak)
    ensures Inv(s')
  {
    hide WriterOk, ThreadOk, Counted, ReadersOk, Holding;
    UncountedUpdate(s, s', t);
    LockedUpdate(s, s', t);
    forall i | 0 <= i < |s.pcs| ensures ThreadOk(s'.mem, Writer(s'), s'.stored, s'.defaults, s'.pcs[i]) {
      if i != t {
        ThreadIgnoresLocking(s.mem, Writer(s), Writer(s'), s.stored, s.defaults, s'.defaults, s.pcs[i]);
      }
    }
  }

  lemma IdleKeepsInv(s: State, t: nat, c: Choice)
    requires t < |s.pcs| && Inv(s) && s.pcs[t].Idle?
    ensures Inv(IdleStep(s, t, c))
  {
    hide WriterOk, ReadersOk, ThreadsOk;
    var s' := IdleStep(s, t, c);
    if c.Proceed? {
      assert s' == s;
    } else {
      QuietStep(s, s', t);
    }
  }

  lemma OutsideKeepsInv(s: State, t: nat, granted: bool)
    requires t < |s.pcs| && Inv(s) && !s.pcs[t].Idle? && !IsLookup(s.pcs[t]) && !Holding(s.pcs[t])
    ensures Inv(OutsideStep(s, t, granted))
  {
    hide ReadersOk, WriterOk, ThreadsOk;
    var s' := OutsideStep(s, t, granted);
    assert ThreadOk(s.mem, Writer(s), s.stored, s.defaults, s.pcs[t]) by { ThreadAt(s, t); }
    if s' != s {
      if Holding(s'.pcs[t]) { TakingTheLock(s, s'.pcs[t]); }
      QuietStep(s, s', t);
    }
  }

  lemma ThreadAt(s: State, t: nat)
    requires t < |s.pcs| && ThreadsOk(s)
    ensures ThreadOk(s.mem, Writer(s), s.stored, s.defaults, s.pcs[t])
  {
  }

  lemma TakingTheLock(s: State, w: PC)
    requires Inv(s) && s.lock.None?
    requires w.SetScan? || w.ClearScan?
    requires w.k == |s.mem.nodes| - 1
    ensures WriterOk(s.mem, w, s.stored, s.peak)
  {
  }

  lemma NextKeepsInv(s: State, t: nat, c: Choice)
    requires t < |s.pcs| && Inv(s)
    ensures Inv(Next(s, t, c))
  {
    assert WriterShape(s.mem, Writer(s));
    assert |s.mem.readers| == |s.mem.nodes|;
    hide WriterOk, WriterShape, ReadersOk, ThreadsOk, Holding, IsLookup, IdleStep, LookupStep, WriterStep, OutsideStep;
    var pc := s.pcs[t];
    if pc.Idle? {
      IdleKeepsInv(s, t, c);
    } else if IsLookup(pc) {
      CountedIsPositive(s, t);
      LookupKeepsInv(s, t);
    } else if Holding(pc) {
      WriterKeepsInv(s, t, c.Proceed? && c.granted);
    } else {
      OutsideKeepsInv(s, t, c.Proceed? && c.granted);
    }
  }

  lemma InitialInv(threads: nat, default: Level)
    ensures Inv(Initial(threads, default))
  {
  }

  type Schedule = seq<(nat, Choice)>

  /** Runs: any threads in any order, with any choices. */
  predicate Runs(s: State, schedule: Schedule) {
    forall i :: 0 <= i < |schedule| ==> schedule[i].0 < |s.pcs|
  }

  function Run(s: State, schedule: Schedule): (r: State)
    requires Inv(s) && Runs(s, schedule)
    ensures Inv(r) && |r.pcs| == |s.pcs|
    decreases |schedule|
  {
    if schedule == [] then s
    else
      NextKeepsInv(s, schedule[0].0, schedule[0].1);
      KeepsThreads(s, schedule[0].0, schedule[0].1);
      Run(Next(s, schedule[0].0, schedule[0].1), schedule[1..])
  }

  lemma KeepsThreads(s: State, t: nat, c: Choice)
    requires t < |s.pcs| && Inv(s)
    ensures |Next(s, t, c).pcs| == |s.pcs|
  {
    hide Inv, Holding, IsLookup, WriterNext, LookupNext;
  }

  lemma {:induction false} RunSplit(s: State, a: Schedule, b: Schedule)
    requires Inv(s) && Runs(s, a) && Runs(s, b)
    ensures Runs(s, a + b) && Run(s, a + b) == Run(Run(s, a), b)
    decreases |a|
  {
    hide Inv, Next;
    if a == [] {
      assert a + b == b;
    } else {
      assert (a + b)[1..] == a[1..] + b;
      NextKeepsInv(s, a[0].0, a[0].1);
      KeepsThreads(s, a[0].0, a[0].1);
      RunSplit(Next(s, a[0].0, a[0].1), a[1..], b);
    }
  }

  // ---- What holds in every reachable state ----

  /**
   * In every interleaving: no lookup stands between its recheck and its fetch-sub at a node whose tag is being
   * freed or replaced; lookups reach only nodes that `head` leads to; `readers` counts the lookups inside; and no two
   * nodes ever carry the same tag.
   */
  lemma LookupsAreSafe(threads: nat, default: Level, schedule: Schedule, t: nat, u: nat)
    requires Runs(Initial(threads, default), schedule) && t < threads && u < threads
    ensures Inv(Initial(threads, default))
    ensures var r := Run(Initial(threads, default), schedule);
            && (Confirmed(r.pcs[t]) ==> 0 <= r.pcs[t].k < |r.mem.nodes|
                                        && !Replacing(r.pcs[u], r.pcs[t].k) && r.mem.nodes[r.pcs[t].k].tag.Some?)
            && (AtNode(r.pcs[t]) ==> 0 <= r.pcs[t].k <= r.mem.head)
            && (forall k :: 0 <= k < |r.mem.readers| ==> r.mem.readers[k] == Readers(r.pcs, k))
            && (forall i, j :: 0 <= i < j < |r.mem.nodes| && r.mem.nodes[i].tag.Some? ==>
                  r.mem.nodes[i].tag != r.mem.nodes[j].tag)
  {
    InitialInv(threads, default);
    var r := Run(Initial(threads, default), schedule);
    assert ThreadOk(r.mem, Writer(r), r.stored, r.defaults, r.pcs[t]);
    assert Holding(r.pcs[u]) ==> Writer(r) == r.pcs[u];
    hide WriterKnows, WriterShape, LevelsOk, CountOk, HeadOk, Readers, Initial;
  }

  lemma ConfirmedIsKept(s: State, t: nat)
    requires Inv(s) && t < |s.pcs| && Confirmed(s.pcs[t])
    ensures 0 <= s.pcs[t].k < |s.mem.nodes| && !Replacing(Writer(s), s.pcs[t].k) && WriterShape(s.mem, Writer(s))
  {
    hide WriterKnows, WriterShape, TagsOk, LevelsOk, CountOk, HeadOk, Replacing, ReadersOk, Locked;
    ThreadAt(s, t);
  }

  /** While a lookup compares, no step of any other thread changes the tag it compares with. */
  lemma ComparedTagIsStable(s: State, t: nat, u: nat, c: Choice)
    requires Inv(s) && t < |s.pcs| && u < |s.pcs| && t != u && Confirmed(s.pcs[t])
    ensures 0 <= s.pcs[t].k < |s.mem.nodes| <= |Next(s, u, c).mem.nodes|
    ensures Next(s, u, c).mem.nodes[s.pcs[t].k].tag == s.mem.nodes[s.pcs[t].k].tag
  {
    hide WriterOk, WriterMemory, WriterNext, WriterShape, LookupNext, LookupReaders, Holding, ReadersOk, Locked, ThreadsOk,
      Replacing;
    ConfirmedIsKept(s, t);
    NextNodes(s, u, c);
    if Holding(s.pcs[u]) { TagUntouched(s.mem, s.pcs[u], s.pcs[t].k); }
  }

  /** In turn i a thread stands at a store of level l for tag t. */
  predicate StoresAt(s: State, schedule: Schedule, i: nat, t: Tag, l: Level)
    requires Inv(s) && Runs(s, schedule)
  {
    i < |schedule| && Runs(s, schedule[..i]) && (t, l) in StoredBy(Run(s, schedule[..i]).pcs[schedule[i].0])
  }

  predicate StoresDefaultAt(s: State, schedule: Schedule, i: nat, l: Level)
    requires Inv(s) && Runs(s, schedule)
  {
    i < |schedule| && Runs(s, schedule[..i]) && Run(s, schedule[..i]).pcs[schedule[i].0] == StoreDefault(l)
  }

  /** The history variables hold what was stored in the course of the run and nothing else. */
  lemma {:induction false} HistoryIsReal(s: State, schedule: Schedule, t: Tag, l: Level)
    requires Inv(s) && Runs(s, schedule)
    ensures (t, l) in Run(s, schedule).stored <==> (t, l) in s.stored || exists i: nat :: StoresAt(s, schedule, i, t, l)
    ensures l in Run(s, schedule).defaults <==> l in s.defaults || exists i: nat :: StoresDefaultAt(s, schedule, i, l)
    decreases |schedule|
  {
    hide Inv, Next;
    if schedule != [] {
      var n := |schedule| - 1;
      var front, u, c := schedule[..n], schedule[n].0, schedule[n].1;
      HistoryIsReal(s, front, t, l);
      RunSplit(s, front, [(u, c)]);
      assert schedule == front + [(u, c)];
      RunOne(Run(s, front), u, c);
      HistoryStep(Run(s, front), u, c);
      forall i: nat | i < n
        ensures StoresAt(s, schedule, i, t, l) <==> StoresAt(s, front, i, t, l)
        ensures StoresDefaultAt(s, schedule, i, l) <==> StoresDefaultAt(s, front, i, l)
      {
        assert schedule[..i] == front[..i] && schedule[i] == front[i];
      }
      assert StoresAt(s, schedule, n, t, l) <==> (t, l) in StoredBy(Run(s, front).pcs[u]);
      assert StoresDefaultAt(s, schedule, n, l) <==> Run(s, front).pcs[u] == StoreDefault(l);
    }
  }

  lemma HistoryStep(s: State, t: nat, c: Choice)
    requires t < |s.pcs| && Inv(s)
    ensures Next(s, t, c).stored == s.stored + StoredBy(s.pcs[t])
    ensures Next(s, t, c).defaults == s.defaults + (if s.pcs[t].StoreDefault? then {s.pcs[t].level} else {})
  {
    hide Inv, WriterNext, LookupNext, Active, WriterMemory;
    assert s.stored + {} == s.stored && s.defaults + {} == s.defaults;
    NoStore(s.pcs[t]);
    hide Holding, IsLookup, StoredBy;
  }

  lemma NoStore(pc: PC)
    ensures !Holding(pc) ==> StoredBy(pc) == {}
    ensures Holding(pc) || IsLookup(pc) ==> !pc.StoreDefault?
  {
  }

  /** The thread is inside a set call for tag t and level l. */
  predicate Setting(pc: PC, t: Tag, l: Level) {
    && (pc.SetLock? || pc.SetAlloc? || pc.SetScan? || pc.SetTouch? || pc.SetLevel? || pc.SetActive? || pc.SetReuse?
        || pc.SetWait? || pc.SetFree? || pc.SetTag? || pc.SetNewLevel? || pc.SetCalloc? || pc.SetInsert? || pc.SetUnlock?)
    && pc.t == t && pc.l == l
  }

  /** In turn i thread u was idle and made the call. */
  predicate CalledAt(s: State, schedule: Schedule, i: nat, u: nat, c: Choice)
    requires Inv(s) && Runs(s, schedule)
  {
    i < |schedule| && Runs(s, schedule[..i]) && schedule[i] == (u, c) && u < |s.pcs| && Run(s, schedule[..i]).pcs[u].Idle?
  }

  lemma WriterKeepsSetting(m: Memory, w: PC, granted: bool, t: Tag, l: Level)
    requires Holding(w) && WriterShape(m, w) && Setting(WriterNext(m, w, granted), t, l)
    ensures Setting(w, t, l)
  {
  }

  lemma LookupIsNoSetting(m: Memory, default: Level, pc: PC, t: Tag, l: Level)
    requires IsLookup(pc) && (AtNode(pc) ==> 0 <= pc.k < |m.nodes|)
    ensures !Setting(LookupNext(m, default, pc), t, l)
  {
  }

  lemma SettingStep(s: State, u: nat, c: Choice, t: Tag, l: Level)
    requires Inv(s) && u < |s.pcs| && Setting(Next(s, u, c).pcs[u], t, l)
    ensures Setting(s.pcs[u], t, l) || (s.pcs[u].Idle? && c == Set(t, l))
  {
    var pc := s.pcs[u];
    if IsLookup(pc) {
      CountedIsPositive(s, u);
      hide Inv, LookupNext, IsLookup, Setting, Counted, AtNode;
      LookupIsNoSetting(s.mem, s.default, pc, t, l);
    } else if Holding(pc) {
      assert WriterShape(s.mem, Writer(s)) && Writer(s) == pc;
      hide Inv, WriterNext, Holding, IsLookup, Setting, WriterShape, Active;
      WriterKeepsSetting(s.mem, pc, c.Proceed? && c.granted, t, l);
    } else {
      hide Inv, Holding, IsLookup;
    }
  }

  /** A thread inside a set call is there because it made that call. */
  lemma {:induction false} SetCallsWereMade(s: State, schedule: Schedule, u: nat, t: Tag, l: Level)
    requires Inv(s) && Runs(s, schedule) && u < |s.pcs|
    requires Setting(Run(s, schedule).pcs[u], t, l) && !Setting(s.pcs[u], t, l)
    ensures exists i: nat :: CalledAt(s, schedule, i, u, Set(t, l))
    decreases |schedule|
  {
    hide Inv, Next, Setting;
    var n := |schedule| - 1;
    var front, v, c := schedule[..n], schedule[n].0, schedule[n].1;
    var r := Run(s, front);
    RunSplit(s, front, [(v, c)]);
    assert schedule == front + [(v, c)];
    RunOne(r, v, c);
    if v == u { SettingStep(r, u, c, t, l); } else { OthersDoNotMove(r, u, v, c); }
    if Setting(r.pcs[u], t, l) {
      SetCallsWereMade(s, front, u, t, l);
      var i: nat :| CalledAt(s, front, i, u, Set(t, l));
      assert schedule[..i] == front[..i] && schedule[i] == front[i];
      assert CalledAt(s, schedule, i, u, Set(t, l));
    } else {
      assert CalledAt(s, schedule, n, u, Set(t, l));
    }
  }

  /**
   * A lookup that matches returns a level that a thread had by then stored for that very tag, in a set call it had
   * made; any other returns a default level that was stored, or the one at start.
   */
  lemma LookupsReturnWhatWasSet(threads: nat, default: Level, schedule: Schedule, t: nat)
    requires Runs(Initial(threads, default), schedule) && t < threads
    ensures Inv(Initial(threads, default))
    ensures var start := Initial(threads, default);
            var pc := Run(start, schedule).pcs[t];
            && (pc.Found? ==> pc.q.Some? && exists i: nat :: StoresAt(start, schedule, i, pc.q.value, pc.level))
            && (pc.Fallback? ==> pc.level == default || exists i: nat :: StoresDefaultAt(start, schedule, i, pc.level))
  {
    InitialInv(threads, default);
    var start := Initial(threads, default);
    var r := Run(start, schedule);
    ThreadAt(r, t);
    hide Inv, Run, StoresAt, StoresDefaultAt, StoredBy;
    var pc := r.pcs[t];
    if pc.Found? { HistoryIsReal(start, schedule, pc.q.value, pc.level); }
    if pc.Fallback? { HistoryIsReal(start, schedule, [], pc.level); }
  }

  /** Whoever stores a level for a tag had called for exactly that. */
  lemma StoresAreCalledFor(threads: nat, default: Level, schedule: Schedule, i: nat, t: Tag, l: Level)
    requires Runs(Initial(threads, default), schedule)
    ensures Inv(Initial(threads, default))
    ensures StoresAt(Initial(threads, default), schedule, i, t, l) ==>
              exists j: nat :: CalledAt(Initial(threads, default), schedule[..i], j, schedule[i].0, Set(t, l))
  {
    InitialInv(threads, default);
    var start := Initial(threads, default);
    if StoresAt(start, schedule, i, t, l) {
      var u := schedule[i].0;
      assert Setting(Run(start, schedule[..i]).pcs[u], t, l) && !Setting(start.pcs[u], t, l);
      hide Inv, Run, Initial, CalledAt, Setting;
      SetCallsWereMade(start, schedule[..i], u, t, l);
    }
  }

  /** With the lock free the counter is the number of active nodes, so zero means that no node is active. */
  lemma CountIsExact(s: State)
    requires Inv(s) && s.lock.None?
    ensures s.mem.count == Active(s.mem.nodes)
    ensures s.mem.count == 0 <==> forall k :: 0 <= k < |s.mem.nodes| ==> !s.mem.nodes[k].active
  {
    ActiveBounds(s.mem.nodes);
  }

  // ---- The list never grows beyond its highest use ----

  /** Only the lock holder writes nodes. */
  lemma NextNodes(s: State, t: nat, c: Choice)
    requires t < |s.pcs| && Inv(s)
    ensures Holding(s.pcs[t]) ==> Writer(s) == s.pcs[t] && WriterOk(s.mem, s.pcs[t], s.stored, s.peak)
    ensures Next(s, t, c).mem.nodes
            == if Holding(s.pcs[t]) then WriterMemory(s.mem, s.pcs[t]).nodes else s.mem.nodes
  {
    if Holding(s.pcs[t]) { assert Writer(s) == s.pcs[t]; }
    assert WriterShape(s.mem, Writer(s));
    hide WriterOk, WriterShape, Locked, ReadersOk, ThreadsOk, Holding, WriterNext, WriterMemory, LookupNext,
      LookupReaders, Active;
  }

  lemma GrowsToPeak(s: State, t: nat, c: Choice)
    requires t < |s.pcs| && Inv(s)
    ensures |Next(s, t, c).mem.nodes| == Max(|s.mem.nodes|, Active(Next(s, t, c).mem.nodes))
  {
    NextNodes(s, t, c);
    ActiveBounds(s.mem.nodes);
    if Holding(s.pcs[t]) {
      assert WriterOk(s.mem, s.pcs[t], s.stored, s.peak);
      PeakStep(s.mem, s.pcs[t]);
    }
  }

  /** The number of nodes is the largest number of filters that were ever active at the same time. */
  lemma {:induction false} NodeCountIsPeakUse(s: State, schedule: Schedule)
    requires Inv(s) && Runs(s, schedule)
    ensures forall i :: 0 <= i <= |schedule| ==> Runs(s, schedule[..i])
    ensures forall i :: 0 <= i <= |schedule| ==>
              Active(Run(s, schedule[..i]).mem.nodes) <= |Run(s, schedule).mem.nodes|
    ensures Active(s.mem.nodes) == |s.mem.nodes| ==>
              exists i :: 0 <= i <= |schedule|
                          && Active(Run(s, schedule[..i]).mem.nodes) == |Run(s, schedule).mem.nodes|
    decreases |schedule|
  {
    hide Inv, Next;
    if schedule == [] {
      ActiveBounds(s.mem.nodes);
      assert Run(s, schedule[..0]) == s;
    } else {
      var n := |schedule| - 1;
      var front, t, c := schedule[..n], schedule[n].0, schedule[n].1;
      NodeCountIsPeakUse(s, front);
      var r := Run(s, front);
      RunSplit(s, front, [(t, c)]);
      assert schedule == front + [(t, c)];
      RunOne(r, t, c);
      GrowsToPeak(r, t, c);
      assert Run(s, schedule) == Next(r, t, c);
      assert schedule[..|schedule|] == schedule;
      forall i | 0 <= i <= |schedule|
        ensures Runs(s, schedule[..i]) && Active(Run(s, schedule[..i]).mem.nodes) <= |Run(s, schedule).mem.nodes|
      {
        if i <= n { assert schedule[..i] == front[..i]; }
      }
      if |Run(s, schedule).mem.nodes| == |r.mem.nodes| {
        if Active(s.mem.nodes) == |s.mem.nodes| {
          var i :| 0 <= i <= |front| && Active(Run(s, front[..i]).mem.nodes) == |r.mem.nodes|;
          assert schedule[..i] == front[..i];
        }
      } else {
        assert Active(Run(s, schedule[..|schedule|]).mem.nodes) == |Run(s, schedule).mem.nodes|;
      }
    }
  }

  lemma RunOne(s: State, t: nat, c: Choice)
    requires Inv(s) && t < |s.pcs|
    ensures Run(s, [(t, c)]) == Next(s, t, c)
  {
    hide Inv, Next;
    NextKeepsInv(s, t, c);
    KeepsThreads(s, t, c);
    var schedule: Schedule := [(t, c)];
    assert schedule[1..] == [];
    assert Run(Next(s, t, c), []) == Next(s, t, c);
  }

  // ---- Every walk ends ----

  /** Own steps left before the result, for a lookup that has loaded the head of the list. */
  function StepsLeft(pc: PC): nat {
    if AtNode(pc) && pc.k >= 0 then
      6 * pc.k + (if pc.CheckActive? then 7 else if pc.Enter? then 6 else if pc.Recheck? then 5 else if pc.Compare? then 4
                  else if pc.LoadLevel? then 3 else 2)
    else if pc.LoadDefault? then 1
    else 0
  }

  predicate Walking(pc: PC) { AtNode(pc) || pc.LoadDefault? }

  predicate Returned(pc: PC) { pc.Found? || pc.Fallback? }

  lemma WalkStep(m: Memory, default: Level, pc: PC)
    requires Walking(pc) && (AtNode(pc) ==> 0 <= pc.k < |m.nodes|)
    ensures StepsLeft(LookupNext(m, default, pc)) < StepsLeft(pc)
    ensures Walking(LookupNext(m, default, pc)) || Returned(LookupNext(m, default, pc))
  {
  }

  function OwnSteps(schedule: Schedule, t: nat): (n: nat)
    ensures (forall i :: 0 <= i < |schedule| ==> schedule[i].0 == t) ==> n == |schedule|
  {
    if schedule == [] then 0 else (if schedule[0].0 == t then 1 else 0) + OwnSteps(schedule[1..], t)
  }

  lemma OthersDoNotMove(s: State, t: nat, u: nat, c: Choice)
    requires Inv(s) && t < |s.pcs| && u < |s.pcs| && t != u
    ensures Next(s, u, c).pcs[t] == s.pcs[t]
  {
    hide Inv, Holding, IsLookup, WriterNext, LookupNext;
  }

  lemma WalkerSteps(s: State, t: nat, c: Choice)
    requires Inv(s) && t < |s.pcs| && Walking(s.pcs[t])
    ensures StepsLeft(Next(s, t, c).pcs[t]) < StepsLeft(s.pcs[t])
    ensures Walking(Next(s, t, c).pcs[t]) || Returned(Next(s, t, c).pcs[t])
  {
    CountedIsPositive(s, t);
    WalkStep(s.mem, s.default, s.pcs[t]);
    hide Inv, LookupNext, StepsLeft, Holding;
  }

  /**
   * A lookup that has loaded the head returns within StepsLeft steps of its own, at most seven a node, whatever
   * the other threads insert, clear and recycle in between.
   */
  lemma {:induction false} WalksEnd(s: State, t: nat, schedule: Schedule)
    requires Inv(s) && Runs(s, schedule) && t < |s.pcs| && Walking(s.pcs[t])
    requires OwnSteps(schedule, t) >= StepsLeft(s.pcs[t])
    ensures exists i :: 0 <= i <= |schedule| && Runs(s, schedule[..i]) && Returned(Run(s, schedule[..i]).pcs[t])
    decreases |schedule|
  {
    hide Inv, Next, AtNode, Returned;
    assert StepsLeft(s.pcs[t]) > 0 by { WalkerSteps(s, t, Proceed(false)); }
    var u, c, rest := schedule[0].0, schedule[0].1, schedule[1..];
    NextKeepsInv(s, u, c);
    KeepsThreads(s, u, c);
    if u == t { WalkerSteps(s, t, c); } else { OthersDoNotMove(s, t, u, c); }
    var s' := Next(s, u, c);
    var i := 0;
    if !Returned(s'.pcs[t]) {
      WalksEnd(s', t, rest);
      i :| 0 <= i <= |rest| && Runs(s', rest[..i]) && Returned(Run(s', rest[..i]).pcs[t]);
    }
    assert schedule[..i + 1][1..] == rest[..i];
    assert Run(s, schedule[..i + 1]) == Run(s', rest[..i]);
  }

  // ---- The writer's wait ends ----

  /** Steps after which the lookup can no longer hold up a writer waiting at the inactive node k. */
  function Delay(pc: PC, k: int): nat {
    if AtNode(pc) && pc.k == k then
      if pc.Enter? || pc.Compare? then 3 else if pc.Recheck? || pc.LoadLevel? then 2 else if Counted(pc) then 1 else 0
    else 0
  }

  function Busy(pcs: seq<PC>, k: int): nat {
    if pcs == [] then 0 else Busy(pcs[..|pcs| - 1], k) + Delay(pcs[|pcs| - 1], k)
  }

  lemma {:induction false} BusyUpdate(pcs: seq<PC>, t: nat, pc: PC, k: int)
    requires t < |pcs|
    ensures Busy(pcs[t := pc], k) == Busy(pcs, k) - Delay(pcs[t], k) + Delay(pc, k)
  {
    hide Delay;
    var i := |pcs| - 1;
    if t == i {
      assert pcs[t := pc][..i] == pcs[..i];
    } else {
      assert pcs[t := pc][..i] == pcs[..i][t := pc];
      BusyUpdate(pcs[..i], t, pc, k);
    }
  }

  lemma {:induction false} BusyBounds(pcs: seq<PC>, k: int)
    ensures Readers(pcs, k) <= Busy(pcs, k) <= 3 * |pcs|
    ensures Busy(pcs, k) > 0 ==> exists u :: 0 <= u < |pcs| && Delay(pcs[u], k) > 0
  {
    if pcs != [] {
      var i := |pcs| - 1;
      BusyBounds(pcs[..i], k);
      if Busy(pcs[..i], k) > 0 {
        var u :| 0 <= u < i && Delay(pcs[..i][u], k) > 0;
        assert Delay(pcs[u], k) > 0;
      }
    }
  }

  predicate Waits(s: State, t: nat, k: int) {
    t < |s.pcs| && s.pcs[t].SetWait? && s.pcs[t].k == k
  }

  /** While node k is inactive, a lookup's step brings it closer to leaving, and none can enter. */
  lemma DelayShrinks(m: Memory, default: Level, pc: PC, k: nat)
    requires IsLookup(pc) && (AtNode(pc) ==> 0 <= pc.k < |m.nodes|)
    requires k < |m.nodes| && !m.nodes[k].active
    ensures Delay(LookupNext(m, default, pc), k) == if Delay(pc, k) > 0 then Delay(pc, k) - 1 else 0
  {
  }

  lemma NextMovesOne(s: State, t: nat, c: Choice)
    requires t < |s.pcs| && Inv(s)
    ensures |Next(s, t, c).pcs| == |s.pcs| && Next(s, t, c).pcs == s.pcs[t := Next(s, t, c).pcs[t]]
  {
    hide Inv, Holding, IsLookup, WriterNext, LookupNext;
  }

  lemma WaitingAtInactive(s: State, t: nat, k: int, u: nat)
    requires Inv(s) && Waits(s, t, k) && u < |s.pcs| && u != t
    ensures s.lock == Some(t) && !Holding(s.pcs[u]) && 0 <= k < |s.mem.nodes| && !s.mem.nodes[k].active
  {
    assert Writer(s) == s.pcs[t] && WriterKnows(s.mem, s.pcs[t]);
  }

  lemma DelayStep(s: State, t: nat, k: int, u: nat, c: Choice)
    requires Inv(s) && Waits(s, t, k) && u < |s.pcs| && u != t
    ensures Delay(Next(s, u, c).pcs[u], k) == if Delay(s.pcs[u], k) > 0 then Delay(s.pcs[u], k) - 1 else 0
  {
    WaitingAtInactive(s, t, k, u);
    CountedIsPositive(s, u);
    if IsLookup(s.pcs[u]) {
      hide Inv, Delay, LookupNext, IsLookup, Counted, AtNode, LookupReaders;
      DelayShrinks(s.mem, s.default, s.pcs[u], k);
    } else {
      hide Inv, Holding;
    }
  }

  /** A step of a thread other than the waiting writer. */
  lemma BusyStep(s: State, t: nat, k: int, u: nat, c: Choice)
    requires Inv(s) && Waits(s, t, k) && u < |s.pcs| && u != t
    ensures Next(s, u, c).pcs[t] == s.pcs[t]
    ensures Busy(Next(s, u, c).pcs, k) == Busy(s.pcs, k) - (if Delay(s.pcs[u], k) > 0 then 1 else 0)
  {
    hide Inv, Next, Delay;
    DelayStep(s, t, k, u, c);
    NextMovesOne(s, u, c);
    BusyUpdate(s.pcs, u, Next(s, u, c).pcs[u], k);
  }

  /** The waiting writer goes on exactly when `readers` is zero, and that is so once nobody is on the way. */
  lemma WriterLooks(s: State, t: nat, k: int, c: Choice)
    requires Inv(s) && Waits(s, t, k)
    ensures Waits(Next(s, t, c), t, k) <==> Readers(s.pcs, k) > 0
    ensures Waits(Next(s, t, c), t, k) ==> Next(s, t, c).pcs == s.pcs && Busy(s.pcs, k) > 0
    ensures !Waits(Next(s, t, c), t, k) ==> Next(s, t, c).pcs[t] == SetFree(s.pcs[t].t, s.pcs[t].l, k)
  {
    assert Writer(s) == s.pcs[t] && WriterShape(s.mem, s.pcs[t]);
    assert s.mem.readers[k] == Readers(s.pcs, k);
    BusyBounds(s.pcs, k);
  }

  /** The writer is still waiting after every step of the schedule. */
  predicate StillWaiting(s: State, t: nat, k: int, schedule: Schedule)
    requires Inv(s) && Runs(s, schedule)
    decreases |schedule|
  {
    Waits(s, t, k) &&
    (schedule == [] ||
     (NextKeepsInv(s, schedule[0].0, schedule[0].1);
      KeepsThreads(s, schedule[0].0, schedule[0].1);
      StillWaiting(Next(s, schedule[0].0, schedule[0].1), t, k, schedule[1..])))
  }

  predicate Moves(schedule: Schedule, u: nat) {
    exists i :: 0 <= i < |schedule| && schedule[i].0 == u
  }

  /** One round: what is in the way never grows, and shrinks if one of those in the way gets a turn. */
  lemma {:induction false} RoundShrinks(s: State, t: nat, k: int, u: nat, round: Schedule)
    requires Inv(s) && Runs(s, round) && StillWaiting(s, t, k, round) && u < |s.pcs|
    ensures Waits(Run(s, round), t, k) && Busy(Run(s, round).pcs, k) <= Busy(s.pcs, k)
    ensures Delay(s.pcs[u], k) > 0 && Moves(round, u) ==> Busy(Run(s, round).pcs, k) < Busy(s.pcs, k)
    ensures Busy(s.pcs, k) == 0 ==> !Moves(round, t)
    decreases |round|
  {
    hide Inv, Next, Delay, Readers;
    if round != [] {
      var v, c := round[0].0, round[0].1;
      NextKeepsInv(s, v, c);
      KeepsThreads(s, v, c);
      var s' := Next(s, v, c);
      RoundShrinks(s', t, k, u, round[1..]);
      if v == t {
        WriterLooks(s, t, k, c);
      } else {
        BusyStep(s, t, k, v, c);
      }
      if v != u { OthersDoNotMove(s, u, v, c); }
      if v == u && v == t { WaiterDelaysNobody(s.pcs[t], k); }
      assert forall x: nat :: Moves(round, x) ==> x == v || Moves(round[1..], x) by {
        forall x: nat | Moves(round, x) && x != v ensures Moves(round[1..], x) {
          var i :| 0 <= i < |round| && round[i].0 == x;
          assert round[1..][i - 1].0 == x;
        }
      }
    }
  }

  lemma WaiterDelaysNobody(pc: PC, k: int)
    requires pc.SetWait?
    ensures Delay(pc, k) == 0
  {
  }

  lemma {:induction false} StillWaitingSplit(s: State, t: nat, k: int, a: Schedule, b: Schedule)
    requires Inv(s) && Runs(s, a + b) && StillWaiting(s, t, k, a + b)
    ensures Runs(s, a) && Runs(s, b) && StillWaiting(s, t, k, a) && StillWaiting(Run(s, a), t, k, b)
    decreases |a|
  {
    hide Inv, Next, Waits;
    assert forall i :: 0 <= i < |a| ==> (a + b)[i] == a[i];
    assert forall i :: 0 <= i < |b| ==> (a + b)[|a| + i] == b[i];
    if a == [] {
      assert a + b == b;
    } else {
      assert (a + b)[1..] == a[1..] + b;
      NextKeepsInv(s, a[0].0, a[0].1);
      KeepsThreads(s, a[0].0, a[0].1);
      StillWaitingSplit(Next(s, a[0].0, a[0].1), t, k, a[1..], b);
    }
  }

  /**
   * The wait ends: if every thread gets a turn in every round, a writer waiting for the readers of node k has
   * gone on after at most Busy + 1 rounds, and Busy is at most three times the number of threads.
   */
  lemma {:induction false} WaitEnds(s: State, t: nat, k: int, rounds: seq<Schedule>)
    requires Inv(s) && Waits(s, t, k) && Runs(s, Flatten(rounds))
    requires forall r, u: nat :: 0 <= r < |rounds| && u < |s.pcs| ==> Moves(rounds[r], u)
    requires |rounds| > Busy(s.pcs, k)
    ensures !StillWaiting(s, t, k, Flatten(rounds))
    ensures Busy(s.pcs, k) <= 3 * |s.pcs|
    decreases |rounds|
  {
    hide Inv, Next, Delay, Readers, Moves;
    BusyBounds(s.pcs, k);
    if StillWaiting(s, t, k, Flatten(rounds)) {
      var round, rest := rounds[0], Flatten(rounds[1..]);
      StillWaitingSplit(s, t, k, round, rest);
      if Busy(s.pcs, k) == 0 {
        assert Moves(rounds[0], t);
        RoundShrinks(s, t, k, t, round);
      } else {
        var u :| 0 <= u < |s.pcs| && Delay(s.pcs[u], k) > 0;
        RoundShrinks(s, t, k, u, round);
        assert Moves(rounds[0], u);
        WaitEnds(Run(s, round), t, k, rounds[1..]);
      }
    }
  }

  // ---- The map that set and clear calls change ----

  /** The filter in force: node k is active, carries tag q and holds level l. */
  predicate Matches(nodes: seq<Node>, q: Option<Tag>, k: int, l: Level) {
    0 <= k < |nodes| && nodes[k].active && q.Some? && nodes[k].tag == q && nodes[k].level == l
  }

  predicate InForce(nodes: seq<Node>, t: Tag, l: Level) {
    exists k :: 0 <= k < |nodes| && Matches(nodes, Some(t), k, l)
  }

  datatype Change = Keep | Put(t: Tag, l: Level) | Drop(t: Tag)

  /** The one store of a call at which its effect takes place. */
  function Commit(w: PC): Change {
    match w
    case SetLevel(t, l, _, was) => if was then Put(t, l) else Keep
    case SetActive(t, l, _) => Put(t, l)
    case SetInsert(t, l) => Put(t, l)
    case ClearExchange(t, _) => Drop(t)
    case _ => Keep
  }

  /** Level l is in force for tag t after the change. */
  predicate InForceAfter(nodes: seq<Node>, change: Change, t: Tag, l: Level) {
    match change
    case Keep => InForce(nodes, t, l)
    case Put(t', l') => if t == t' then l == l' else InForce(nodes, t, l)
    case Drop(t') => t != t' && InForce(nodes, t, l)
  }

  /** The one node that carries a tag decides what is in force for it. */
  lemma CarrierDecides(nodes: seq<Node>, k: nat, t: Tag, l: Level)
    requires k < |nodes| && forall i, j :: 0 <= i < j < |nodes| && nodes[i].tag.Some? ==> nodes[i].tag != nodes[j].tag
    requires nodes[k].tag == Some(t)
    ensures InForce(nodes, t, l) <==> nodes[k].active && nodes[k].level == l
  {
    if nodes[k].active && nodes[k].level == l { assert Matches(nodes, Some(t), k, l); }
  }

  /** Overwriting node k changes the levels in force for the tags it carries before and after only. */
  lemma NodeUpdate(nodes: seq<Node>, k: nat, n: Node, t: Tag, l: Level)
    requires k < |nodes| && forall i, j :: 0 <= i < j < |nodes| && nodes[i].tag.Some? ==> nodes[i].tag != nodes[j].tag
    requires nodes[k].tag == n.tag || (!nodes[k].active && !n.active)
    ensures InForce(nodes[k := n], t, l)
            <==> if n.active && n.tag == Some(t) then n.level == l
                 else !(nodes[k].active && nodes[k].tag == Some(t)) && InForce(nodes, t, l)
  {
    var nodes' := nodes[k := n];
    if n.active && n.tag == Some(t) {
      if n.level == l { assert Matches(nodes', Some(t), k, l); }
    } else if !(nodes[k].active && nodes[k].tag == Some(t)) && InForce(nodes, t, l) {
      var j :| 0 <= j < |nodes| && Matches(nodes, Some(t), j, l);
      assert Matches(nodes', Some(t), j, l);
    }
    if InForce(nodes', t, l) {
      var j :| 0 <= j < |nodes'| && Matches(nodes', Some(t), j, l);
      if j != k { assert Matches(nodes, Some(t), j, l); }
    }
  }

  lemma NodeAdded(nodes: seq<Node>, n: Node, t: Tag, l: Level)
    requires n.active && n.tag.Some? && NoTag(nodes, n.tag.value, -1)
    ensures InForce(nodes + [n], t, l) <==> if n.tag == Some(t) then n.level == l else InForce(nodes, t, l)
  {
    var all := nodes + [n];
    if n.tag == Some(t) && n.level == l { assert Matches(all, Some(t), |nodes|, l); }
    if n.tag != Some(t) && InForce(nodes, t, l) {
      var j :| 0 <= j < |nodes| && Matches(nodes, Some(t), j, l);
      assert Matches(all, Some(t), j, l);
    }
    if InForce(all, t, l) {
      var j :| 0 <= j < |all| && Matches(all, Some(t), j, l);
      if j < |nodes| { assert Matches(nodes, Some(t), j, l); }
    }
  }

  lemma CommitIsExact(m: Memory, w: PC, t: Tag, l: Level)
    requires Holding(w) && WriterKnows(m, w) && TagsOk(m, w)
    ensures InForce(WriterMemory(m, w).nodes, t, l) <==> InForceAfter(m.nodes, Commit(w), t, l)
  {
    hide InForce, AllActive;
    if Changing(w) {
      var n := WriterMemory(m, w).nodes[w.k];
      assert WriterMemory(m, w).nodes == m.nodes[w.k := n];
      NodeUpdate(m.nodes, w.k, n, t, l);
      if m.nodes[w.k].tag == Some(t) { CarrierDecides(m.nodes, w.k, t, l); }
    } else if w.SetInsert? {
      NodeAdded(m.nodes, Node(Some(w.t), w.l, true), t, l);
    }
  }

  /** Each tag has at most one level in force. */
  lemma OneLevelInForce(s: State, t: Tag, l: Level, l': Level)
    requires Inv(s) && InForce(s.mem.nodes, t, l) && InForce(s.mem.nodes, t, l')
    ensures l == l'
  {
    hide WriterKnows, WriterShape, LevelsOk, CountOk, HeadOk, Locked, ReadersOk, ThreadsOk;
    var k :| 0 <= k < |s.mem.nodes| && Matches(s.mem.nodes, Some(t), k, l);
    CarrierDecides(s.mem.nodes, k, t, l');
  }

  /**
   * The store refines a map from tags to levels: a set call changes it at one step, to its level for its tag alone,
   * a clear call at one step, by dropping its tag alone, and no other step of any thread changes it.
   */
  lemma StepsRefineMap(s: State, u: nat, c: Choice, t: Tag, l: Level)
    requires Inv(s) && u < |s.pcs|
    ensures InForce(Next(s, u, c).mem.nodes, t, l)
            <==> InForceAfter(s.mem.nodes, if Holding(s.pcs[u]) then Commit(s.pcs[u]) else Keep, t, l)
  {
    NextNodes(s, u, c);
    if Holding(s.pcs[u]) { CommitIsExact(s.mem, s.pcs[u], t, l); }
    hide InForce, WriterMemory, Holding, Commit, Next, Inv;
  }

  /** The holder has done what the call is for, or found that it cannot. */
  predicate Finishing(w: PC) {
    w.IncCount? || w.IncCountNew? || w.SetHead? || w.DecCount? || w.Unlock?
  }

  /** The thread is in a call for this change and has neither made it nor given up. */
  predicate Due(pc: PC, change: Change) {
    match change
    case Put(t, l) => Setting(pc, t, l)
    case Drop(t) => (pc.ClearLock? || pc.ClearScan? || pc.ClearExchange?) && pc.t == t
    case Keep => false
  }

  /** The steps at which a call gives up: no memory for the tag or the node, or no node with the tag. */
  predicate GivesUp(pc: PC, granted: bool) {
    ((pc.SetAlloc? || pc.SetCalloc?) && !granted) || (pc.ClearScan? && pc.k < 0)
  }

  /** What a thread's step decides: the change it makes, Keep when the call gives up, or nothing. */
  function Outcome(pc: PC, granted: bool): seq<Change> {
    if Commit(pc) != Keep then [Commit(pc)] else if GivesUp(pc, granted) then [Keep] else []
  }

  /** A call gives up for cause: a clear when no node has its tag, a set when none has and memory is short. */
  lemma GivesUpForCause(s: State, u: nat, granted: bool)
    requires Inv(s) && u < |s.pcs| && (GivesUp(s.pcs[u], granted) || s.pcs[u].SetUnlock?)
    ensures !s.pcs[u].SetAlloc? ==> NoTag(s.mem.nodes, s.pcs[u].t, -1)
    ensures s.pcs[u].SetCalloc? ==> AllActive(s.mem.nodes, -1)
    ensures !s.pcs[u].ClearScan? && !s.pcs[u].SetUnlock? ==> !granted
  {
    if !s.pcs[u].SetAlloc? {
      assert Writer(s) == s.pcs[u];
      assert WriterKnows(s.mem, s.pcs[u]);
    }
    hide WriterOk, ReadersOk, ThreadsOk, NoTag, AllActive;
  }

  /**
   * The step at which a call is decided: after it a clear call's tag has no level in force, whether the step made the
   * change or gave up; a set call's tag has the level of the call and no other, unless memory was refused.
   */
  lemma DecisionIsRight(s: State, u: nat, c: Choice, change: Change, l: Level)
    requires Inv(s) && u < |s.pcs| && Due(s.pcs[u], change) && Outcome(s.pcs[u], c.Proceed? && c.granted) != []
    ensures change.Drop? ==> !InForce(Next(s, u, c).mem.nodes, change.t, l)
    ensures change.Put? && Outcome(s.pcs[u], c.Proceed? && c.granted) == [change] ==>
              (InForce(Next(s, u, c).mem.nodes, change.t, l) <==> l == change.l)
    ensures change.Put? && Outcome(s.pcs[u], c.Proceed? && c.granted) != [change] ==>
              !(c.Proceed? && c.granted) && Next(s, u, c).mem.nodes == s.mem.nodes
  {
    hide Inv, Next, InForce, Holding, Due, NoTag;
    var pc, granted := s.pcs[u], c.Proceed? && c.granted;
    DecidersHold(pc, granted, change);
    StepsRefineMap(s, u, c, change.t, l);
    if Commit(pc) == Keep {
      GivesUpForCause(s, u, granted);
      GivingUpChangesNothing(s, u, c);
      if change.Drop? { NoTagNoLevel(s.mem.nodes, change.t, l); }
    }
  }

  lemma DecidersHold(pc: PC, granted: bool, change: Change)
    requires Due(pc, change) && Outcome(pc, granted) != []
    ensures !change.Keep? && (Commit(pc) != Keep ==> Holding(pc) && Commit(pc) == change)
    ensures Commit(pc) == Keep ==> GivesUp(pc, granted) && pc.t == change.t && (change.Drop? <==> pc.ClearScan?)
  {
  }

  lemma GivingUpChangesNothing(s: State, u: nat, c: Choice)
    requires Inv(s) && u < |s.pcs| && GivesUp(s.pcs[u], c.Proceed? && c.granted)
    ensures Next(s, u, c).mem.nodes == s.mem.nodes
  {
    NextNodes(s, u, c);
    hide Inv, Next;
  }

  lemma NoTagNoLevel(nodes: seq<Node>, t: Tag, l: Level)
    requires NoTag(nodes, t, -1)
    ensures !InForce(nodes, t, l)
  {
  }

  lemma DueWriterStep(m: Memory, w: PC, granted: bool, change: Change)
    requires Holding(w) && WriterShape(m, w)
    requires Due(w, change) || Finishing(w)
    ensures Due(w, change) ==> if Due(WriterNext(m, w, granted), change) then Outcome(w, granted) == []
                               else Outcome(w, granted) in {[change], [Keep]} && Finishing(WriterNext(m, w, granted))
    ensures Finishing(w) ==> Outcome(w, granted) == [] && (Finishing(WriterNext(m, w, granted)) || w.Unlock?)
  {
  }

  /** A thread is in one of three parts of a call: on the way to its change, past it, or done. */
  predicate InCall(pc: PC, change: Change) {
    Due(pc, change) || Finishing(pc) || pc.Idle?
  }

  lemma DueStep(s: State, u: nat, c: Choice, change: Change)
    requires Inv(s) && u < |s.pcs| && (Due(s.pcs[u], change) || Finishing(s.pcs[u]))
    ensures var pc, pc', out := s.pcs[u], Next(s, u, c).pcs[u], Outcome(s.pcs[u], c.Proceed? && c.granted);
            && InCall(pc', change)
            && (Due(pc, change) && Due(pc', change) ==> out == [])
            && (Due(pc, change) && !Due(pc', change) ==> out in {[change], [Keep]})
            && (Finishing(pc) ==> !Due(pc', change) && out == [])
  {
    var pc := s.pcs[u];
    if Holding(pc) {
      assert WriterShape(s.mem, Writer(s)) && Writer(s) == pc;
      DueWriterStep(s.mem, pc, c.Proceed? && c.granted, change);
      PartsAreDisjoint(pc, change);
      PartsAreDisjoint(WriterNext(s.mem, pc, c.Proceed? && c.granted), change);
      hide Inv, WriterNext, WriterMemory, Holding, IsLookup, Due, Finishing, Outcome, WriterShape, Active;
      PlainEnd(pc, change);
    } else {
      hide Inv, Holding;
    }
  }

  lemma PartsAreDisjoint(pc: PC, change: Change)
    ensures !(Due(pc, change) && Finishing(pc)) && !(Due(pc, change) && pc.Idle?)
    ensures Holding(pc) ==> !IsLookup(pc)
  {
  }

  lemma PlainEnd(pc: PC, change: Change)
    ensures Due(pc, change) || Finishing(pc) ==> !pc.Idle? && !IsLookup(pc)
  {
  }

  /** The outcomes of thread u's steps over a run. */
  function Outcomes(s: State, schedule: Schedule, u: nat): seq<Change>
    requires Inv(s) && Runs(s, schedule) && u < |s.pcs|
    decreases |schedule|
  {
    if schedule == [] then []
    else
      var front, last := schedule[..|schedule| - 1], schedule[|schedule| - 1];
      Outcomes(s, front, u)
      + if last.0 == u then Outcome(Run(s, front).pcs[u], last.1.Proceed? && last.1.granted) else []
  }

  /** Thread u has not returned from its call before the end of the run. */
  predicate Unreturned(s: State, schedule: Schedule, u: nat)
    requires Inv(s) && Runs(s, schedule) && u < |s.pcs|
    decreases |schedule|
  {
    schedule == [] || (var front := schedule[..|schedule| - 1]; Unreturned(s, front, u) && !Run(s, front).pcs[u].Idle?)
  }

  lemma LastTurn(s: State, schedule: Schedule, u: nat)
    requires Inv(s) && Runs(s, schedule) && u < |s.pcs| && schedule != []
    ensures var n := |schedule| - 1;
            var r, v, c := Run(s, schedule[..n]), schedule[n].0, schedule[n].1;
            && Run(s, schedule) == Next(r, v, c)
            && (Unreturned(s, schedule, u) ==> Unreturned(s, schedule[..n], u) && !r.pcs[u].Idle?)
            && Outcomes(s, schedule, u)
               == Outcomes(s, schedule[..n], u) + if v == u then Outcome(r.pcs[u], c.Proceed? && c.granted) else []
  {
    hide Inv, Next, Outcome;
    var n := |schedule| - 1;
    RunSplit(s, schedule[..n], [schedule[n]]);
    assert schedule == schedule[..n] + [schedule[n]];
    RunOne(Run(s, schedule[..n]), schedule[n].0, schedule[n].1);
  }

  /** Nothing decided while the change is due, exactly one thing afterwards. */
  predicate Decided(outs: seq<Change>, pc: PC, change: Change) {
    InCall(pc, change) && if Due(pc, change) then outs == [] else outs == [change] || outs == [Keep]
  }

  lemma DecidedStep(s: State, u: nat, c: Choice, change: Change, outs: seq<Change>)
    requires Inv(s) && u < |s.pcs| && Decided(outs, s.pcs[u], change) && !s.pcs[u].Idle?
    ensures Decided(outs + Outcome(s.pcs[u], c.Proceed? && c.granted), Next(s, u, c).pcs[u], change)
  {
    hide Inv, Next, Due, Finishing, Outcome;
    PartsAreDisjoint(s.pcs[u], change);
    DueStep(s, u, c, change);
    assert outs + [] == outs;
  }

  /**
   * A whole set or clear call, whatever else runs: it makes exactly its change, once, or gives up, once; nothing is
   * decided before and nothing after.
   */
  lemma {:induction false} CallsCommitOnce(s: State, schedule: Schedule, u: nat, change: Change)
    requires Inv(s) && Runs(s, schedule) && u < |s.pcs| && Due(s.pcs[u], change) && Unreturned(s, schedule, u)
    ensures Decided(Outcomes(s, schedule, u), Run(s, schedule).pcs[u], change)
    decreases |schedule|
  {
    hide Inv, Next, Due, Finishing, Outcome, Decided;
    if schedule == [] {
      StartsUndecided(s.pcs[u], change);
    } else {
      var n := |schedule| - 1;
      LastTurn(s, schedule, u);
      CallsCommitOnce(s, schedule[..n], u, change);
      var r, outs := Run(s, schedule[..n]), Outcomes(s, schedule[..n], u);
      if schedule[n].0 == u {
        DecidedStep(r, u, schedule[n].1, change, outs);
      } else {
        OthersDoNotMove(r, u, schedule[n].0, schedule[n].1);
        assert outs + [] == outs;
      }
    }
  }

  lemma StartsUndecided(pc: PC, change: Change)
    requires Due(pc, change)
    ensures Decided([], pc, change)
  {
  }

  // ---- A lookup that nobody disturbs ----

  /** What a walk from node k returns if the nodes stay as they are. */
  function Walk(nodes: seq<Node>, default: Level, q: Option<Tag>, k: int): PC
    requires k < |nodes|
    decreases k + 1
  {
    if k < 0 then Fallback(default)
    else if nodes[k].active && q.Some? && nodes[k].tag == q then Found(q, nodes[k].level)
    else Walk(nodes, default, q, k - 1)
  }

  function Predicted(m: Memory, default: Level, pc: PC): PC
    requires IsLookup(pc) && (AtNode(pc) ==> 0 <= pc.k < |m.nodes|) && m.head < |m.nodes|
  {
    match pc
    case LoadCount(q) => if m.count == 0 then Fallback(default) else Walk(m.nodes, default, q, m.head)
    case LoadHead(q) => Walk(m.nodes, default, q, m.head)
    case CheckActive(q, k) => Walk(m.nodes, default, q, k)
    case Enter(q, k) => Walk(m.nodes, default, q, k)
    case Recheck(q, k) => Walk(m.nodes, default, q, k)
    case Compare(q, k) =>
      if q.Some? && m.nodes[k].tag == q then Found(q, m.nodes[k].level) else Walk(m.nodes, default, q, k - 1)
    case LoadLevel(q, k, matches) =>
      if matches then Found(q, m.nodes[k].level) else Walk(m.nodes, default, q, k - 1)
    case Leave(q, k, matches, level) => if matches then Found(q, level) else Walk(m.nodes, default, q, k - 1)
    case LeaveInactive(q, k) => Walk(m.nodes, default, q, k - 1)
    case LoadDefault(_) => Fallback(default)
    case Found(_, _) | Fallback(_) => pc
  }

  lemma PredictionHolds(m: Memory, default: Level, pc: PC)
    requires IsLookup(pc) && (AtNode(pc) ==> 0 <= pc.k < |m.nodes|) && m.head < |m.nodes| && !Returned(pc)
    ensures var pc' := LookupNext(m, default, pc);
            && IsLookup(pc') && (AtNode(pc') ==> 0 <= pc'.k < |m.nodes|)
            && Predicted(m, default, pc') == Predicted(m, default, pc)
  {
  }

  lemma PredictionIgnoresReaders(m: Memory, readers: seq<nat>, default: Level, pc: PC)
    requires IsLookup(pc) && (AtNode(pc) ==> 0 <= pc.k < |m.nodes|) && m.head < |m.nodes|
    ensures Predicted(m.(readers := readers), default, pc) == Predicted(m, default, pc)
  {
  }

  /** n turns of thread t alone. */
  function Solo(t: nat, n: nat): Schedule {
    if n == 0 then [] else [(t, Proceed(false))] + Solo(t, n - 1)
  }

  lemma SoloStep(s: State, t: nat)
    requires Inv(s) && t < |s.pcs| && IsLookup(s.pcs[t])
    ensures s.mem.head < |s.mem.nodes| && (AtNode(s.pcs[t]) ==> 0 <= s.pcs[t].k < |s.mem.nodes|)
    ensures var s' := Next(s, t, Proceed(false));
            && s'.default == s.default && s'.mem == s.mem.(readers := s'.mem.readers)
            && s'.pcs[t] == LookupNext(s.mem, s.default, s.pcs[t])
  {
    CountedIsPositive(s, t);
    hide LookupNext, LookupReaders, Locked, ReadersOk, ThreadsOk, WriterKnows, TagsOk, LevelsOk, CountOk;
  }

  /** Steps left for a lookup that nobody disturbs. */
  function SoloSteps(m: Memory, pc: PC): nat {
    if pc.LoadCount? then (if m.count == 0 then 2 else 6 * |m.nodes| + 3) else if pc.LoadHead? then 6 * |m.nodes| + 2 else StepsLeft(pc)
  }

  lemma SoloProgress(m: Memory, default: Level, pc: PC)
    requires IsLookup(pc) && (AtNode(pc) ==> 0 <= pc.k < |m.nodes|) && m.head < |m.nodes| && !Returned(pc)
    ensures SoloSteps(m, LookupNext(m, default, pc)) < SoloSteps(m, pc)
  {
  }

  lemma {:induction false} SoloRun(s: State, t: nat) returns (n: nat)
    requires Inv(s) && t < |s.pcs| && IsLookup(s.pcs[t])
    requires s.mem.head < |s.mem.nodes| && (AtNode(s.pcs[t]) ==> 0 <= s.pcs[t].k < |s.mem.nodes|)
    ensures Runs(s, Solo(t, n)) && Returned(Run(s, Solo(t, n)).pcs[t]) && n <= SoloSteps(s.mem, s.pcs[t])
    ensures Run(s, Solo(t, n)).pcs[t] == Predicted(s.mem, s.default, s.pcs[t])
    decreases SoloSteps(s.mem, s.pcs[t])
  {
    hide Inv, Next, LookupNext, IsLookup, AtNode, Walk;
    if Returned(s.pcs[t]) {
      n := 0;
    } else {
      SoloStep(s, t);
      SoloProgress(s.mem, s.default, s.pcs[t]);
      PredictionHolds(s.mem, s.default, s.pcs[t]);
      NextKeepsInv(s, t, Proceed(false));
      KeepsThreads(s, t, Proceed(false));
      var s' := Next(s, t, Proceed(false));
      PredictionIgnoresReaders(s.mem, s'.mem.readers, s.default, s'.pcs[t]);
      n := SoloRun(s', t);
      assert Solo(t, n + 1)[1..] == Solo(t, n);
      n := n + 1;
    }
  }

  lemma {:induction false} WalkFinds(nodes: seq<Node>, default: Level, q: Option<Tag>, k: int)
    requires k < |nodes|
    ensures var r := Walk(nodes, default, q, k);
            if r.Found? then r.q == q && exists j :: j <= k && Matches(nodes, q, j, r.level)
            else r == Fallback(default) && forall j, l :: j <= k ==> !Matches(nodes, q, j, l)
    decreases k + 1
  {
    if k >= 0 {
      if nodes[k].active && q.Some? && nodes[k].tag == q {
        assert Matches(nodes, q, k, nodes[k].level);
      } else {
        WalkFinds(nodes, default, q, k - 1);
      }
    }
  }

  /**
   * Started with the lock free and left alone, a lookup returns the level of the one active filter for its tag,
   * or the default when there is none; the shortcut for a zero count changes nothing.
   */
  lemma UndisturbedLookup(s: State, t: nat) returns (n: nat)
    requires Inv(s) && s.lock.None? && t < |s.pcs| && s.pcs[t].LoadCount?
    ensures Runs(s, Solo(t, n))
    ensures var q, r := s.pcs[t].q, Run(s, Solo(t, n)).pcs[t];
            if r.Found? then r.q == q && exists k :: Matches(s.mem.nodes, q, k, r.level)
            else r == Fallback(s.default) && forall k, l :: !Matches(s.mem.nodes, q, k, l)
    ensures n <= 6 * |s.mem.nodes| + 3 && (s.mem.count == 0 ==> n <= 2)
  {
    CountIsExact(s);
    assert s.mem.head == |s.mem.nodes| - 1;
    hide Inv, Active, LookupNext, Run;
    n := SoloRun(s, t);
    WalkFinds(s.mem.nodes, s.default, s.pcs[t].q, |s.mem.nodes| - 1);
  }
}
