/**
 * The tag-filter store as its callers see it, one call at a time: a linked list
 * of nodes, recycled in place, that behaves as a map from tags to levels.
 * What concurrent lookups may see of it is the subject of TagFilterMachine.
 */
module TagFilter {
  import opened Bytes

  type Tag = seq<Byte>

  const LEVEL_NONE := 0
  const LEVEL_VERBOSE := 5

  predicate ValidLevel(level: int) { LEVEL_NONE <= level <= LEVEL_VERBOSE }

  // ---- The list as a value ----

  datatype Entry = Entry(tag: Tag, level: int, active: bool)

  predicate Distinct(es: seq<Entry>) {
    forall i, j :: 0 <= i < j < |es| ==> es[i].tag != es[j].tag
  }

  predicate Carries(es: seq<Entry>, t: Tag) {
    exists i :: 0 <= i < |es| && es[i].tag == t
  }

  predicate LevelsValid(es: seq<Entry>) {
    forall i :: 0 <= i < |es| ==> ValidLevel(es[i].level)
  }

  predicate Recyclable(es: seq<Entry>) {
    exists i :: 0 <= i < |es| && !es[i].active
  }

  function ActiveCount(es: seq<Entry>): nat {
    if es == [] then 0 else (if es[0].active then 1 else 0) + ActiveCount(es[1..])
  }

  /** The filters in force: the levels of the active entries by tag. */
  function Filters(es: seq<Entry>): map<Tag, int> {
    if es == [] then map[]
    else if es[0].active then Filters(es[1..])[es[0].tag := es[0].level]
    else Filters(es[1..])
  }

  lemma {:induction false} FiltersAre(es: seq<Entry>, t: Tag)
    requires Distinct(es)
    ensures t in Filters(es) <==> exists i :: 0 <= i < |es| && es[i].active && es[i].tag == t
    ensures forall i :: 0 <= i < |es| && es[i].active && es[i].tag == t ==> t in Filters(es) && Filters(es)[t] == es[i].level
  {
    if es != [] {
      FiltersAre(es[1..], t);
      if i :| 0 <= i < |es| && es[i].active && es[i].tag == t {
        if i > 0 { assert es[1..][i - 1] == es[i]; }
      }
      if t in Filters(es[1..]) {
        var i :| 0 <= i < |es[1..]| && es[1..][i].active && es[1..][i].tag == t;
        assert es[i + 1] == es[1..][i];
      }
    }
  }

  /** A node with the tag means a filter for the tag if and only if no cleared node still carries the tag. */
  lemma CarriedIsFiltered(es: seq<Entry>, t: Tag)
    requires Distinct(es)
    ensures (Carries(es, t) <==> t in Filters(es)) <==> forall i :: 0 <= i < |es| && es[i].tag == t ==> es[i].active
  {
    FiltersAre(es, t);
    if i :| 0 <= i < |es| && es[i].active && es[i].tag == t { assert Carries(es, t); }
  }

  /** Renewing the entry of a tag, or recycling an inactive one for a new tag, sets that tag and no other. */
  lemma FiltersUpdate(es: seq<Entry>, i: nat, e: Entry)
    requires i < |es| && Distinct(es) && Distinct(es[i := e])
    requires es[i].active ==> es[i].tag == e.tag
    ensures Filters(es[i := e]) == if e.active then Filters(es)[e.tag := e.level] else Filters(es) - {e.tag}
  {
    var es' := es[i := e];
    forall t
      ensures t in Filters(es') <==> if t == e.tag then e.active else t in Filters(es)
      ensures t in Filters(es') ==> Filters(es')[t] == if t == e.tag then e.level else Filters(es)[t]
    {
      FiltersAre(es, t);
      FiltersAre(es', t);
      assert es'[i] == e;
      if j :| 0 <= j < |es| && j != i && es[j].active && es[j].tag == t { assert es'[j] == es[j]; }
      if j :| 0 <= j < |es'| && j != i && es'[j].active && es'[j].tag == t { assert es'[j] == es[j]; }
    }
  }

  lemma {:induction false} ActiveCountUpdate(es: seq<Entry>, i: nat, e: Entry)
    requires i < |es|
    ensures ActiveCount(es[i := e]) == ActiveCount(es) - (if es[i].active then 1 else 0) + (if e.active then 1 else 0)
  {
    if i == 0 {
      assert es[i := e][1..] == es[1..];
    } else {
      assert es[i := e][1..] == es[1..][i - 1 := e];
      ActiveCountUpdate(es[1..], i - 1, e);
    }
  }

  lemma {:induction false} ActiveCountBounds(es: seq<Entry>)
    ensures ActiveCount(es) <= |es|
    ensures ActiveCount(es) == |es| <==> !Recyclable(es)
    ensures ActiveCount(es) == 0 ==> forall i :: 0 <= i < |es| ==> !es[i].active
  {
    if es != [] {
      ActiveCountBounds(es[1..]);
      assert forall i :: 0 <= i < |es| - 1 ==> es[1..][i] == es[i + 1];
      if Recyclable(es[1..]) {
        var i :| 0 <= i < |es[1..]| && !es[1..][i].active;
        assert !es[i + 1].active;
      }
      if Recyclable(es) && es[0].active {
        var i :| 0 <= i < |es| && !es[i].active;
        assert !es[1..][i - 1].active;
      }
    }
  }

  lemma EntryRenewed(es: seq<Entry>, i: nat, e: Entry)
    requires i < |es| && Distinct(es) && LevelsValid(es) && ValidLevel(e.level) && e.active
    requires es[i].tag == e.tag || (!es[i].active && !Carries(es, e.tag))
    ensures Distinct(es[i := e]) && LevelsValid(es[i := e]) && Carries(es[i := e], e.tag)
    ensures Filters(es[i := e]) == Filters(es)[e.tag := e.level]
    ensures ActiveCount(es[i := e]) == ActiveCount(es) + (if es[i].active then 0 else 1)
  {
    assert es[i := e][i].tag == e.tag;
    hide Filters, ActiveCount;
    FiltersUpdate(es, i, e);
    ActiveCountUpdate(es, i, e);
  }

  // ---- The list in memory ----

  class Node {
    const next: Node?
    var tag: Tag
    var level: int
    var active: bool

    constructor (tag: Tag, level: int, next: Node?)
      ensures this.tag == tag && this.level == level && this.active && this.next == next
    {
      this.tag, this.level, this.active, this.next := tag, level, true, next;
    }
  }

  ghost function Snapshot(nodes: seq<Node>): (es: seq<Entry>)
    reads nodes
    ensures |es| == |nodes|
    ensures forall i :: 0 <= i < |nodes| ==> es[i] == Entry(nodes[i].tag, nodes[i].level, nodes[i].active)
  {
    if nodes == [] then []
    else [Entry(nodes[0].tag, nodes[0].level, nodes[0].active)] + Snapshot(nodes[1..])
  }

  class FilterList {
    var head: Node?
    var count: int
    var defaultLevel: int
    ghost var nodes: seq<Node>

    ghost predicate Linked()
      reads this`head, this`nodes
    {
      Chained(head, nodes)
    }

    static ghost predicate Chained(first: Node?, chain: seq<Node>) {
      && first == At(chain, 0)
      && (forall i :: 0 <= i < |chain| ==> chain[i].next == At(chain, i + 1))
      && (forall i, j :: 0 <= i < j < |chain| ==> chain[i] != chain[j])
    }

    static ghost function At(chain: seq<Node>, i: nat): Node? {
      if i < |chain| then chain[i] else null
    }

    ghost function Entries(): (es: seq<Entry>)
      reads this`nodes, nodes
      ensures |es| == |nodes|
    {
      Snapshot(nodes)
    }

    ghost predicate Valid()
      reads this, nodes
    {
      && Linked() && Distinct(Entries()) && LevelsValid(Entries()) && count == ActiveCount(Entries())
      && ValidLevel(defaultLevel)
    }

    constructor ()
      ensures Valid() && Filters(Entries()) == map[] && Entries() == [] && defaultLevel == 5
    {
      head, count, defaultLevel := null, 0, LEVEL_VERBOSE;
      nodes := [];
    }

    /** The level for a tag: that of its filter, else the default. A NULL tag matches no filter. */
    method LevelForTag(tag: Option<Tag>) returns (level: int)
      requires Valid()
      ensures level == if tag.Some? && tag.value in Filters(Entries()) then Filters(Entries())[tag.value] else defaultLevel
      ensures 0 <= level <= 5
    {
      if tag.Some? { FiltersAre(Entries(), tag.value); }
      if count == 0 {
        ActiveCountBounds(Entries());
        return defaultLevel;
      }
      var node := head;
      ghost var i := 0;
      while node != null
        invariant 0 <= i <= |nodes| && node == At(nodes, i)
        invariant forall j :: 0 <= j < i ==> !(Entries()[j].active && Some(Entries()[j].tag) == tag)
        decreases |nodes| - i
      {
        assert Entries()[i] == Entry(node.tag, node.level, node.active);
        if node.active && tag == Some(node.tag) {
          return node.level;
        }
        node := node.next;
        i := i + 1;
      }
      return defaultLevel;
    }

    /** The verdict for a message; `local` is the level compiled in. */
    method LevelEnabled(level: int, local: int, tag: Option<Tag>) returns (enabled: bool)
      requires Valid() && 0 <= level
      ensures enabled <==>
              1 <= level <= 5 && level <= local
              && level <= (if tag.Some? && tag.value in Filters(Entries()) then Filters(Entries())[tag.value]
                           else defaultLevel)
    {
      if level == LEVEL_NONE || level > LEVEL_VERBOSE || level > local {
        return false;
      }
      var runtime := LevelForTag(tag);
      if !ValidLevel(runtime) || runtime == LEVEL_NONE {
        return false;
      }
      return level <= runtime;
    }

    /** The node that carries the tag, active or not. */
    method Find(tag: Tag) returns (node: Node?, ghost i: nat)
      requires Valid()
      ensures i <= |nodes| && node == At(nodes, i)
      ensures node != null <==> Carries(Entries(), tag)
      ensures node != null ==> i < |nodes| && node == nodes[i] && Entries()[i].tag == tag
    {
      node, i := head, 0;
      while node != null
        invariant i <= |nodes| && node == At(nodes, i)
        invariant forall j :: 0 <= j < i ==> Entries()[j].tag != tag
        decreases |nodes| - i
      {
        if node.tag == tag {
          return;
        }
        node := node.next;
        i := i + 1;
      }
    }

    /** Sets the level of the tag's node, active or not, if there is one. */
    method Update(tag: Tag, level: int) returns (found: bool)
      requires Valid() && ValidLevel(level)
      modifies this`count, nodes
      ensures Valid() && nodes == old(nodes) && defaultLevel == old(defaultLevel)
      ensures found <==> Carries(old(Entries()), tag)
      ensures !found ==> Entries() == old(Entries())
      ensures found ==> Filters(Entries()) == old(Filters(Entries()))[tag := level] && Carries(Entries(), tag)
    {
      hide Filters, ActiveCount, Distinct, Carries, LevelsValid, Snapshot;
      ghost var i;
      var node: Node?;
      node, i := Find(tag);
      found := node != null;
      if found {
        Renew(node, i, level);
      }
    }

    method Renew(node: Node, ghost i: nat, level: int)
      requires Valid() && ValidLevel(level) && i < |nodes| && node == nodes[i]
      modifies this`count, node
      ensures Valid() && nodes == old(nodes) && defaultLevel == old(defaultLevel)
      ensures Carries(Entries(), old(node.tag))
      ensures Filters(Entries()) == old(Filters(Entries()))[old(node.tag) := level]
    {
      hide Filters, ActiveCount, Distinct, Carries, LevelsValid, Snapshot, At;
      ghost var es := Entries();
      var wasActive := node.active;
      node.level := level;
      if !wasActive {
        node.active := true;
        count := count + 1;
        EntryChanged(es, i, node.tag, level);
      } else {
        EntryChanged(es, i, node.tag, level);
      }
    }

    lemma EntryChanged(es: seq<Entry>, i: nat, tag: Tag, level: int)
      requires i < |es| == |nodes| && Distinct(es) && LevelsValid(es) && ValidLevel(level)
      requires nodes[i].tag == tag && nodes[i].level == level && nodes[i].active
      requires forall j :: 0 <= j < |nodes| && j != i ==> es[j] == Entry(nodes[j].tag, nodes[j].level, nodes[j].active)
      requires es[i].tag == tag || (!es[i].active && !Carries(es, tag))
      ensures Distinct(Entries()) && LevelsValid(Entries()) && Carries(Entries(), tag)
      ensures Filters(Entries()) == Filters(es)[tag := level]
      ensures ActiveCount(Entries()) == ActiveCount(es) + (if es[i].active then 0 else 1)
    {
      hide Distinct, LevelsValid, Carries, Filters, ActiveCount;
      var e := Entry(tag, level, true);
      assert Entries() == es[i := e];
      EntryRenewed(es, i, e);
    }

    /** The first inactive node, if any. */
    method FindReusable() returns (node: Node?, ghost i: nat)
      requires Valid()
      ensures i <= |nodes| && node == At(nodes, i)
      ensures node == null <==> !Recyclable(Entries())
      ensures node != null ==> !Entries()[i].active
    {
      node, i := head, 0;
      while node != null
        invariant i <= |nodes| && node == At(nodes, i)
        invariant forall j :: 0 <= j < i ==> Entries()[j].active
        decreases |nodes| - i
      {
        if !node.active {
          return;
        }
        node := node.next;
        i := i + 1;
      }
    }

    /** Renames a cleared node in place. */
    method Recycle(node: Node, ghost i: nat, tag: Tag, level: int)
      requires Valid() && ValidLevel(level) && i < |nodes| && node == nodes[i]
      requires !Entries()[i].active && !Carries(Entries(), tag)
      modifies this`count, node
      ensures Valid() && nodes == old(nodes) && defaultLevel == old(defaultLevel)
      ensures Filters(Entries()) == old(Filters(Entries()))[tag := level]
    {
      hide Filters, ActiveCount, Distinct, Carries, LevelsValid, Snapshot, At;
      ghost var es := Entries();
      node.tag := tag;
      node.level := level;
      node.active := true;
      count := count + 1;
      EntryChanged(es, i, tag, level);
    }

    lemma EntryInserted(es: seq<Entry>, e: Entry)
      requires Distinct(es) && LevelsValid(es) && !Carries(es, e.tag) && ValidLevel(e.level) && e.active
      ensures Distinct([e] + es) && LevelsValid([e] + es)
      ensures Filters([e] + es) == Filters(es)[e.tag := e.level] && ActiveCount([e] + es) == ActiveCount(es) + 1
    {
      assert ([e] + es)[1..] == es;
    }

    lemma ChainedWithFirst(node: Node, rest: seq<Node>)
      requires Chained(node.next, rest) && node !in rest
      ensures Chained(node, [node] + rest)
    {
      var chain := [node] + rest;
      forall i | 0 <= i < |chain| ensures chain[i].next == At(chain, i + 1) {
        if i > 0 { assert chain[i] == rest[i - 1]; }
      }
    }

    /** Inserts a node for a new tag at the head; every other node is active. */
    method Insert(tag: Tag, level: int)
      requires Valid() && ValidLevel(level) && !Carries(Entries(), tag)
      modifies this
      ensures Valid() && defaultLevel == old(defaultLevel)
      ensures |nodes| == |old(nodes)| + 1 && nodes[1..] == old(nodes) && fresh(nodes[0])
      ensures Entries() == [Entry(tag, level, true)] + old(Entries())
      ensures Filters(Entries()) == old(Filters(Entries()))[tag := level]
      ensures ActiveCount(Entries()) == old(ActiveCount(Entries())) + 1
    {
      hide Filters, ActiveCount, Distinct, Carries, LevelsValid, Snapshot, At, Chained;
      ghost var es := Entries();
      var node := new Node(tag, level, head);
      nodes := [node] + nodes;
      head := node;
      count := count + 1;
      assert nodes[1..] == old(nodes);
      assert Entries() == [Entry(tag, level, true)] + es;
      ChainedWithFirst(node, old(nodes));
      EntryInserted(es, Entry(tag, level, true));
    }

    /** The second half of a set call: look again, then recycle a cleared node, then allocate one. */
    method Install(tag: Tag, level: int, nodeAllocated: bool) returns (status: Status)
      requires Valid() && ValidLevel(level)
      modifies this, nodes
      ensures Valid() && defaultLevel == old(defaultLevel)
      ensures status == if Carries(old(Entries()), tag) || Recyclable(old(Entries())) || nodeAllocated then OK else NO_MEM
      ensures status == NO_MEM ==> Entries() == old(Entries())
      ensures status == OK ==> Filters(Entries()) == old(Filters(Entries()))[tag := level]
      ensures nodes == old(nodes) || (|nodes| > 0 && nodes[1..] == old(nodes) && fresh(nodes[0]))
      ensures |Entries()| == Max(old(|Entries()|), ActiveCount(Entries()))
    {
      hide Filters, ActiveCount, Distinct, Carries, LevelsValid, Snapshot, Recyclable;
      ghost var es := Entries();
      ActiveCountBounds(es);
      var found := Update(tag, level);
      if found {
        ActiveCountBounds(Entries());
        return OK;
      }
      ghost var i;
      var reusable: Node?;
      reusable, i := FindReusable();
      if reusable != null {
        Recycle(reusable, i, tag, level);
        ActiveCountBounds(Entries());
        return OK;
      }
      if !nodeAllocated {
        return NO_MEM;
      }
      Insert(tag, level);
      return OK;
    }

    /**
     * Sets the level of a tag. The two allocations, of the copy of the tag and of the node, may each fail; neither
     * is needed when the tag has a node already, the second not when a cleared node can be recycled.
     */
    method SetTagLevel(tag: Option<Tag>, level: int, copyAllocated: bool, nodeAllocated: bool) returns (status: Status)
      requires Valid()
      modifies this, nodes
      ensures Valid() && defaultLevel == old(defaultLevel)
      ensures status == if tag.None? || level < 0 || level > 5 then INVALID_ARG
                     else if Carries(old(Entries()), tag.value) then OK
                     else if copyAllocated && (Recyclable(old(Entries())) || nodeAllocated) then OK
                     else NO_MEM
      ensures status == OK ==> Filters(Entries()) == old(Filters(Entries()))[tag.value := level]
      ensures status != OK ==> Entries() == old(Entries())
      ensures nodes == old(nodes) || (|nodes| > 0 && nodes[1..] == old(nodes) && fresh(nodes[0]))
      ensures |Entries()| == Max(old(|Entries()|), ActiveCount(Entries()))
    {
      ActiveCountBounds(Entries());
      if tag.None? || !ValidLevel(level) {
        return INVALID_ARG;
      }
      var found := Update(tag.value, level);
      if found {
        ActiveCountBounds(Entries());
        return OK;
      }
      if !copyAllocated {
        return NO_MEM;
      }
      status := Install(tag.value, level, nodeAllocated);
    }

    /** Clears a tag's filter. OK only says that some node carries the tag: it may have been cleared before. */
    method ClearTagLevel(tag: Option<Tag>) returns (status: Status)
      requires Valid()
      modifies this`count, nodes
      ensures Valid() && nodes == old(nodes) && defaultLevel == old(defaultLevel)
      ensures status == if tag.None? then INVALID_ARG else if Carries(old(Entries()), tag.value) then OK else NOT_FOUND
      ensures tag.Some? ==> Filters(Entries()) == old(Filters(Entries())) - {tag.value}
      ensures tag.None? ==> Entries() == old(Entries())
      ensures forall i :: 0 <= i < |nodes| ==> Entries()[i].tag == old(Entries())[i].tag
    {
      hide Filters, ActiveCount, Distinct, LevelsValid, Snapshot, At, Linked;
      if tag.None? {
        return INVALID_ARG;
      }
      ghost var i;
      var node: Node?;
      node, i := Find(tag.value);
      if node == null {
        FiltersAre(Entries(), tag.value);
        return NOT_FOUND;
      }
      Deactivate(node, i);
      return OK;
    }

    method Deactivate(node: Node, ghost i: nat)
      requires Valid() && i < |nodes| && node == nodes[i]
      modifies this`count, node
      ensures Valid() && nodes == old(nodes) && defaultLevel == old(defaultLevel)
      ensures Filters(Entries()) == old(Filters(Entries())) - {old(node.tag)}
      ensures forall i :: 0 <= i < |nodes| ==> Entries()[i].tag == old(Entries())[i].tag
    {
      hide Filters, ActiveCount, Distinct, LevelsValid, Snapshot, At;
      ghost var es := Entries();
      var wasActive := node.active;
      node.active := false;
      if wasActive {
        count := count - 1;
        EntryCleared(es, i);
      } else {
        EntryCleared(es, i);
      }
    }

    lemma EntryCleared(es: seq<Entry>, i: nat)
      requires i < |es| == |nodes| && Distinct(es) && LevelsValid(es)
      requires nodes[i].tag == es[i].tag && nodes[i].level == es[i].level && !nodes[i].active
      requires forall j :: 0 <= j < |nodes| && j != i ==> es[j] == Entry(nodes[j].tag, nodes[j].level, nodes[j].active)
      ensures Distinct(Entries()) && LevelsValid(Entries())
      ensures Filters(Entries()) == Filters(es) - {es[i].tag}
      ensures forall j :: 0 <= j < |nodes| ==> Entries()[j].tag == es[j].tag
      ensures ActiveCount(Entries()) == ActiveCount(es) - (if es[i].active then 1 else 0)
    {
      var e := es[i].(active := false);
      assert Entries() == es[i := e];
      assert Distinct(es[i := e]);
      FiltersUpdate(es, i, e);
      ActiveCountUpdate(es, i, e);
    }

    /** Invalid levels are ignored. */
    method SetDefaultLevel(level: int)
      requires Valid()
      modifies this`defaultLevel
      ensures Valid()
      ensures defaultLevel == if 0 <= level <= 5 then level else old(defaultLevel)
    {
      if !ValidLevel(level) {
        return;
      }
      defaultLevel := level;
    }
  }

  /** A tag that has a filter is carried by every list with the same tags. */
  lemma StillCarried(es: seq<Entry>, later: seq<Entry>, t: Tag)
    requires Distinct(es) && t in Filters(es) && |later| == |es|
    requires forall i :: 0 <= i < |es| ==> later[i].tag == es[i].tag
    ensures Carries(later, t)
  {
    FiltersAre(es, t);
    var i :| 0 <= i < |es| && es[i].active && es[i].tag == t;
    assert later[i].tag == t;
  }

  /** Set once and cleared twice: the second clear reports OK although the first has removed the filter. */
  method ClearTwice(tag: Tag, level: int) returns (list: FilterList, cleared: Status, again: Status, ghost between: seq<Entry>)
    requires ValidLevel(level)
    ensures fresh(list) && list.Valid()
    ensures cleared == OK && Distinct(between) && Carries(between, tag) && tag !in Filters(between)
    ensures again == OK && Filters(list.Entries()) == map[]
  {
    hide FilterList.Linked, Filters, ActiveCount, Distinct, Carries, LevelsValid, Snapshot, Recyclable;
    list := new FilterList();
    var status := list.SetTagLevel(Some(tag), level, true, true);
    ghost var es := list.Entries();
    StillCarried(es, es, tag);
    cleared := list.ClearTagLevel(Some(tag));
    between := list.Entries();
    StillCarried(es, between, tag);
    again := list.ClearTagLevel(Some(tag));
  }
}
